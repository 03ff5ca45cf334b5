/**
 * The intensity colours of src/color.ts: `getQuakeScaleColor` maps a JMA
 * seismic-intensity scale code to a fill colour, and
 * `getQuakeScaleColorText` picks black or white text by a threshold.
 *
 * A TypeScript `number` is a double; it is modelled as a `real` (so 10.5 is
 * an input like any other), without NaN or the infinities.
 */
module Color {
  const LightBlue := "#b3d5ff"
  const Green := "#00c980"
  const Yellow := "#ffb630"
  const Orange := "#ff7926"
  const Red := "#fc0505"
  const DarkRed := "#820101"
  const Purple := "#c400d6"
  const Grey := "#CCCCCC"

  /** The scale codes the colour switch knows. */
  const KnownScales: set<real> := {10.0, 20.0, 30.0, 40.0, 45.0, 50.0, 55.0, 60.0, 70.0}

  /** `getQuakeScaleColor`: strict equality against each case, grey otherwise. */
  function QuakeScaleColor(scale: real): (r: string)
    ensures r == Grey <==> scale !in KnownScales
    ensures r == Red <==> scale == 45.0 || scale == 50.0
    ensures r == DarkRed <==> scale == 55.0 || scale == 60.0
    ensures r == LightBlue <==> scale == 10.0
    ensures r == Green <==> scale == 20.0
    ensures r == Yellow <==> scale == 30.0
    ensures r == Orange <==> scale == 40.0
    ensures r == Purple <==> scale == 70.0
  {
    if scale == 10.0 then LightBlue
    else if scale == 20.0 then Green
    else if scale == 30.0 then Yellow
    else if scale == 40.0 then Orange
    else if scale == 45.0 then Red
    else if scale == 50.0 then Red
    else if scale == 55.0 then DarkRed
    else if scale == 60.0 then DarkRed
    else if scale == 70.0 then Purple
    else Grey
  }

  /** `getQuakeScaleColorText`: black up to 40, white above. */
  function QuakeScaleColorText(scale: real): (r: string)
    ensures r == "black" || r == "white"
    ensures r == "black" <==> scale <= 40.0
  {
    if scale <= 40.0 then "black" else "white"
  }

  /** The nine levels of the JMA seismic-intensity scale. */
  datatype Intensity =
    | Shindo1 | Shindo2 | Shindo3 | Shindo4
    | Shindo5Lower | Shindo5Upper | Shindo6Lower | Shindo6Upper | Shindo7

  /** The scale code the feeds use for each level. */
  function ScaleCode(i: Intensity): real {
    match i
    case Shindo1 => 10.0
    case Shindo2 => 20.0
    case Shindo3 => 30.0
    case Shindo4 => 40.0
    case Shindo5Lower => 45.0
    case Shindo5Upper => 50.0
    case Shindo6Lower => 55.0
    case Shindo6Upper => 60.0
    case Shindo7 => 70.0
  }

  /** Position of a level on the scale, 1 for intensity 1 up to 9 for intensity 7. */
  function Rank(i: Intensity): nat {
    match i
    case Shindo1 => 1
    case Shindo2 => 2
    case Shindo3 => 3
    case Shindo4 => 4
    case Shindo5Lower => 5
    case Shindo5Upper => 6
    case Shindo6Lower => 7
    case Shindo6Upper => 8
    case Shindo7 => 9
  }

  /** The scale codes rise with the level, and the known codes are exactly the levels' codes. */
  lemma ScaleCodesOrdered(i: Intensity, j: Intensity)
    ensures Rank(i) < Rank(j) <==> ScaleCode(i) < ScaleCode(j)
    ensures ScaleCode(i) in KnownScales
    ensures forall s | s in KnownScales :: exists k: Intensity :: ScaleCode(k) == s
  {
    assert ScaleCode(Shindo1) == 10.0 && ScaleCode(Shindo2) == 20.0 && ScaleCode(Shindo3) == 30.0;
    assert ScaleCode(Shindo4) == 40.0 && ScaleCode(Shindo5Lower) == 45.0 && ScaleCode(Shindo5Upper) == 50.0;
    assert ScaleCode(Shindo6Lower) == 55.0 && ScaleCode(Shindo6Upper) == 60.0 && ScaleCode(Shindo7) == 70.0;
  }

  /** No level is drawn grey: the colour switch covers the whole scale. */
  lemma EveryLevelColoured(i: Intensity)
    ensures QuakeScaleColor(ScaleCode(i)) != Grey
  {
    ScaleCodesOrdered(i, i);
  }

  /**
   * Two levels share a colour exactly when they are the two halves of
   * intensity 5 or the two halves of intensity 6.
   */
  lemma SharedColours(i: Intensity, j: Intensity)
    requires i != j
    ensures QuakeScaleColor(ScaleCode(i)) == QuakeScaleColor(ScaleCode(j)) <==>
      {i, j} == {Shindo5Lower, Shindo5Upper} || {i, j} == {Shindo6Lower, Shindo6Upper}
  {
    var ci, cj := QuakeScaleColor(ScaleCode(i)), QuakeScaleColor(ScaleCode(j));
    if ci == cj {
      if i.Shindo5Lower? || i.Shindo5Upper? {
        assert j.Shindo5Lower? || j.Shindo5Upper?;
      } else if i.Shindo6Lower? || i.Shindo6Upper? {
        assert j.Shindo6Lower? || j.Shindo6Upper?;
      }
    }
  }

  /** Levels up to intensity 4 get black text; from intensity 5-lower up, white. */
  lemma TextColourByLevel(i: Intensity)
    ensures QuakeScaleColorText(ScaleCode(i)) == "black" <==> Rank(i) <= 4
    ensures QuakeScaleColorText(ScaleCode(i)) == "white" <==> Rank(i) >= 5
  {
  }

  /** Among the known codes, text is black exactly on the four lightest fills. */
  lemma TextColourByFill(scale: real)
    requires scale in KnownScales
    ensures QuakeScaleColorText(scale) == "black" <==>
      QuakeScaleColor(scale) in {LightBlue, Green, Yellow, Orange}
  {
  }
}
