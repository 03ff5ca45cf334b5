/**
 * The parts of Go's `strings` package and of Go's built-in string comparison
 * that the modelled code relies on, over `string` (= `seq<char>`).
 *
 * Go compares strings byte by byte over their UTF-8 encoding; UTF-8 preserves
 * the order of code points, so the lexicographic order on characters below is
 * the same order.
 */
module GoStrings {

  /** strings.HasPrefix */
  predicate HasPrefix(s: string, prefix: string) {
    |prefix| <= |s| && s[..|prefix|] == prefix
  }

  /** strings.HasSuffix */
  predicate HasSuffix(s: string, suffix: string) {
    |suffix| <= |s| && s[|s| - |suffix|..] == suffix
  }

  /** strings.TrimPrefix: removes one leading `prefix` if present, otherwise returns `s`. */
  function TrimPrefix(s: string, prefix: string): (r: string)
    ensures HasPrefix(s, prefix) ==> prefix + r == s
    ensures !HasPrefix(s, prefix) ==> r == s
  {
    if HasPrefix(s, prefix) then
      assert s == s[..|prefix|] + s[|prefix|..];
      s[|prefix|..]
    else s
  }

  /** strings.TrimSuffix: removes one trailing `suffix` if present, otherwise returns `s`. */
  function TrimSuffix(s: string, suffix: string): (r: string)
    ensures HasSuffix(s, suffix) ==> r + suffix == s
    ensures !HasSuffix(s, suffix) ==> r == s
  {
    if HasSuffix(s, suffix) then
      assert s == s[..|s| - |suffix|] + s[|s| - |suffix|..];
      s[..|s| - |suffix|]
    else s
  }

  /** `t` occurs in `s` starting at index `i`. */
  predicate OccursAt(s: string, t: string, i: int) {
    0 <= i && i + |t| <= |s| && s[i..i + |t|] == t
  }

  /** strings.Contains */
  predicate Contains(s: string, t: string) {
    exists i | 0 <= i <= |s| - |t| :: OccursAt(s, t, i)
  }

  /** No character of `t` appears in `u`. */
  predicate CharsDisjoint(t: string, u: string) {
    forall k | 0 <= k < |t| :: t[k] !in u
  }

  /**
   * An occurrence of `t` in `p + s` cannot start inside `p` when the first
   * character of `t` never appears in `p`, so it lies wholly in `s`.
   */
  lemma ContainsPastPrefix(p: string, s: string, t: string)
    requires |t| > 0 && t[0] !in p
    requires Contains(p + s, t)
    ensures Contains(s, t)
  {
    var i :| 0 <= i <= |p + s| - |t| && OccursAt(p + s, t, i);
    assert s[i - |p|..i - |p| + |t|] == (p + s)[i..i + |t|];
    assert OccursAt(s, t, i - |p|);
  }

  /**
   * An occurrence of `t` in `s + x` cannot reach into `x` when `t` and `x`
   * share no character, so it lies wholly in `s`.
   */
  lemma ContainsBeforeSuffix(s: string, x: string, t: string)
    requires CharsDisjoint(t, x)
    requires Contains(s + x, t)
    ensures Contains(s, t)
  {
    if |t| == 0 {
      assert OccursAt(s, t, 0);
      return;
    }
    var i :| 0 <= i <= |s + x| - |t| && OccursAt(s + x, t, i);
    if i + |t| > |s| {
      OccurrenceCharInSuffix(s, x, t, i, if i >= |s| then 0 else |s| - i);
      assert false;
    }
    assert s[i..i + |t|] == (s + x)[i..i + |t|];
    assert OccursAt(s, t, i);
  }

  /** A character of an occurrence of `t` that lies past `s` comes from `x`. */
  lemma OccurrenceCharInSuffix(s: string, x: string, t: string, i: int, k: int)
    requires OccursAt(s + x, t, i)
    requires 0 <= k < |t| && i + k >= |s|
    ensures t[k] in x
  {
    assert t[k] == (s + x)[i + k] == x[i + k - |s|];
  }

  /** Go's `<` on strings: lexicographic order, a proper prefix sorting first. */
  predicate Less(a: string, b: string) {
    if |a| == 0 then |b| > 0
    else if |b| == 0 then false
    else a[0] < b[0] || (a[0] == b[0] && Less(a[1..], b[1..]))
  }

  /** Go's `<=` on strings. */
  predicate LessEq(a: string, b: string) {
    a == b || Less(a, b)
  }

  lemma {:induction false} LessIrreflexive(a: string)
    ensures !Less(a, a)
  {
    if |a| > 0 {
      LessIrreflexive(a[1..]);
    }
  }

  lemma {:induction false} LessTransitive(a: string, b: string, c: string)
    requires Less(a, b) && Less(b, c)
    ensures Less(a, c)
  {
    if |a| > 0 && a[0] == b[0] && b[0] == c[0] {
      LessTransitive(a[1..], b[1..], c[1..]);
    }
  }

  lemma {:induction false} LessTotal(a: string, b: string)
    ensures a == b || Less(a, b) || Less(b, a)
  {
    if |a| > 0 && |b| > 0 && a[0] == b[0] {
      LessTotal(a[1..], b[1..]);
      if a[1..] == b[1..] {
        assert a == [a[0]] + a[1..] && b == [b[0]] + b[1..];
      }
    }
  }

  lemma LessAsymmetric(a: string, b: string)
    requires Less(a, b)
    ensures !Less(b, a)
  {
    if Less(b, a) {
      LessTransitive(a, b, a);
      LessIrreflexive(a);
    }
  }

  /** Go's `!(a < b)` is `b <= a`. */
  lemma NotLessIsLessEq(a: string, b: string)
    ensures !Less(a, b) <==> LessEq(b, a)
  {
    LessTotal(a, b);
    if Less(b, a) {
      LessAsymmetric(b, a);
    }
    if a == b {
      LessIrreflexive(a);
    }
  }
}
