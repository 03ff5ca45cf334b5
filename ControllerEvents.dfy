/**
 * `GetJMAEvents` of server/controller/event.go: the IDs of intensity reports
 * (`_VXSE51_`), intensity-and-hypocentre reports (`_VXSE53_`) and tsunami
 * reports (`_VTSE41`) in the real-time feed and then the long-term feed.
 */
module ControllerEvents {
  import opened Wrappers
  import opened GoStrings
  import opened EventIds

  const Tokens: seq<string> := ["_VXSE51_", "_VXSE53_", "_VTSE41"]

  /** A link is selected iff it contains one of the three tokens. */
  lemma SelectedIff(link: string)
    ensures IsEventLink(Tokens, link) <==>
      Contains(link, "_VXSE51_") || Contains(link, "_VXSE53_") || Contains(link, "_VTSE41")
  {
    if Contains(link, "_VTSE41") {
      assert Tokens[2] in Tokens;
    }
  }

  /** None of the three tokens can be cut by trimming the data prefix or `.xml`. */
  lemma TokensSurviveTrim()
    ensures forall t | t in Tokens :: SurvivesTrim(t)
  {
    UnderscoreNotInDataBaseUrl();
    assert CharsDisjoint("_VXSE51_", XmlSuffix);
    assert CharsDisjoint("_VXSE53_", XmlSuffix);
    assert CharsDisjoint("_VTSE41", XmlSuffix);
  }

  method GetJMAEvents(realtime: FeedResult, longterm: FeedResult) returns (r: Result<seq<string>, string>)
    ensures realtime.Err? ==> r == Err(realtime.error)
    ensures realtime.Ok? && longterm.Err? ==> r == Err(longterm.error)
    ensures realtime.Ok? && longterm.Ok? ==>
      r == Ok(ExtractIds(Tokens, realtime.value) + ExtractIds(Tokens, longterm.value))
    ensures realtime.Ok? && longterm.Ok? ==>
      |r.value| == MatchCount(Tokens, realtime.value) + MatchCount(Tokens, longterm.value)
    ensures r.Ok? ==> forall id | id in r.value ::
      Contains(id, "_VXSE51_") || Contains(id, "_VXSE53_") || Contains(id, "_VTSE41")
  {
    r := CollectEvents(Tokens, realtime, longterm);
    if r.Ok? {
      var rt, lt := realtime.value, longterm.value;
      ExtractIdsLength(Tokens, rt);
      ExtractIdsLength(Tokens, lt);
      TokensSurviveTrim();
      ExtractedIdsKeepTokens(Tokens, rt);
      ExtractedIdsKeepTokens(Tokens, lt);
      forall id | id in r.value
        ensures Contains(id, "_VXSE51_") || Contains(id, "_VXSE53_") || Contains(id, "_VTSE41")
      {
        SelectedIff(id);
      }
    }
  }

  /** An example: a `_VXSE53_` data link yields its file name without `.xml`. */
  lemma ExampleLink()
    ensures var link := DataBaseUrl + "20240101000000_VXSE53_010100" + XmlSuffix;
      IsEventLink(Tokens, link) && ExtractId(link) == "20240101000000_VXSE53_010100"
  {
    var x := "20240101000000_VXSE53_010100";
    var link := DataBaseUrl + x + XmlSuffix;
    ExtractIdRoundTrip(x);
    var pre, tok := DataBaseUrl + "20240101000000", "_VXSE53_";
    assert link == pre + tok + ("010100" + XmlSuffix);
    assert link[|pre|..|pre| + |tok|] == tok;
    assert OccursAt(link, tok, |pre|);
    assert Tokens[1] in Tokens && Contains(link, Tokens[1]);
  }
}
