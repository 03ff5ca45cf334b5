/**
 * `GetJMAEvents` of internal/jmafeed/event.go: the same two feed loops as the
 * controller copy, but only intensity reports (`_VXSE51_`) and
 * intensity-and-hypocentre reports (`_VXSE53_`) are selected.
 */
module JmaFeedEvents {
  import opened Wrappers
  import opened GoStrings
  import opened EventIds
  import ControllerEvents

  const Tokens: seq<string> := ["_VXSE51_", "_VXSE53_"]

  /** A link is selected iff it contains `_VXSE51_` or `_VXSE53_`. */
  lemma SelectedIff(link: string)
    ensures IsEventLink(Tokens, link) <==> Contains(link, "_VXSE51_") || Contains(link, "_VXSE53_")
  {
    if Contains(link, "_VXSE53_") {
      assert Tokens[1] in Tokens;
    }
  }

  lemma TokensSurviveTrim()
    ensures forall t | t in Tokens :: SurvivesTrim(t)
  {
    UnderscoreNotInDataBaseUrl();
    assert CharsDisjoint("_VXSE51_", XmlSuffix);
    assert CharsDisjoint("_VXSE53_", XmlSuffix);
  }

  method GetJMAEvents(realtime: FeedResult, longterm: FeedResult) returns (r: Result<seq<string>, string>)
    ensures realtime.Err? ==> r == Err(realtime.error)
    ensures realtime.Ok? && longterm.Err? ==> r == Err(longterm.error)
    ensures realtime.Ok? && longterm.Ok? ==>
      r == Ok(ExtractIds(Tokens, realtime.value) + ExtractIds(Tokens, longterm.value))
    ensures realtime.Ok? && longterm.Ok? ==>
      |r.value| == MatchCount(Tokens, realtime.value) + MatchCount(Tokens, longterm.value)
    ensures r.Ok? ==> forall id | id in r.value :: Contains(id, "_VXSE51_") || Contains(id, "_VXSE53_")
  {
    r := CollectEvents(Tokens, realtime, longterm);
    if r.Ok? {
      var rt, lt := realtime.value, longterm.value;
      ExtractIdsLength(Tokens, rt);
      ExtractIdsLength(Tokens, lt);
      TokensSurviveTrim();
      ExtractedIdsKeepTokens(Tokens, rt);
      ExtractedIdsKeepTokens(Tokens, lt);
      forall id | id in r.value
        ensures Contains(id, "_VXSE51_") || Contains(id, "_VXSE53_")
      {
        SelectedIff(id);
      }
    }
  }

  /**
   * A tsunami link without an intensity token contributes nothing here, while
   * the controller copy keeps it.
   */
  lemma TsunamiOnlyLinkDropped(item: FeedItem)
    requires Contains(item.link, "_VTSE41")
    requires !Contains(item.link, "_VXSE51_") && !Contains(item.link, "_VXSE53_")
    ensures ExtractIds(Tokens, [item]) == []
    ensures ExtractIds(ControllerEvents.Tokens, [item]) == [ExtractId(item.link)]
  {
    SelectedIff(item.link);
    ControllerEvents.SelectedIff(item.link);
    assert [item][..0] == [];
  }
}
