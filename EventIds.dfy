/**
 * The event-ID extraction that both copies of `GetJMAEvents` perform
 * (server/controller/event.go and internal/jmafeed/event.go). The two copies
 * differ only in the list of report-type tokens that select a feed link, so
 * the algorithm is written once here over a token list and each copy
 * instantiates it with its own list.
 */
module EventIds {
  import opened Wrappers
  import opened GoStrings

  /** One entry of a fetched feed; only its link is used. */
  datatype FeedItem = FeedItem(link: string)

  /** What feed.FetchFeed hands back: the items in feed order, or the fetch error. */
  type FeedResult = Result<seq<FeedItem>, string>

  /** The prefix every event-data link carries, and the base of every event-data URL. */
  const DataBaseUrl: string := "https://www.data.jma.go.jp/developer/xml/data/"
  const XmlSuffix: string := ".xml"

  /** A link names a supported report when it contains one of the tokens. */
  predicate IsEventLink(tokens: seq<string>, link: string) {
    exists t | t in tokens :: Contains(link, t)
  }

  /** The event ID of a link: the data prefix and then the `.xml` suffix trimmed, each only if present. */
  function ExtractId(link: string): string {
    TrimSuffix(TrimPrefix(link, DataBaseUrl), XmlSuffix)
  }

  /** The URL feed.FetchEventData requests for an event ID. */
  function EventDataUrl(baseUrl: string, eventId: string): string {
    baseUrl + eventId + XmlSuffix
  }

  /** The IDs one feed loop appends: one per selected item, in feed order. */
  function ExtractIds(tokens: seq<string>, items: seq<FeedItem>): (ids: seq<string>)
    ensures |ids| <= |items|
  {
    if items == [] then []
    else
      var last := items[|items| - 1];
      ExtractIds(tokens, items[..|items| - 1])
        + (if IsEventLink(tokens, last.link) then [ExtractId(last.link)] else [])
  }

  /** The number of items whose link is selected, counted from the front. */
  function MatchCount(tokens: seq<string>, items: seq<FeedItem>): nat {
    if items == [] then 0
    else (if IsEventLink(tokens, items[0].link) then 1 else 0) + MatchCount(tokens, items[1..])
  }

  /**
   * Both feed loops of `GetJMAEvents` as written. A failed fetch of either feed
   * is returned as the error with no list, the real-time one first. The
   * "already present" scan inside the long-term loop only continues its own
   * loop, so every selected long-term item is appended.
   */
  method CollectEvents(tokens: seq<string>, realtime: FeedResult, longterm: FeedResult)
    returns (r: Result<seq<string>, string>)
    ensures realtime.Err? ==> r == Err(realtime.error)
    ensures realtime.Ok? && longterm.Err? ==> r == Err(longterm.error)
    ensures realtime.Ok? && longterm.Ok? ==>
      r == Ok(ExtractIds(tokens, realtime.value) + ExtractIds(tokens, longterm.value))
  {
    if realtime.Err? {
      return Err(realtime.error);
    }
    if longterm.Err? {
      return Err(longterm.error);
    }
    var rt, lt := realtime.value, longterm.value;
    var events: seq<string> := [];

    for i := 0 to |rt|
      invariant events == ExtractIds(tokens, rt[..i])
    {
      assert rt[..i + 1][..i] == rt[..i];
      if IsEventLink(tokens, rt[i].link) {
        var e := ExtractId(rt[i].link);
        events := events + [e];
      }
    }
    assert rt[..|rt|] == rt;
    ghost var fromRealtime := events;

    for i := 0 to |lt|
      invariant events == fromRealtime + ExtractIds(tokens, lt[..i])
    {
      assert lt[..i + 1][..i] == lt[..i];
      if IsEventLink(tokens, lt[i].link) {
        var e := ExtractId(lt[i].link);
        for j := 0 to |events| {
          if events[j] == e {
            continue;
          }
        }
        events := events + [e];
      }
    }
    assert lt[..|lt|] == lt;
    return Ok(events);
  }

  /** Extraction distributes over concatenation of feeds: order is feed order. */
  lemma {:induction false} ExtractIdsAppend(tokens: seq<string>, a: seq<FeedItem>, b: seq<FeedItem>)
    ensures ExtractIds(tokens, a + b) == ExtractIds(tokens, a) + ExtractIds(tokens, b)
    decreases |b|
  {
    if b == [] {
      assert a + b == a;
    } else {
      assert (a + b)[..|a + b| - 1] == a + b[..|b| - 1];
      ExtractIdsAppend(tokens, a, b[..|b| - 1]);
    }
  }

  /** An ID is extracted exactly when some selected item's link yields it. */
  lemma {:induction false} ExtractIdsMember(tokens: seq<string>, items: seq<FeedItem>, id: string)
    ensures id in ExtractIds(tokens, items) <==>
      exists i | 0 <= i < |items| :: IsEventLink(tokens, items[i].link) && ExtractId(items[i].link) == id
  {
    if items != [] {
      var init := items[..|items| - 1];
      ExtractIdsMember(tokens, init, id);
      if id in ExtractIds(tokens, items) && id !in ExtractIds(tokens, init) {
        assert IsEventLink(tokens, items[|items| - 1].link) && ExtractId(items[|items| - 1].link) == id;
      }
      if exists i | 0 <= i < |items| :: IsEventLink(tokens, items[i].link) && ExtractId(items[i].link) == id {
        var i :| 0 <= i < |items| && IsEventLink(tokens, items[i].link) && ExtractId(items[i].link) == id;
        if i < |items| - 1 {
          assert init[i] == items[i];
        }
      }
    }
  }

  /** One ID per selected item: the list is as long as the count of selected items. */
  lemma {:induction false} ExtractIdsLength(tokens: seq<string>, items: seq<FeedItem>)
    ensures |ExtractIds(tokens, items)| == MatchCount(tokens, items)
  {
    if items != [] {
      assert items == [items[0]] + items[1..];
      ExtractIdsAppend(tokens, [items[0]], items[1..]);
      assert [items[0]][..0] == [];
      ExtractIdsLength(tokens, items[1..]);
    }
  }

  /** Inverse direction: a data link `DataBaseUrl + x + ".xml"` yields `x`, and its URL is the link again. */
  lemma ExtractIdRoundTrip(x: string)
    ensures ExtractId(DataBaseUrl + x + XmlSuffix) == x
    ensures EventDataUrl(DataBaseUrl, ExtractId(DataBaseUrl + x + XmlSuffix)) == DataBaseUrl + x + XmlSuffix
  {
    var link := DataBaseUrl + x + XmlSuffix;
    assert link[..|DataBaseUrl|] == DataBaseUrl;
    var rest := TrimPrefix(link, DataBaseUrl);
    assert DataBaseUrl + rest == link;
    assert rest == x + XmlSuffix by {
      assert link == DataBaseUrl + (x + XmlSuffix);
    }
    assert rest[|rest| - |XmlSuffix|..] == XmlSuffix;
    assert rest[..|rest| - |XmlSuffix|] == x;
  }

  /** Any link that carries the data prefix and then the suffix is rebuilt from its ID. */
  lemma ExtractIdRebuildsLink(link: string)
    requires HasPrefix(link, DataBaseUrl)
    requires HasSuffix(TrimPrefix(link, DataBaseUrl), XmlSuffix)
    ensures EventDataUrl(DataBaseUrl, ExtractId(link)) == link
  {
    var rest := TrimPrefix(link, DataBaseUrl);
    assert ExtractId(link) + XmlSuffix == rest;
    assert DataBaseUrl + rest == link;
  }

  /**
   * A token that can straddle neither the data prefix (its first character is
   * not in it) nor the `.xml` suffix (no shared character).
   */
  predicate SurvivesTrim(t: string) {
    |t| > 0 && t[0] !in DataBaseUrl && CharsDisjoint(t, XmlSuffix)
  }

  /** The report-type tokens all start with `_`, which the data prefix does not contain. */
  lemma UnderscoreNotInDataBaseUrl()
    ensures '_' !in DataBaseUrl
  {
    assert DataBaseUrl == "https://www.data" + ".jma.go.jp/devel" + "oper/xml/data/";
    assert '_' !in "https://www.data";
    assert '_' !in ".jma.go.jp/devel";
    assert '_' !in "oper/xml/data/";
  }

  /** Trimming never removes part of such a token: the ID still contains it. */
  lemma ExtractIdKeepsToken(link: string, t: string)
    requires SurvivesTrim(t)
    requires Contains(link, t)
    ensures Contains(ExtractId(link), t)
  {
    var rest := TrimPrefix(link, DataBaseUrl);
    if HasPrefix(link, DataBaseUrl) {
      ContainsPastPrefix(DataBaseUrl, rest, t);
    }
    if HasSuffix(rest, XmlSuffix) {
      ContainsBeforeSuffix(ExtractId(link), XmlSuffix, t);
    }
  }

  /** With such tokens, every extracted ID is itself selected by the same tokens. */
  lemma ExtractedIdsKeepTokens(tokens: seq<string>, items: seq<FeedItem>)
    requires forall t | t in tokens :: SurvivesTrim(t)
    ensures forall id | id in ExtractIds(tokens, items) :: IsEventLink(tokens, id)
  {
    forall id | id in ExtractIds(tokens, items)
      ensures IsEventLink(tokens, id)
    {
      ExtractIdsMember(tokens, items, id);
      var i :| 0 <= i < |items| && IsEventLink(tokens, items[i].link) && ExtractId(items[i].link) == id;
      var t :| t in tokens && Contains(items[i].link, t);
      ExtractIdKeepsToken(items[i].link, t);
    }
  }

  /**
   * As written, an item selected in both feeds contributes its ID twice: once
   * from the real-time loop and again, later, from the long-term loop.
   */
  lemma DuplicateIdKept(tokens: seq<string>, rt: seq<FeedItem>, lt: seq<FeedItem>, i: nat, j: nat)
    requires i < |rt| && j < |lt| && rt[i] == lt[j]
    requires IsEventLink(tokens, rt[i].link)
    ensures var out := ExtractIds(tokens, rt) + ExtractIds(tokens, lt);
      exists p, q | 0 <= p < q < |out| :: out[p] == out[q] == ExtractId(rt[i].link)
  {
    var id := ExtractId(rt[i].link);
    var a, b := ExtractIds(tokens, rt), ExtractIds(tokens, lt);
    ExtractIdsMember(tokens, rt, id);
    ExtractIdsMember(tokens, lt, id);
    var p :| 0 <= p < |a| && a[p] == id;
    var q :| 0 <= q < |b| && b[q] == id;
    assert (a + b)[p] == id && (a + b)[|a| + q] == id;
  }

  /** No value occurs twice. */
  predicate NoDuplicates(s: seq<string>) {
    forall i, j | 0 <= i < j < |s| :: s[i] != s[j]
  }

  /**
   * `acc` followed by every element of `ids` not already present, in order:
   * the "skip if already present" append the long-term loop was meant to do.
   */
  function AppendNew(acc: seq<string>, ids: seq<string>): seq<string> {
    if ids == [] then acc
    else
      var prev := AppendNew(acc, ids[..|ids| - 1]);
      var x := ids[|ids| - 1];
      if x in prev then prev else prev + [x]
  }

  /**
   * What the corrected append keeps: `acc` unchanged at the front, exactly the
   * values of `acc` and `ids`, nothing after `acc` that was already in it, and
   * no duplicate unless `acc` had one.
   */
  lemma {:induction false} AppendNewSpec(acc: seq<string>, ids: seq<string>)
    ensures var r := AppendNew(acc, ids);
      && |acc| <= |r| && r[..|acc|] == acc
      && (forall x :: x in r <==> x in acc || x in ids)
      && (forall k | |acc| <= k < |r| :: r[k] !in acc)
      && (NoDuplicates(acc) ==> NoDuplicates(r))
  {
    if ids != [] {
      var init, x := ids[..|ids| - 1], ids[|ids| - 1];
      AppendNewSpec(acc, init);
      assert ids == init + [x];
      var prev := AppendNew(acc, init);
      if x !in prev {
        assert (prev + [x])[..|acc|] == prev[..|acc|];
      }
    }
  }

  /** The scan over the collected IDs, reporting whether `e` is among them. */
  method IsPresent(events: seq<string>, e: string) returns (present: bool)
    ensures present <==> e in events
  {
    present := false;
    for j := 0 to |events|
      invariant present <==> e in events[..j]
    {
      assert events[..j + 1] == events[..j] + [events[j]];
      if events[j] == e {
        present := true;
      }
    }
    assert events[..|events|] == events;
  }

  /**
   * The long-term loop with the presence scan made effective: an ID already
   * collected is not appended again. The source scans only in the long-term
   * loop (the real-time loop appends every selected ID), so only that append
   * is corrected: an ID repeated within the real-time feed stays repeated,
   * and the result is free of duplicates when the real-time IDs are.
   */
  method CollectEventsDedup(tokens: seq<string>, realtime: FeedResult, longterm: FeedResult)
    returns (r: Result<seq<string>, string>)
    ensures realtime.Err? ==> r == Err(realtime.error)
    ensures realtime.Ok? && longterm.Err? ==> r == Err(longterm.error)
    ensures realtime.Ok? && longterm.Ok? ==>
      r == Ok(AppendNew(ExtractIds(tokens, realtime.value), ExtractIds(tokens, longterm.value)))
    ensures realtime.Ok? && longterm.Ok? ==>
      forall id :: id in r.value <==> id in ExtractIds(tokens, realtime.value) || id in ExtractIds(tokens, longterm.value)
    ensures realtime.Ok? && longterm.Ok? && NoDuplicates(ExtractIds(tokens, realtime.value)) ==>
      NoDuplicates(r.value)
  {
    if realtime.Err? {
      return Err(realtime.error);
    }
    if longterm.Err? {
      return Err(longterm.error);
    }
    var rt, lt := realtime.value, longterm.value;
    var events: seq<string> := [];

    for i := 0 to |rt|
      invariant events == ExtractIds(tokens, rt[..i])
    {
      assert rt[..i + 1][..i] == rt[..i];
      if IsEventLink(tokens, rt[i].link) {
        var e := ExtractId(rt[i].link);
        events := events + [e];
      }
    }
    assert rt[..|rt|] == rt;
    ghost var fromRealtime := events;

    for i := 0 to |lt|
      invariant events == AppendNew(fromRealtime, ExtractIds(tokens, lt[..i]))
    {
      assert lt[..i + 1][..i] == lt[..i];
      if IsEventLink(tokens, lt[i].link) {
        var e := ExtractId(lt[i].link);
        var present := IsPresent(events, e);
        ghost var ids := ExtractIds(tokens, lt[..i + 1]);
        assert ids == ExtractIds(tokens, lt[..i]) + [e];
        assert ids[..|ids| - 1] == ExtractIds(tokens, lt[..i]) && ids[|ids| - 1] == e;
        assert AppendNew(fromRealtime, ids) == if e in events then events else events + [e];
        if !present {
          events := events + [e];
        }
      } else {
        assert ExtractIds(tokens, lt[..i + 1]) == ExtractIds(tokens, lt[..i]);
      }
    }
    assert lt[..|lt|] == lt;
    AppendNewSpec(fromRealtime, ExtractIds(tokens, lt));
    return Ok(events);
  }
}
