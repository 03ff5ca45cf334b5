/**
 * `GetEventDetailsJson` of server/controller/detail.go: fetch and decode one
 * event's XML report, pick a converter from the event ID, validate the
 * conversion, and serve it as JSON unless the findings policy blocks it.
 *
 * The HTTP fetch, the XML decoder, the converters, the validators and the JSON
 * encoder are not part of this model; they are given as the functions of a
 * `Collaborators` value. `log.Fatalf`, which ends the process, is the distinct
 * outcome `Aborted`.
 */
module Detail {
  import opened Wrappers
  import opened GoStrings
  import opened EventIds

  type Bytes = seq<bv8>

  /** The fixture source used instead of the data source in debug mode. */
  const DebugBaseUrl: string := "https://raw.githubusercontent.com/nexryai/quake/main/test/examples/"

  const TsunamiToken: string := "_VTSE41"
  const EarlyWarningToken: string := "_VXSE43"

  function BaseUrl(isDebug: bool): string {
    if isDebug then DebugBaseUrl else DataBaseUrl
  }

  /** The three conversion paths; exactly one is taken per event ID. */
  datatype ReportKind = Tsunami | EarlyWarning | Quake

  /** The substring dispatch: the tsunami token is tested first, quake is the default. */
  function Classify(eventId: string): ReportKind {
    if Contains(eventId, TsunamiToken) then Tsunami
    else if Contains(eventId, EarlyWarningToken) then EarlyWarning
    else Quake
  }

  /**
   * One element of the `[]error` a validator returns: a
   * converter.ValidationError, a converter.ValidationWarning, an error that
   * wraps another (`fmt.Errorf` with `%w`), or any other error.
   */
  datatype Finding =
    | ValidationError(message: string)
    | ValidationWarning(message: string)
    | Wrapped(context: string, inner: Finding)
    | OtherError(message: string)

  /**
   * How a loop recognises a kind of finding: by the element's own type (the
   * type assertion of the tsunami loops), or anywhere along its wrap chain
   * (`errors.As` in the quake loops).
   */
  datatype Match = Exact | Unwrapping

  predicate IsError(f: Finding, m: Match) {
    match f
    case ValidationError(_) => true
    case Wrapped(_, inner) => m == Unwrapping && IsError(inner, m)
    case _ => false
  }

  predicate IsWarning(f: Finding, m: Match) {
    match f
    case ValidationWarning(_) => true
    case Wrapped(_, inner) => m == Unwrapping && IsWarning(inner, m)
    case _ => false
  }

  predicate HasError(fs: seq<Finding>, m: Match) {
    exists i | 0 <= i < |fs| :: IsError(fs[i], m)
  }

  predicate HasWarning(fs: seq<Finding>, m: Match) {
    exists i | 0 <= i < |fs| :: IsWarning(fs[i], m)
  }

  /** The two policy switches, fixed to `false` in the source and passed per call here. */
  datatype Policy = Policy(force: bool, ignoreWarning: bool)

  const SourcePolicy: Policy := Policy(false, false)

  /** What the two loops over the findings decide. */
  datatype Verdict = Accept | RejectErrors | RejectWarnings

  /**
   * Errors block unless forced; then warnings block unless forced or ignored.
   * Other errors never block.
   */
  function PolicyVerdict(fs: seq<Finding>, p: Policy, m: Match): Verdict {
    if HasError(fs, m) && !p.force then RejectErrors
    else if HasWarning(fs, m) && !p.force && !p.ignoreWarning then RejectWarnings
    else Accept
  }

  /** The two `for` loops over the findings, each leaving at the first blocking finding. */
  method CheckFindings(fs: seq<Finding>, p: Policy, m: Match) returns (v: Verdict)
    ensures v == PolicyVerdict(fs, p, m)
  {
    for i := 0 to |fs|
      invariant p.force || forall k | 0 <= k < i :: !IsError(fs[k], m)
    {
      if IsError(fs[i], m) && !p.force {
        return RejectErrors;
      }
    }
    for i := 0 to |fs|
      invariant p.force || p.ignoreWarning || forall k | 0 <= k < i :: !IsWarning(fs[k], m)
    {
      if IsWarning(fs[i], m) && !p.force && !p.ignoreWarning {
        return RejectWarnings;
      }
    }
    return Accept;
  }

  /** The type assertion sees only the element itself; `errors.As` sees at least as much. */
  lemma ExactSeesLess(f: Finding)
    ensures IsError(f, Exact) <==> f.ValidationError?
    ensures IsWarning(f, Exact) <==> f.ValidationWarning?
    ensures IsError(f, Exact) ==> IsError(f, Unwrapping)
    ensures IsWarning(f, Exact) ==> IsWarning(f, Unwrapping)
  {
  }

  /**
   * A wrapped validation error is passed by the tsunami loops and blocks the
   * quake loops; an unrelated error blocks neither.
   */
  lemma WrappedErrorBlocksOnlyQuake(context: string, message: string)
    ensures var fs := [Wrapped(context, ValidationError(message)), OtherError(message)];
      PolicyVerdict(fs, SourcePolicy, Exact) == Accept &&
      PolicyVerdict(fs, SourcePolicy, Unwrapping) == RejectErrors
  {
    var fs := [Wrapped(context, ValidationError(message)), OtherError(message)];
    assert IsError(fs[0], Unwrapping);
  }

  /** `force` makes every list of findings acceptable. */
  lemma ForceNeverBlocks(fs: seq<Finding>, p: Policy, m: Match)
    requires p.force
    ensures PolicyVerdict(fs, p, m) == Accept
  {
  }

  /**
   * Without `force`, `ignoreWarning` lets warnings through but still blocks on
   * every error.
   */
  lemma IgnoreWarningBlocksOnlyErrors(fs: seq<Finding>, p: Policy, m: Match)
    requires !p.force && p.ignoreWarning
    ensures PolicyVerdict(fs, p, m) == Accept <==> !HasError(fs, m)
    ensures PolicyVerdict(fs, p, m) != RejectWarnings
  {
  }

  /**
   * With the source's switches, a list is accepted exactly when the loops
   * recognise no finding in it as an error or a warning; in particular the
   * empty list is accepted and a bare validation error or warning is not.
   */
  lemma SourcePolicyAcceptsOnlyUnflagged(fs: seq<Finding>, m: Match)
    ensures PolicyVerdict(fs, SourcePolicy, m) == Accept <==>
      forall i | 0 <= i < |fs| :: !IsError(fs[i], m) && !IsWarning(fs[i], m)
    ensures (exists i | 0 <= i < |fs| :: fs[i].ValidationError? || fs[i].ValidationWarning?) ==>
      PolicyVerdict(fs, SourcePolicy, m) != Accept
  {
    if exists i | 0 <= i < |fs| :: fs[i].ValidationError? || fs[i].ValidationWarning? {
      var i :| 0 <= i < |fs| && (fs[i].ValidationError? || fs[i].ValidationWarning?);
      assert IsError(fs[i], m) || IsWarning(fs[i], m);
    }
  }

  /** Why a request fails with a returned error. */
  datatype DetailError =
    | FetchFailed(reason: string)
    | DecodeFailed(reason: string)
    | ConvertFailed(reason: string)
    | MarshalFailed(reason: string)
    | Invalid(eventId: string, findings: seq<Finding>)

  /** Why a request ends the process (`log.Fatalf`). */
  datatype Abort =
    | ConvertAbort(eventId: string, reason: string)
    | ErrorsAbort(eventId: string, findings: seq<Finding>)
    | WarningsAbort(eventId: string, findings: seq<Finding>)
    | MarshalAbort(eventId: string, reason: string)

  datatype Outcome = Served(json: string) | Failed(error: DetailError) | Aborted(abort: Abort)

  /**
   * The collaborators, over the decoded report type `R` and the converted
   * tsunami, early-warning and quake record types `T`, `W` and `Q`.
   */
  datatype Collaborators<!R, !T, !W, !Q> = Collaborators(
    fetch: string -> Result<Bytes, string>,
    decode: Bytes -> Result<R, string>,
    vtse2Epsp: R -> Result<T, string>,
    validateTsunami: (string, R, T) -> seq<Finding>,
    marshalTsunami: T -> Result<string, string>,
    vxse2EpspEEW: R -> Result<W, string>,
    marshalEEW: W -> Result<string, string>,
    vxse2EpspQuake: R -> Result<Q, string>,
    validateQuake: (string, R, Q) -> seq<Finding>,
    marshalQuake: Q -> Result<string, string>)

  /** Steps before the dispatch: fetch the report's URL, then decode the bytes. */
  function FetchReport<R, T, W, Q>(eventId: string, isDebug: bool, c: Collaborators<R, T, W, Q>): Result<R, DetailError> {
    match c.fetch(EventDataUrl(BaseUrl(isDebug), eventId))
    case Err(e) => Err(FetchFailed(e))
    case Ok(data) =>
      match c.decode(data)
      case Err(e) => Err(DecodeFailed(e))
      case Ok(report) => Ok(report)
  }

  /** Tsunami path: every failure aborts the process. */
  function TsunamiDetails<R, T, W, Q>(eventId: string, report: R, p: Policy, c: Collaborators<R, T, W, Q>): Outcome {
    match c.vtse2Epsp(report)
    case Err(e) => Aborted(ConvertAbort(eventId, e))
    case Ok(t) =>
      var fs := c.validateTsunami(eventId, report, t);
      match PolicyVerdict(fs, p, Exact)
      case RejectErrors => Aborted(ErrorsAbort(eventId, fs))
      case RejectWarnings => Aborted(WarningsAbort(eventId, fs))
      case Accept =>
        match c.marshalTsunami(t)
        case Err(e) => Aborted(MarshalAbort(eventId, e))
        case Ok(json) => Served(json)
  }

  /** Early-warning path: no validation; failures are returned. */
  function EarlyWarningDetails<R, T, W, Q>(report: R, c: Collaborators<R, T, W, Q>): Outcome {
    match c.vxse2EpspEEW(report)
    case Err(e) => Failed(ConvertFailed(e))
    case Ok(w) =>
      match c.marshalEEW(w)
      case Err(e) => Failed(MarshalFailed(e))
      case Ok(json) => Served(json)
  }

  /** Quake path: conversion and policy failures are returned, a JSON failure aborts. */
  function QuakeDetails<R, T, W, Q>(eventId: string, report: R, p: Policy, c: Collaborators<R, T, W, Q>): Outcome {
    match c.vxse2EpspQuake(report)
    case Err(e) => Failed(ConvertFailed(e))
    case Ok(q) =>
      var fs := c.validateQuake(eventId, report, q);
      if PolicyVerdict(fs, p, Unwrapping) != Accept then Failed(Invalid(eventId, fs))
      else
        match c.marshalQuake(q)
        case Err(e) => Aborted(MarshalAbort(eventId, e))
        case Ok(json) => Served(json)
  }

  /** The whole request, as a function of its inputs. */
  function EventDetails<R, T, W, Q>(eventId: string, isDebug: bool, p: Policy, c: Collaborators<R, T, W, Q>): Outcome {
    match FetchReport(eventId, isDebug, c)
    case Err(e) => Failed(e)
    case Ok(report) =>
      match Classify(eventId)
      case Tsunami => TsunamiDetails(eventId, report, p, c)
      case EarlyWarning => EarlyWarningDetails(report, c)
      case Quake => QuakeDetails(eventId, report, p, c)
  }

  /** `GetEventDetailsJson` with the policy switches as a parameter. */
  method GetEventDetailsJson<R, T, W, Q>(eventId: string, isDebug: bool, p: Policy, c: Collaborators<R, T, W, Q>)
    returns (o: Outcome)
    ensures o == EventDetails(eventId, isDebug, p, c)
  {
    var baseUrl := DataBaseUrl;
    if isDebug {
      baseUrl := DebugBaseUrl;
    }
    var fetched := c.fetch(EventDataUrl(baseUrl, eventId));
    if fetched.Err? {
      return Failed(FetchFailed(fetched.error));
    }
    var decoded := c.decode(fetched.value);
    if decoded.Err? {
      return Failed(DecodeFailed(decoded.error));
    }
    var report := decoded.value;

    if Contains(eventId, TsunamiToken) {
      var converted := c.vtse2Epsp(report);
      if converted.Err? {
        return Aborted(ConvertAbort(eventId, converted.error));
      }
      var fs := c.validateTsunami(eventId, report, converted.value);
      var verdict := CheckFindings(fs, p, Exact);
      if verdict == RejectErrors {
        return Aborted(ErrorsAbort(eventId, fs));
      } else if verdict == RejectWarnings {
        return Aborted(WarningsAbort(eventId, fs));
      }
      var json := c.marshalTsunami(converted.value);
      if json.Err? {
        return Aborted(MarshalAbort(eventId, json.error));
      }
      return Served(json.value);
    } else if Contains(eventId, EarlyWarningToken) {
      var converted := c.vxse2EpspEEW(report);
      if converted.Err? {
        return Failed(ConvertFailed(converted.error));
      }
      var json := c.marshalEEW(converted.value);
      if json.Err? {
        return Failed(MarshalFailed(json.error));
      }
      return Served(json.value);
    } else {
      var converted := c.vxse2EpspQuake(report);
      if converted.Err? {
        return Failed(ConvertFailed(converted.error));
      }
      var fs := c.validateQuake(eventId, report, converted.value);
      var verdict := CheckFindings(fs, p, Unwrapping);
      if verdict != Accept {
        return Failed(Invalid(eventId, fs));
      }
      var json := c.marshalQuake(converted.value);
      if json.Err? {
        return Aborted(MarshalAbort(eventId, json.error));
      }
      return Served(json.value);
    }
  }

  /**
   * The only URL requested is the base URL (the fixture source in debug mode,
   * the data source otherwise) followed by the ID and `.xml`: collaborators that
   * agree there give the same outcome.
   */
  lemma OnlyReportUrlFetched<R, T, W, Q>(eventId: string, isDebug: bool, p: Policy,
                                          c: Collaborators<R, T, W, Q>, f: string -> Result<Bytes, string>)
    requires var url := (if isDebug then DebugBaseUrl else DataBaseUrl) + eventId + XmlSuffix;
      f(url) == c.fetch(url)
    ensures EventDetails(eventId, isDebug, p, c.(fetch := f)) == EventDetails(eventId, isDebug, p, c)
  {
    assert EventDataUrl(BaseUrl(isDebug), eventId) == (if isDebug then DebugBaseUrl else DataBaseUrl) + eventId + XmlSuffix;
  }

  /** Outside debug mode, the ID taken from a feed link is fetched from exactly that link. */
  lemma FeedLinkFetchedAsIs(x: string)
    ensures var link := DataBaseUrl + x + XmlSuffix;
      EventDataUrl(BaseUrl(false), ExtractId(link)) == link
  {
    ExtractIdRoundTrip(x);
  }

  /** A fetch or decode failure is returned before any conversion path runs. */
  lemma EarlyFailuresReturned<R, T, W, Q>(eventId: string, isDebug: bool, p: Policy, c: Collaborators<R, T, W, Q>)
    ensures var url := EventDataUrl(BaseUrl(isDebug), eventId);
      && (c.fetch(url).Err? ==> EventDetails(eventId, isDebug, p, c) == Failed(FetchFailed(c.fetch(url).error)))
      && (c.fetch(url).Ok? && c.decode(c.fetch(url).value).Err? ==>
            EventDetails(eventId, isDebug, p, c) == Failed(DecodeFailed(c.decode(c.fetch(url).value).error)))
  {
  }

  /**
   * An ID with the tsunami token takes the tsunami path whatever else it
   * contains: the early-warning and quake collaborators are never consulted,
   * and after a successful decode the request is served or aborts, never
   * returns an error.
   */
  lemma TsunamiTokenWins<R, T, W, Q>(eventId: string, isDebug: bool, p: Policy,
                                      c: Collaborators<R, T, W, Q>, d: Collaborators<R, T, W, Q>)
    requires Contains(eventId, TsunamiToken)
    requires d.fetch == c.fetch && d.decode == c.decode
    requires d.vtse2Epsp == c.vtse2Epsp && d.validateTsunami == c.validateTsunami
    requires d.marshalTsunami == c.marshalTsunami
    ensures EventDetails(eventId, isDebug, p, d) == EventDetails(eventId, isDebug, p, c)
    ensures FetchReport(eventId, isDebug, c).Ok? ==> !EventDetails(eventId, isDebug, p, c).Failed?
  {
  }

  /**
   * An ID with the early-warning token and no tsunami token is converted
   * without validation: neither the validators nor the policy matter, and it
   * never aborts.
   */
  lemma EarlyWarningUnvalidated<R, T, W, Q>(eventId: string, isDebug: bool, p: Policy, p': Policy,
                                             c: Collaborators<R, T, W, Q>, d: Collaborators<R, T, W, Q>)
    requires !Contains(eventId, TsunamiToken) && Contains(eventId, EarlyWarningToken)
    requires d == c.(validateTsunami := d.validateTsunami, validateQuake := d.validateQuake)
    ensures EventDetails(eventId, isDebug, p', d) == EventDetails(eventId, isDebug, p, c)
    ensures !EventDetails(eventId, isDebug, p, c).Aborted?
  {
  }

  /**
   * Every other ID takes the quake path. Once its conversion succeeds, the
   * findings decide: blocked findings are returned as an error with no JSON,
   * and with `force` the findings never block.
   */
  lemma QuakeFindingsPolicy<R, T, W, Q>(eventId: string, isDebug: bool, p: Policy,
                                         c: Collaborators<R, T, W, Q>, report: R, q: Q)
    requires !Contains(eventId, TsunamiToken) && !Contains(eventId, EarlyWarningToken)
    requires FetchReport(eventId, isDebug, c) == Ok(report)
    requires c.vxse2EpspQuake(report) == Ok(q)
    ensures var fs, o := c.validateQuake(eventId, report, q), EventDetails(eventId, isDebug, p, c);
      && (HasError(fs, Unwrapping) && !p.force ==> o == Failed(Invalid(eventId, fs)))
      && (HasWarning(fs, Unwrapping) && !p.force && !p.ignoreWarning ==> o == Failed(Invalid(eventId, fs)))
      && (p.force ==> !o.Failed?)
      && (o.Served? ==> c.marshalQuake(q) == Ok(o.json))
  {
  }

  /**
   * On the tsunami path the same policy applies, but a blocked request, a
   * failed conversion or a failed JSON encoding ends the process.
   */
  lemma TsunamiFindingsPolicy<R, T, W, Q>(eventId: string, isDebug: bool, p: Policy,
                                           c: Collaborators<R, T, W, Q>, report: R)
    requires Contains(eventId, TsunamiToken)
    requires FetchReport(eventId, isDebug, c) == Ok(report)
    ensures var o := EventDetails(eventId, isDebug, p, c);
      && (c.vtse2Epsp(report).Err? ==> o == Aborted(ConvertAbort(eventId, c.vtse2Epsp(report).error)))
      && (c.vtse2Epsp(report).Ok? ==>
            var fs := c.validateTsunami(eventId, report, c.vtse2Epsp(report).value);
            && (HasError(fs, Exact) && !p.force ==> o == Aborted(ErrorsAbort(eventId, fs)))
            && (!HasError(fs, Exact) && HasWarning(fs, Exact) && !p.force && !p.ignoreWarning ==>
                  o == Aborted(WarningsAbort(eventId, fs)))
            && (p.force ==> o.Served? || o.abort.MarshalAbort?))
  {
  }

  /**
   * With the source's switches, a tsunami record is served only when no
   * finding is itself a validation error or warning, and a quake record only
   * when none is one or wraps one.
   */
  lemma SourcePolicyServesOnlyClean<R, T, W, Q>(eventId: string, isDebug: bool, c: Collaborators<R, T, W, Q>, report: R)
    requires FetchReport(eventId, isDebug, c) == Ok(report)
    requires EventDetails(eventId, isDebug, SourcePolicy, c).Served?
    ensures Classify(eventId) == Tsunami ==>
      var fs := c.validateTsunami(eventId, report, c.vtse2Epsp(report).value);
      forall i | 0 <= i < |fs| :: !fs[i].ValidationError? && !fs[i].ValidationWarning?
    ensures Classify(eventId) == Quake ==>
      var fs := c.validateQuake(eventId, report, c.vxse2EpspQuake(report).value);
      forall i | 0 <= i < |fs| :: !IsError(fs[i], Unwrapping) && !IsWarning(fs[i], Unwrapping)
  {
    if Classify(eventId) == Tsunami {
      var fs := c.validateTsunami(eventId, report, c.vtse2Epsp(report).value);
      SourcePolicyAcceptsOnlyUnflagged(fs, Exact);
    } else if Classify(eventId) == Quake {
      SourcePolicyAcceptsOnlyUnflagged(c.validateQuake(eventId, report, c.vxse2EpspQuake(report).value), Unwrapping);
    }
  }
}
