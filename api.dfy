/**
 * The data-access layer (src/lib/api.js): what `searchLaunches` and
 * `getLaunch` do with the decoded response once `queryApi` has answered.
 *
 * `queryApi` itself (fetch, status check, JSON decoding, the warning it logs)
 * is not modelled; its answer is a parameter of type `Option<...>`, where
 * `None` stands for `null` (every failure) and for any other falsy JSON value.
 */
module Api {
  import opened Wrappers

  /** API_MAX_RESULTS: the client-side cap on search results. */
  const MaxResults: nat := 50

  /** A JavaScript string is truthy when it is present and not empty. */
  predicate Truthy(v: Option<string>)
  {
    v.Some? && v.value != ""
  }

  /** The `status` object of a launch as the API sends it. */
  datatype LaunchStatus = LaunchStatus(name: Option<string>, description: Option<string>)

  /** One raw entry of the list-mode search response. */
  datatype RawLaunch = RawLaunch(
    id: Option<string>,
    name: Option<string>,
    status: Option<LaunchStatus>,
    mission: Option<string>)

  /** The decoded (truthy) search response; `results` may be missing. */
  datatype SearchPayload = SearchPayload(results: Option<seq<RawLaunch>>)

  /**
   * The `status` field of a search result: `result.status.name ?? []`
   * yields the status name, or an empty ARRAY when the name is missing.
   */
  datatype StatusText = Named(name: string) | EmptyArray

  /** A normalised search result. */
  datatype LaunchSummary = LaunchSummary(id: string, name: string, status: StatusText, mission: string)

  /** The entry survives `if (!result.id) return null` and `.filter(Boolean)`. */
  predicate HasId(e: RawLaunch)
  {
    Truthy(e.id)
  }

  /**
   * `result.status.name` throws when an entry that reaches it has no
   * `status` object; callers must not send such an entry.
   */
  predicate Readable(e: RawLaunch)
  {
    HasId(e) ==> e.status.Some?
  }

  predicate StatusPresent(entries: seq<RawLaunch>)
  {
    forall i :: 0 <= i < |entries| ==> Readable(entries[i])
  }

  /** The first `MaxResults` entries: `.slice(0, API_MAX_RESULTS)`. */
  function FirstPage(entries: seq<RawLaunch>): (r: seq<RawLaunch>)
    ensures |r| <= MaxResults
    ensures |r| == if |entries| < MaxResults then |entries| else MaxResults
    ensures forall i :: 0 <= i < |r| ==> r[i] == entries[i]
  {
    if |entries| <= MaxResults then entries else entries[..MaxResults]
  }

  /** What `searchLaunches` demands of a successful response. */
  predicate SearchWellFormed(outcome: Option<SearchPayload>)
  {
    outcome.Some? && outcome.value.results.Some? ==>
      StatusPresent(FirstPage(outcome.value.results.value))
  }

  /** The object literal of the `.map` callback, for an entry with an id. */
  function ToSummary(e: RawLaunch): (s: LaunchSummary)
    requires HasId(e) && e.status.Some?
    ensures s.id == e.id.value && s.id != ""
    ensures s.name == (if e.name.Some? then e.name.value else "")
    ensures s.mission == (if e.mission.Some? then e.mission.value else "")
    ensures s.status == (if e.status.value.name.Some? then Named(e.status.value.name.value) else EmptyArray)
  {
    LaunchSummary(
      e.id.value,
      e.name.GetOr(""),
      match e.status.value.name
      case Some(n) => Named(n)
      case None => EmptyArray,
      e.mission.GetOr(""))
  }

  /** `.map(...)` followed by `.filter(Boolean)`: entries without an id are dropped. */
  function Normalize(entries: seq<RawLaunch>): (r: seq<LaunchSummary>)
    requires StatusPresent(entries)
    ensures |r| <= |entries|
    ensures forall k :: 0 <= k < |r| ==> r[k].id != ""
  {
    if entries == [] then []
    else
      var rest := Normalize(entries[1..]);
      if HasId(entries[0]) then [ToSummary(entries[0])] + rest else rest
  }

  /**
   * `searchLaunches` after the network call: a falsy answer gives `null`;
   * otherwise `(results ?? []).slice(0, 50).map(...).filter(Boolean)`.
   */
  function SearchLaunches(outcome: Option<SearchPayload>): (r: Option<seq<LaunchSummary>>)
    requires SearchWellFormed(outcome)
    ensures r.None? <==> outcome.None?
    ensures r.Some? ==> |r.value| <= MaxResults
    ensures r.Some? ==> forall k :: 0 <= k < |r.value| ==> r.value[k].id != ""
    ensures outcome.Some? && outcome.value.results.None? ==> r == Some([])
  {
    match outcome
    case None => None
    case Some(payload) =>
      Some(Normalize(FirstPage(payload.results.GetOr([]))))
  }

  /** The decoded (truthy) single-launch response; `otherFields` are the fields `getLaunch` drops. */
  datatype LaunchPayload = LaunchPayload(
    name: Option<string>,
    status: Option<LaunchStatus>,
    windowStart: Option<string>,
    windowEnd: Option<string>,
    mission: Option<Mission>,
    image: Option<string>,
    otherFields: map<string, string>)

  /** The `mission` object of a launch. */
  datatype Mission = Mission(name: Option<string>, description: Option<string>)

  /** The six-field object `getLaunch` returns. */
  datatype LaunchDetail = LaunchDetail(
    name: Option<string>,
    status: Option<LaunchStatus>,
    windowStart: Option<string>,
    windowEnd: Option<string>,
    mission: Option<Mission>,
    image: Option<string>)

  /** `getLaunch` after the network call: `null` on a falsy answer, else the six fields copied. */
  function GetLaunch(outcome: Option<LaunchPayload>): (r: Option<LaunchDetail>)
    ensures r.None? <==> outcome.None?
    ensures r.Some? ==>
      var p, d := outcome.value, r.value;
      d.name == p.name && d.status == p.status &&
      d.windowStart == p.windowStart && d.windowEnd == p.windowEnd &&
      d.mission == p.mission && d.image == p.image
  {
    match outcome
    case None => None
    case Some(p) => Some(LaunchDetail(p.name, p.status, p.windowStart, p.windowEnd, p.mission, p.image))
  }

  /** A sequence is what precedes position `i`, its element there, and what follows. */
  lemma SplitAt<T>(s: seq<T>, i: int)
    requires 0 <= i < |s|
    ensures s == s[..i] + ([s[i]] + s[i + 1..])
  {
  }

  /** Entries that pass `StatusPresent` still pass it after splitting. */
  lemma StatusPresentSplit(a: seq<RawLaunch>, b: seq<RawLaunch>)
    requires StatusPresent(a + b)
    ensures StatusPresent(a) && StatusPresent(b)
  {
    forall i | 0 <= i < |b| ensures Readable(b[i]) {
      assert b[i] == (a + b)[|a| + i];
    }
    forall i | 0 <= i < |a| ensures Readable(a[i]) {
      assert a[i] == (a + b)[i];
    }
  }

  /**
   * Normalisation works entry by entry: normalising a concatenation is
   * concatenating the normalised parts, so the output keeps source order.
   */
  lemma {:induction false} NormalizeAppend(a: seq<RawLaunch>, b: seq<RawLaunch>)
    requires StatusPresent(a + b)
    ensures StatusPresent(a) && StatusPresent(b)
    ensures Normalize(a + b) == Normalize(a) + Normalize(b)
  {
    StatusPresentSplit(a, b);
    if a != [] {
      var t := a[1..];
      assert (a + b)[0] == a[0] && (a + b)[1..] == t + b;
      StatusPresentSplit([a[0]], t + b);
      NormalizeAppend(t, b);
      var head := if HasId(a[0]) then [ToSummary(a[0])] else [];
      calc {
        Normalize(a + b);
        head + Normalize(t + b);
        head + (Normalize(t) + Normalize(b));
        (head + Normalize(t)) + Normalize(b);
        Normalize(a) + Normalize(b);
      }
    } else {
      assert a + b == b;
    }
  }

  /** The summary an entry contributes: one if it has an id, none otherwise. */
  lemma NormalizeSingle(e: RawLaunch)
    requires Readable(e)
    ensures Normalize([e]) == if HasId(e) then [ToSummary(e)] else []
  {
    assert [e][0] == e && [e][1..] == [];
  }

  /**
   * Splitting `entries` around position `i`: the output is what precedes
   * it, then the entry's own contribution, then what follows it.
   */
  lemma NormalizeAround(entries: seq<RawLaunch>, i: int)
    requires StatusPresent(entries) && 0 <= i < |entries|
    ensures StatusPresent(entries[..i]) && StatusPresent(entries[i + 1..])
    ensures Normalize(entries) ==
      Normalize(entries[..i]) +
      (if HasId(entries[i]) then [ToSummary(entries[i])] else []) +
      Normalize(entries[i + 1..])
  {
    SplitAt(entries, i);
    NormalizeAppend(entries[..i], [entries[i]] + entries[i + 1..]);
    NormalizeAppend([entries[i]], entries[i + 1..]);
    NormalizeSingle(entries[i]);
  }

  /**
   * Every entry with a truthy id is in the output, at the position given by
   * the number of entries with an id that precede it.
   */
  lemma NormalizeKeeps(entries: seq<RawLaunch>, i: int)
    requires StatusPresent(entries) && 0 <= i < |entries| && HasId(entries[i])
    ensures StatusPresent(entries[..i])
    ensures |Normalize(entries[..i])| < |Normalize(entries)|
    ensures Normalize(entries)[|Normalize(entries[..i])|] == ToSummary(entries[i])
  {
    NormalizeAround(entries, i);
  }

  /** Entries with an id appear in the output in the order they came in. */
  lemma NormalizeOrdered(entries: seq<RawLaunch>, i: int, j: int)
    requires StatusPresent(entries) && 0 <= i < j <= |entries| && HasId(entries[i])
    ensures StatusPresent(entries[..i]) && StatusPresent(entries[..j])
    ensures |Normalize(entries[..i])| < |Normalize(entries[..j])|
  {
    var prefix := entries[..j];
    assert prefix[..i] == entries[..i] && prefix[i] == entries[i];
    assert entries == prefix + entries[j..];
    NormalizeAppend(prefix, entries[j..]);
    NormalizeAround(prefix, i);
  }

  /**
   * Nothing else is in the output: each output summary is that of an entry
   * with a truthy id, at the position `NormalizeKeeps` gives it.
   */
  lemma {:induction false} NormalizeSource(entries: seq<RawLaunch>, k: int) returns (i: int)
    requires StatusPresent(entries) && 0 <= k < |Normalize(entries)|
    ensures 0 <= i < |entries| && HasId(entries[i])
    ensures StatusPresent(entries[..i]) && |Normalize(entries[..i])| == k
    ensures Normalize(entries)[k] == ToSummary(entries[i])
  {
    var tail := entries[1..];
    var head := if HasId(entries[0]) then [ToSummary(entries[0])] else [];
    assert Normalize(entries) == head + Normalize(tail);
    assert StatusPresent(tail) by {
      StatusPresentSplit([entries[0]], tail);
      assert [entries[0]] + tail == entries;
    }
    if k < |head| {
      i := 0;
      assert entries[..0] == [];
    } else {
      var j := NormalizeSource(tail, k - |head|);
      i := j + 1;
      assert entries[..i] == [entries[0]] + tail[..j];
      NormalizeAppend([entries[0]], tail[..j]);
      NormalizeSingle(entries[0]);
      assert Normalize(entries[..i]) == head + Normalize(tail[..j]);
    }
  }

  /**
   * The slice comes before the filter: every entry with an id among the
   * first 50 is returned, at its rank among them.
   */
  lemma SearchKeeps(raw: seq<RawLaunch>, i: int)
    requires SearchWellFormed(Some(SearchPayload(Some(raw))))
    requires 0 <= i < |raw| && i < MaxResults && HasId(raw[i])
    ensures var r := SearchLaunches(Some(SearchPayload(Some(raw)))).value;
      StatusPresent(raw[..i]) &&
      |Normalize(raw[..i])| < |r| && r[|Normalize(raw[..i])|] == ToSummary(raw[i])
  {
    var page := FirstPage(raw);
    assert page[..i] == raw[..i] && page[i] == raw[i];
    NormalizeKeeps(page, i);
  }

  /**
   * ... and every returned summary comes from one of the first 50 entries,
   * so an entry at position 50 or later never contributes.
   */
  lemma SearchSource(raw: seq<RawLaunch>, k: int) returns (i: int)
    requires SearchWellFormed(Some(SearchPayload(Some(raw))))
    requires 0 <= k < |SearchLaunches(Some(SearchPayload(Some(raw)))).value|
    ensures 0 <= i < |raw| && i < MaxResults && HasId(raw[i])
    ensures StatusPresent(raw[..i]) && |Normalize(raw[..i])| == k
    ensures SearchLaunches(Some(SearchPayload(Some(raw)))).value[k] == ToSummary(raw[i])
  {
    var page := FirstPage(raw);
    i := NormalizeSource(page, k);
    assert page[..i] == raw[..i];
  }

  /**
   * Fifty raw entries without an id hide every later entry: the result is
   * empty even when valid entries follow them.
   */
  lemma SliceBeforeFilter(raw: seq<RawLaunch>)
    requires |raw| > MaxResults
    requires forall i :: 0 <= i < MaxResults ==> !HasId(raw[i])
    ensures SearchLaunches(Some(SearchPayload(Some(raw)))) == Some([])
  {
    var r := SearchLaunches(Some(SearchPayload(Some(raw)))).value;
    if r != [] {
      var i := SearchSource(raw, 0);
    }
  }
}
