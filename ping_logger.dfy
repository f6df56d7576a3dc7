/** The in-memory log store of the current back end (index.js): payload
    validation, the bounded append of POST /api/logs, and the two newest-first
    listings GET /api/logs and GET /api/logs/:deviceId. */
module PingLogger {
  import opened JsValues
  import opened Seqs

  /** Retention ceiling: the store keeps the newest 50,000 entries. */
  const MAX_LOGS: nat := 50000
  /** `limit` used when the query gives none, zero or a non-number. */
  const DEFAULT_LIMIT: int := 1000
  /** Largest number of rows GET /api/logs returns. */
  const MAX_LIMIT: int := 10000

  /** One stored report: `{ deviceId, timestamp, receivedAt }`. */
  datatype Entry = Entry(deviceId: string, timestamp: int, receivedAt: int)

  /** What every stored entry satisfies: a non-blank device id and a positive timestamp. */
  predicate WellFormed(e: Entry) {
    Trim(e.deviceId) != "" && e.timestamp > 0
  }

  // ---------------------------------------------------------------------------
  // Validation and entry construction (POST /api/logs)

  /** `isValidPayload(body)`: an object whose `deviceId` is a string that is not
      blank after trimming and whose `Number(timestamp)` is finite and positive. */
  predicate IsValidPayload(body: Value) {
    body.Obj? &&
    Field(body, "deviceId").Str? && Trim(Field(body, "deviceId").s) != "" &&
    ToNumber(Field(body, "timestamp")).Fin? && ToNumber(Field(body, "timestamp")).v > 0
  }

  /** A payload is valid exactly when it is an object, its `deviceId` is a string
      holding a non-whitespace character, and its timestamp converts to a positive
      finite number. */
  lemma ValidPayloadIff(body: Value)
    ensures IsValidPayload(body) <==>
      body.Obj? &&
      Field(body, "deviceId").Str? &&
      (exists i | 0 <= i < |Field(body, "deviceId").s| :: !IsWhitespace(Field(body, "deviceId").s[i])) &&
      ToNumber(Field(body, "timestamp")).Fin? && ToNumber(Field(body, "timestamp")).v > 0
  {
  }

  /** A timestamp sent as the decimal string of a positive integer is accepted,
      just as the number itself would be. */
  lemma NumericStringTimestampAccepted(body: Value, n: int)
    requires body.Obj? && Field(body, "deviceId").Str? && Trim(Field(body, "deviceId").s) != ""
    requires Field(body, "timestamp") == Str(ToJsString(Num(n)))
    ensures IsValidPayload(body) <==> n > 0
    ensures n > 0 ==> ToNumber(Field(body, "timestamp")) == Fin(n)
  {
    NumberStringRoundTrip(n);
  }

  /** The entry a valid POST stores: the device id as sent, the timestamp as
      `Number(timestamp)`, and `receivedAt = Math.floor(nowMs / 1000)`. */
  function MakeEntry(body: Value, nowMs: int): (e: Entry)
    requires IsValidPayload(body)
    ensures WellFormed(e)
    ensures e.deviceId == Field(body, "deviceId").s
    ensures Fin(e.timestamp) == ToNumber(Field(body, "timestamp"))
    ensures e.receivedAt * 1000 <= nowMs < e.receivedAt * 1000 + 1000
  {
    Entry(Field(body, "deviceId").s, ToNumber(Field(body, "timestamp")).v, nowMs / 1000)
  }

  // ---------------------------------------------------------------------------
  // Retention

  /** The store after each of `entries` is appended in turn, trimming to the
      newest `MAX_LOGS` after every append. */
  function IngestAll(logs: seq<Entry>, entries: seq<Entry>): seq<Entry> {
    if entries == [] then logs
    else LastN(IngestAll(logs, entries[..|entries| - 1]) + [entries[|entries| - 1]], MAX_LOGS)
  }

  /** However many entries arrive, the store ends up holding exactly the newest
      `MAX_LOGS` of everything appended, oldest evicted first. */
  lemma {:induction false} IngestAllKeepsNewest(logs: seq<Entry>, entries: seq<Entry>)
    requires |logs| <= MAX_LOGS
    ensures IngestAll(logs, entries) == LastN(logs + entries, MAX_LOGS)
  {
    if entries == [] {
      assert logs + entries == logs;
    } else {
      var front, last := entries[..|entries| - 1], entries[|entries| - 1];
      IngestAllKeepsNewest(logs, front);
      LastNAppend(logs + front, last, MAX_LOGS);
      assert logs + front + [last] == logs + entries;
    }
  }

  /** Every entry of `logs` is well formed. */
  predicate AllWellFormed(logs: seq<Entry>) {
    forall i | 0 <= i < |logs| :: WellFormed(logs[i])
  }

  /** Appending a well-formed entry and trimming keeps every entry well formed,
      and the new entry is the last one kept. */
  lemma RetainWellFormed(logs: seq<Entry>, e: Entry)
    requires AllWellFormed(logs)
    requires WellFormed(e)
    ensures AllWellFormed(LastN(logs + [e], MAX_LOGS))
    ensures LastN(logs + [e], MAX_LOGS)[|LastN(logs + [e], MAX_LOGS)| - 1] == e
  {
    LastNPush(logs, e, MAX_LOGS, WellFormed);
  }

  // ---------------------------------------------------------------------------
  // Newest-first order: `rows.slice().sort((a, b) => b.timestamp - a.timestamp)`

  predicate SortedDesc(s: seq<Entry>) {
    forall i, j | 0 <= i < j < |s| :: s[i].timestamp >= s[j].timestamp
  }

  /** The entries of `s` with timestamp `t`, in their order in `s`. */
  function AtTime(s: seq<Entry>, t: int): seq<Entry> {
    Filter(s, TimeIs(t))
  }

  function TimeIs(t: int): Entry -> bool {
    (e: Entry) => e.timestamp == t
  }

  /** Inserts `e` into a newest-first sequence after every entry at least as new. */
  function InsertDesc(r: seq<Entry>, e: Entry): seq<Entry> {
    if r == [] then [e]
    else if r[0].timestamp < e.timestamp then [e] + r
    else [r[0]] + InsertDesc(r[1..], e)
  }

  /** Inserting adds exactly `e`. */
  lemma {:induction false} InsertDescPermutes(r: seq<Entry>, e: Entry)
    ensures multiset(InsertDesc(r, e)) == multiset(r) + multiset{e}
  {
    if r != [] && r[0].timestamp >= e.timestamp {
      InsertDescPermutes(r[1..], e);
      assert r == [r[0]] + r[1..];
    }
  }

  /** Inserting into a newest-first sequence keeps it newest first. */
  lemma {:induction false} InsertDescSorted(r: seq<Entry>, e: Entry)
    requires SortedDesc(r)
    ensures SortedDesc(InsertDesc(r, e))
  {
    var q := InsertDesc(r, e);
    if r == [] {
    } else if r[0].timestamp < e.timestamp {
      assert q == [e] + r;
      forall i, j | 0 <= i < j < |q| ensures q[i].timestamp >= q[j].timestamp {
        if i > 0 {
          assert q[i] == r[i - 1];
        }
        assert q[j] == r[j - 1] && r[j - 1].timestamp <= r[0].timestamp;
      }
    } else {
      var rest := InsertDesc(r[1..], e);
      assert q == [r[0]] + rest;
      assert SortedDesc(r[1..]);
      InsertDescSorted(r[1..], e);
      assert rest[0] == if |r| == 1 || r[1].timestamp < e.timestamp then e else r[1];
      forall i, j | 0 <= i < j < |q| ensures q[i].timestamp >= q[j].timestamp {
        assert q[j] == rest[j - 1];
        if i == 0 {
          assert rest[0].timestamp >= rest[j - 1].timestamp;
        } else {
          assert q[i] == rest[i - 1];
        }
      }
    }
  }

  /** The stable sort JavaScript's `Array.prototype.sort` performs with the
      comparator `b.timestamp - a.timestamp`. */
  function SortDesc(s: seq<Entry>): seq<Entry> {
    if s == [] then []
    else InsertDesc(SortDesc(s[..|s| - 1]), s[|s| - 1])
  }

  /** The sort yields a newest-first permutation of its input. */
  lemma {:induction false} SortDescSorted(s: seq<Entry>)
    ensures SortedDesc(SortDesc(s))
    ensures multiset(SortDesc(s)) == multiset(s)
  {
    if s != [] {
      SortDescSorted(s[..|s| - 1]);
      InsertDescSorted(SortDesc(s[..|s| - 1]), s[|s| - 1]);
      InsertDescPermutes(SortDesc(s[..|s| - 1]), s[|s| - 1]);
      assert s == s[..|s| - 1] + [s[|s| - 1]];
    }
  }

  /** The sort neither adds nor drops entries. */
  lemma SortDescLength(s: seq<Entry>)
    ensures |SortDesc(s)| == |s|
  {
    SortDescSorted(s);
    assert |multiset(SortDesc(s))| == |multiset(s)|;
  }

  /** Entries older than `t` contribute nothing at time `t`. */
  lemma AtTimeOlder(r: seq<Entry>, t: int)
    requires SortedDesc(r) && (r == [] || r[0].timestamp < t)
    ensures AtTime(r, t) == []
  {
    forall i | 0 <= i < |r| ensures !TimeIs(t)(r[i]) {
      assert r[i].timestamp <= r[0].timestamp;
    }
    FilterNone(r, TimeIs(t));
  }

  /** Putting the same entry in front of two sequences keeps an equation between
      their entries at time `t`. */
  lemma AtTimeCons(x: Entry, rest: seq<Entry>, q: seq<Entry>, t: int, added: seq<Entry>)
    requires AtTime(q, t) == AtTime(rest, t) + added
    ensures AtTime([x] + q, t) == AtTime([x] + rest, t) + added
  {
    var head := Filter([x], TimeIs(t));
    FilterConcat([x], q, TimeIs(t));
    FilterConcat([x], rest, TimeIs(t));
    assert head + (AtTime(rest, t) + added) == (head + AtTime(rest, t)) + added;
  }

  lemma {:induction false} InsertDescAtTime(r: seq<Entry>, e: Entry, t: int)
    requires SortedDesc(r)
    ensures AtTime(InsertDesc(r, e), t) == AtTime(r, t) + (if e.timestamp == t then [e] else [])
  {
    var p := TimeIs(t);
    FilterSingleton(e, p);
    if r == [] || r[0].timestamp < e.timestamp {
      assert InsertDesc(r, e) == [e] + r;
      FilterConcat([e], r, p);
      if e.timestamp == t {
        AtTimeOlder(r, t);
      }
    } else {
      assert InsertDesc(r, e) == [r[0]] + InsertDesc(r[1..], e);
      InsertDescAtTime(r[1..], e, t);
      AtTimeCons(r[0], r[1..], InsertDesc(r[1..], e), t, if e.timestamp == t then [e] else []);
      assert [r[0]] + r[1..] == r;
    }
  }

  /** The sort is stable: entries with equal timestamps keep their relative order. */
  lemma {:induction false} SortDescStable(s: seq<Entry>, t: int)
    ensures AtTime(SortDesc(s), t) == AtTime(s, t)
  {
    if s != [] {
      var front, last := s[..|s| - 1], s[|s| - 1];
      SortDescStable(front, t);
      SortDescSorted(front);
      InsertDescAtTime(SortDesc(front), last, t);
      FilterConcat(front, [last], TimeIs(t));
      assert front + [last] == s;
    }
  }

  // ---------------------------------------------------------------------------
  // GET /api/logs?deviceId=&limit=

  /** `Math.max(1, Math.min(Number(limit) || 1000, 10000))`. */
  function ClampLimit(limit: Value): (lim: int)
    ensures 1 <= lim <= MAX_LIMIT
    ensures ToNumber(limit) == NaN || ToNumber(limit) == Fin(0) ==> lim == DEFAULT_LIMIT
    ensures ToNumber(limit).Fin? && 1 <= ToNumber(limit).v <= MAX_LIMIT ==> lim == ToNumber(limit).v
    ensures ToNumber(limit) == PosInf || (ToNumber(limit).Fin? && ToNumber(limit).v > MAX_LIMIT) ==> lim == MAX_LIMIT
    ensures ToNumber(limit) == NegInf || (ToNumber(limit).Fin? && ToNumber(limit).v < 0) ==> lim == 1
  {
    match ToNumber(limit)
    case NaN => DEFAULT_LIMIT
    case PosInf => MAX_LIMIT
    case NegInf => 1
    case Fin(v) => if v == 0 then DEFAULT_LIMIT else Max(1, Min(v, MAX_LIMIT))
  }

  /** An absent limit, a blank one, one spelled with zeros only, or one whose
      trimmed form starts with none of a digit, a sign, a decimal point or `I`
      means 1000 rows. */
  lemma DefaultLimitCases(limit: Value)
    requires limit == Missing || (limit.Str? && (
      Trim(limit.s) == [] ||
      (IsDecimal(Trim(limit.s)) && DigitsValue(Trim(limit.s)) == 0) ||
      (!IsDigit(Trim(limit.s)[0]) && Trim(limit.s)[0] !in {'+', '-', '.', 'I'})))
    ensures ClampLimit(limit) == DEFAULT_LIMIT
  {
    if limit.Str? && Trim(limit.s) != [] {
      if IsDecimal(Trim(limit.s)) {
        DecimalStringValue(limit.s);
      } else {
        NonNumericStringIsNaN(limit.s);
      }
    }
  }

  /** `e.deviceId === d`, as the filter callback both listings use. */
  function FromDevice(d: string): Entry -> bool {
    (e: Entry) => e.deviceId == d
  }

  /** The rows GET /api/logs selects before sorting: the entries of device
      `String(deviceId)` when `deviceId` is truthy, otherwise every entry. */
  function Matching(logs: seq<Entry>, deviceId: Value): (rows: seq<Entry>)
    ensures forall e :: (multiset(rows)[e] ==
      if !Truthy(deviceId) || e.deviceId == ToJsString(deviceId) then multiset(logs)[e] else 0)
  {
    FilterMultiset(logs, FromDevice(ToJsString(deviceId)));
    if Truthy(deviceId) then Filter(logs, FromDevice(ToJsString(deviceId))) else logs
  }

  /** GET /api/logs: the matching entries, newest first, cut to the clamped limit. */
  function ListLogs(logs: seq<Entry>, deviceId: Value, limit: Value): (r: seq<Entry>)
    ensures |r| == Min(|Matching(logs, deviceId)|, ClampLimit(limit)) && |r| <= MAX_LIMIT
    ensures SortedDesc(r)
    ensures multiset(r) <= multiset(Matching(logs, deviceId))
    ensures forall e | e in r :: e in logs && (Truthy(deviceId) ==> e.deviceId == ToJsString(deviceId))
  {
    var rows := Matching(logs, deviceId);
    var sorted := SortDesc(rows);
    SortDescSorted(rows);
    var r := Take(sorted, ClampLimit(limit));
    TakeMultiset(sorted, ClampLimit(limit));
    assert forall e | e in r :: e in logs && (Truthy(deviceId) ==> e.deviceId == ToJsString(deviceId)) by {
      forall e | e in r ensures e in logs && (Truthy(deviceId) ==> e.deviceId == ToJsString(deviceId)) {
        assert multiset(r)[e] > 0;
        assert multiset(rows)[e] > 0;
      }
    }
    r
  }

  /** Cutting a newest-first sequence leaves out nothing newer than what it keeps. */
  lemma TakeSortedKeepsNewest(sorted: seq<Entry>, n: int, e: Entry, i: int)
    requires SortedDesc(sorted) && n >= 0
    requires 0 <= i < |Take(sorted, n)|
    requires e in multiset(sorted) - multiset(Take(sorted, n))
    ensures e.timestamp <= Take(sorted, n)[i].timestamp
  {
    var r := Take(sorted, n);
    var rest := sorted[|r|..];
    assert sorted == r + rest;
    assert multiset(sorted) == multiset(r) + multiset(rest);
    assert e in multiset(rest);
    var j :| 0 <= j < |rest| && rest[j] == e;
    assert sorted[|r| + j] == e && sorted[i] == r[i];
  }

  /** No entry left out by the limit is newer than any entry returned. */
  lemma ListLogsKeepsNewest(logs: seq<Entry>, deviceId: Value, limit: Value, e: Entry, i: int)
    requires 0 <= i < |ListLogs(logs, deviceId, limit)|
    requires e in multiset(Matching(logs, deviceId)) - multiset(ListLogs(logs, deviceId, limit))
    ensures e.timestamp <= ListLogs(logs, deviceId, limit)[i].timestamp
  {
    var rows := Matching(logs, deviceId);
    SortDescSorted(rows);
    TakeSortedKeepsNewest(SortDesc(rows), ClampLimit(limit), e, i);
  }

  /** Cutting a sequence keeps, at every timestamp, a prefix of its entries with
      that timestamp. */
  lemma TakeAtTime(s: seq<Entry>, n: int, t: int)
    requires n >= 0
    ensures AtTime(Take(s, n), t) <= AtTime(s, t)
  {
    var r := Take(s, n);
    assert s == r + s[|r|..];
    FilterConcat(r, s[|r|..], TimeIs(t));
  }

  /** The cut keeps the stable order at every timestamp: the rows with timestamp `t`
      are the first of the matching entries with that timestamp, in arrival order. */
  lemma ListLogsStable(logs: seq<Entry>, deviceId: Value, limit: Value, t: int)
    ensures AtTime(ListLogs(logs, deviceId, limit), t) <= AtTime(Matching(logs, deviceId), t)
  {
    var rows := Matching(logs, deviceId);
    assert ListLogs(logs, deviceId, limit) == Take(SortDesc(rows), ClampLimit(limit));
    TakeAtTime(SortDesc(rows), ClampLimit(limit), t);
    SortDescStable(rows, t);
  }

  /** When the limit does not cut anything, GET /api/logs returns every matching entry. */
  lemma ListLogsComplete(logs: seq<Entry>, deviceId: Value, limit: Value)
    requires |Matching(logs, deviceId)| <= ClampLimit(limit)
    ensures multiset(ListLogs(logs, deviceId, limit)) == multiset(Matching(logs, deviceId))
  {
    SortDescSorted(Matching(logs, deviceId));
    SortDescLength(Matching(logs, deviceId));
  }

  /** An empty `deviceId` query is falsy, so it lists every device. */
  lemma EmptyDeviceQueryListsAll(logs: seq<Entry>, limit: Value)
    ensures ListLogs(logs, Str(""), limit) == ListLogs(logs, Missing, limit)
  {
    assert !Truthy(Str("")) && !Truthy(Missing);
    assert Matching(logs, Str("")) == logs == Matching(logs, Missing);
  }

  // ---------------------------------------------------------------------------
  // GET /api/logs/:deviceId

  /** GET /api/logs/:deviceId: exactly that device's entries, newest first. */
  function ListDevice(logs: seq<Entry>, deviceId: string): (r: seq<Entry>)
    ensures SortedDesc(r)
    ensures forall e :: multiset(r)[e] == if e.deviceId == deviceId then multiset(logs)[e] else 0
  {
    FilterMultiset(logs, FromDevice(deviceId));
    SortDescSorted(Filter(logs, FromDevice(deviceId)));
    SortDesc(Filter(logs, FromDevice(deviceId)))
  }

  /** Same-timestamp entries of one device come back in the order they arrived. */
  lemma ListDeviceStable(logs: seq<Entry>, deviceId: string, t: int)
    ensures AtTime(ListDevice(logs, deviceId), t) == AtTime(Filter(logs, FromDevice(deviceId)), t)
  {
    SortDescStable(Filter(logs, FromDevice(deviceId)), t);
  }

  /** For a non-empty device id within the limit, the query form and the path form
      of the listing agree. */
  lemma ListLogsMatchesListDevice(logs: seq<Entry>, deviceId: string, limit: Value)
    requires deviceId != ""
    requires |Filter(logs, FromDevice(deviceId))| <= ClampLimit(limit)
    ensures ListLogs(logs, Str(deviceId), limit) == ListDevice(logs, deviceId)
  {
    var rows := Filter(logs, FromDevice(deviceId));
    assert Matching(logs, Str(deviceId)) == rows;
    SortDescLength(rows);
    assert Take(SortDesc(rows), ClampLimit(limit)) == SortDesc(rows);
  }

  /** An accepted report can be read back: after the append it is among its
      device's listed entries. */
  lemma PostedEntryListed(logs: seq<Entry>, body: Value, nowMs: int)
    requires IsValidPayload(body)
    ensures MakeEntry(body, nowMs) in ListDevice(LastN(logs + [MakeEntry(body, nowMs)], MAX_LOGS), Field(body, "deviceId").s)
  {
    var e := MakeEntry(body, nowMs);
    var kept := LastN(logs + [e], MAX_LOGS);
    assert kept[|kept| - 1] == e;
    assert multiset(kept)[e] > 0;
  }

  // ---------------------------------------------------------------------------
  // The module-level `LOGS` array and its route handlers

  class LogStore {
    /** `LOGS`, oldest first. */
    var logs: seq<Entry>

    ghost predicate Valid()
      reads this
    {
      |logs| <= MAX_LOGS && AllWellFormed(logs)
    }

    /** `let LOGS = []` */
    constructor ()
      ensures Valid() && logs == []
    {
      logs := [];
    }

    /** POST /api/logs: 400 and no change for an invalid payload; otherwise push the
        stamped entry and keep the newest 50,000, answering 200. */
    method Post(body: Value, nowMs: int) returns (status: int)
      requires Valid()
      modifies this
      ensures Valid()
      ensures status == if IsValidPayload(body) then 200 else 400
      ensures !IsValidPayload(body) ==> logs == old(logs)
      ensures IsValidPayload(body) ==> logs == LastN(old(logs) + [MakeEntry(body, nowMs)], MAX_LOGS)
      ensures IsValidPayload(body) ==> |logs| == Min(|old(logs)| + 1, MAX_LOGS)
      ensures IsValidPayload(body) ==> logs != [] && logs[|logs| - 1] == MakeEntry(body, nowMs)
    {
      if !IsValidPayload(body) {
        return 400;
      }
      var entry := MakeEntry(body, nowMs);
      ghost var kept := LastN(logs + [entry], MAX_LOGS);
      RetainWellFormed(logs, entry);
      logs := logs + [entry];
      if |logs| > MAX_LOGS {
        logs := logs[|logs| - MAX_LOGS..];
      }
      assert logs == kept;
      status := 200;
    }

    /** GET /api/logs: reads the store, leaving it unchanged. */
    method List(deviceId: Value, limit: Value) returns (rows: seq<Entry>)
      ensures rows == ListLogs(logs, deviceId, limit)
    {
      rows := ListLogs(logs, deviceId, limit);
    }

    /** GET /api/logs/:deviceId: reads the store, leaving it unchanged. */
    method ListForDevice(deviceId: string) returns (rows: seq<Entry>)
      ensures rows == ListDevice(logs, deviceId)
    {
      rows := ListDevice(logs, deviceId);
    }
  }
}
