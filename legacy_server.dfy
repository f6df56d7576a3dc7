/** The earlier back end (server/index.js): an unbounded in-memory `logs` array
    with a truthiness check on POST /api/logs, a list-everything GET /api/logs and
    an insertion-order GET /api/logs/:deviceId. */
module LegacyServer {
  import opened JsValues
  import opened Seqs

  /** One stored report: `{ deviceId, timestamp }` exactly as the body carried them. */
  datatype RawEntry = RawEntry(deviceId: Value, timestamp: Value)

  /** `!deviceId || !timestamp` is false: both fields are truthy. */
  predicate Accepts(body: Value) {
    Truthy(Field(body, "deviceId")) && Truthy(Field(body, "timestamp"))
  }

  /** The status POST /api/logs answers: destructuring an `undefined` or `null`
      body throws, which Express turns into 500; a falsy field gives 400. */
  function PostStatus(body: Value): (status: int)
    ensures status == 200 <==> Accepts(body)
    ensures status == 400 <==> (body != Missing && body != Null && !Accepts(body))
    ensures status in {200, 400, 500}
  {
    if body == Missing || body == Null then 500
    else if !Accepts(body) then 400
    else 200
  }

  /** A body whose `deviceId` or `timestamp` is `undefined`, `""`, `0`, `null` or
      `false` is refused with 400. */
  lemma FalsyFieldRejected(body: Value, key: string)
    requires body.Obj? && (key == "deviceId" || key == "timestamp")
    requires Field(body, key) in {Missing, Str(""), Num(0), Null, Bool(false)}
    ensures PostStatus(body) == 400
  {
  }

  /** GET /api/logs/:deviceId's filter callback `log.deviceId === deviceId`: strict
      equality with a string holds only for that very string. */
  function SameDevice(deviceId: string): RawEntry -> bool {
    (e: RawEntry) => e.deviceId == Str(deviceId)
  }

  /** GET /api/logs/:deviceId: the device's entries in insertion order. */
  function DeviceLogs(logs: seq<RawEntry>, deviceId: string): (r: seq<RawEntry>)
    ensures forall i | 0 <= i < |r| :: r[i].deviceId == Str(deviceId)
    ensures forall e :: multiset(r)[e] == if e.deviceId == Str(deviceId) then multiset(logs)[e] else 0
  {
    FilterMultiset(logs, SameDevice(deviceId));
    Filter(logs, SameDevice(deviceId))
  }

  /** Reports that arrive later are listed later: the device listing of a longer
      store extends the listing of the shorter one. */
  lemma DeviceLogsAppend(logs: seq<RawEntry>, more: seq<RawEntry>, deviceId: string)
    ensures DeviceLogs(logs + more, deviceId) == DeviceLogs(logs, deviceId) + DeviceLogs(more, deviceId)
  {
    FilterConcat(logs, more, SameDevice(deviceId));
  }

  /** The store after each body in turn is posted: accepted bodies append their
      entry, everything else leaves the store alone. */
  function PostAll(logs: seq<RawEntry>, bodies: seq<Value>): seq<RawEntry> {
    if bodies == [] then logs
    else
      var body := bodies[|bodies| - 1];
      var before := PostAll(logs, bodies[..|bodies| - 1]);
      if PostStatus(body) == 200 then before + [RawEntry(Field(body, "deviceId"), Field(body, "timestamp"))]
      else before
  }

  /** The number of accepted bodies in `bodies`. */
  function AcceptedCount(bodies: seq<Value>): nat {
    if bodies == [] then 0
    else AcceptedCount(bodies[..|bodies| - 1]) + (if Accepts(bodies[|bodies| - 1]) then 1 else 0)
  }

  /** There is no retention bound: the store never shrinks, keeps every earlier
      entry in place, and grows by one per accepted POST. */
  lemma {:induction false} PostAllGrows(logs: seq<RawEntry>, bodies: seq<Value>)
    ensures |PostAll(logs, bodies)| == |logs| + AcceptedCount(bodies)
    ensures PostAll(logs, bodies)[..|logs|] == logs
  {
    if bodies != [] {
      PostAllGrows(logs, bodies[..|bodies| - 1]);
      var before := PostAll(logs, bodies[..|bodies| - 1]);
      assert before[..|logs|] == logs;
    }
  }

  // ---------------------------------------------------------------------------
  // The module-level `logs` array and its route handlers

  class LegacyLogStore {
    /** `logs`, oldest first. */
    var logs: seq<RawEntry>

    /** `const logs = []` */
    constructor ()
      ensures logs == []
    {
      logs := [];
    }

    /** POST /api/logs: push `{ deviceId, timestamp }` unconverted when both are
        truthy; otherwise answer 400 (or 500 for a missing body) and change nothing. */
    method Post(body: Value) returns (status: int)
      modifies this
      ensures status == PostStatus(body)
      ensures status == 200 ==>
        logs == old(logs) + [RawEntry(Field(body, "deviceId"), Field(body, "timestamp"))]
      ensures status != 200 ==> logs == old(logs)
      ensures |logs| == |old(logs)| + (if status == 200 then 1 else 0)
    {
      if body == Missing || body == Null {
        return 500;
      }
      var deviceId, timestamp := Field(body, "deviceId"), Field(body, "timestamp");
      if !Truthy(deviceId) || !Truthy(timestamp) {
        return 400;
      }
      logs := logs + [RawEntry(deviceId, timestamp)];
      status := 200;
    }

    /** GET /api/logs: the whole store, in insertion order, unchanged. */
    method ListAll() returns (rows: seq<RawEntry>)
      ensures rows == logs
    {
      rows := logs;
    }

    /** GET /api/logs/:deviceId: reads the store, leaving it unchanged. */
    method ListForDevice(deviceId: string) returns (rows: seq<RawEntry>)
      ensures rows == DeviceLogs(logs, deviceId)
    {
      rows := DeviceLogs(logs, deviceId);
    }
  }
}
