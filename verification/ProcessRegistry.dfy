/** The process records of app/process_registry.py: a file per issue with two encodings. */
module ProcessRegistry {
  import opened Basics
  import opened Identifiers

  datatype Json = Text(text: string) | Number(n: int) | List(items: seq<Json>) | Object(fields: map<string, Json>)

  datatype ProcessRecord = ProcessRecord(issueKey: string, runId: string, pid: int, pgid: int, runnerType: string)

  /** `asdict(record)`. */
  function ToJson(r: ProcessRecord): Json {
    Object(map["issue_key" := Text(r.issueKey), "run_id" := Text(r.runId), "pid" := Number(r.pid),
               "pgid" := Number(r.pgid), "runner_type" := Text(r.runnerType)])
  }

  function ToJsons(rs: seq<ProcessRecord>): (js: seq<Json>)
    ensures |js| == |rs| && forall i :: 0 <= i < |rs| ==> js[i] == ToJson(rs[i])
  {
    seq(|rs|, i requires 0 <= i < |rs| => ToJson(rs[i]))
  }

  /** `_write_records`: a single record is stored bare, any other number under "records". */
  function Encode(js: seq<Json>): Json {
    if |js| == 1 then js[0] else Object(map["records" := List(js)])
  }

  predicate HasRecordList(payload: Json) {
    payload.Object? && "records" in payload.fields && payload.fields["records"].List?
  }

  function Objects(items: seq<Json>): seq<Json> {
    if items == [] then [] else (if items[0].Object? then [items[0]] else []) + Objects(items[1..])
  }

  /** `load_all` on the file's payload. */
  function DecodeAll(payload: Json): seq<Json> {
    if HasRecordList(payload) then Objects(payload.fields["records"].items)
    else if payload.Object? && payload.fields != map[] then [payload]
    else []
  }

  /** `load` on the file's payload; `{}` is the empty object. */
  function DecodeLast(payload: Json): Json {
    if HasRecordList(payload) then
      var items := payload.fields["records"].items;
      if items != [] && items[|items| - 1].Object? then items[|items| - 1] else Object(map[])
    else payload
  }

  lemma RecordsAreObjects(r: ProcessRecord)
    ensures ToJson(r).Object? && ToJson(r).fields != map[] && !HasRecordList(ToJson(r))
  {
    assert "pid" in ToJson(r).fields;
    assert "records" !in ToJson(r).fields;
  }

  lemma {:induction false} ObjectsOfRecords(rs: seq<ProcessRecord>)
    ensures Objects(ToJsons(rs)) == ToJsons(rs)
  {
    if rs != [] {
      ObjectsOfRecords(rs[1..]);
      assert ToJsons(rs)[1..] == ToJsons(rs[1..]);
    }
  }

  /** A lone record is the file itself and several stand in a list; both forms decode to what was written, and `load` is
      the last of `load_all`. */
  lemma EncodingRoundTrip(rs: seq<ProcessRecord>)
    ensures if |rs| == 1 then Encode(ToJsons(rs)) == ToJson(rs[0]) else HasRecordList(Encode(ToJsons(rs)))
    ensures DecodeAll(Encode(ToJsons(rs))) == ToJsons(rs)
    ensures rs != [] ==> DecodeLast(Encode(ToJsons(rs))) == ToJson(rs[|rs| - 1])
  {
    ObjectsOfRecords(rs);
    if |rs| == 1 {
      RecordsAreObjects(rs[0]);
    } else {
      var payload := Encode(ToJsons(rs));
      assert "records" in payload.fields;
    }
  }

  lemma ToJsonInjective(a: ProcessRecord, b: ProcessRecord)
    requires ToJson(a) == ToJson(b)
    ensures a == b
  {
    assert ToJson(a).fields["issue_key"] == Text(a.issueKey) && ToJson(b).fields["issue_key"] == Text(b.issueKey);
    assert ToJson(a).fields["run_id"] == Text(a.runId) && ToJson(b).fields["run_id"] == Text(b.runId);
    assert ToJson(a).fields["pid"] == Number(a.pid) && ToJson(b).fields["pid"] == Number(b.pid);
    assert ToJson(a).fields["pgid"] == Number(a.pgid) && ToJson(b).fields["pgid"] == Number(b.pgid);
    assert ToJson(a).fields["runner_type"] == Text(a.runnerType);
    assert ToJson(b).fields["runner_type"] == Text(b.runnerType);
  }

  // ----- the insertion-ordered map the file stands for -----

  function Without(rs: seq<ProcessRecord>, runnerType: string): seq<ProcessRecord> {
    if rs == [] then []
    else (if rs[0].runnerType != runnerType then [rs[0]] else []) + Without(rs[1..], runnerType)
  }

  function Put(rs: seq<ProcessRecord>, r: ProcessRecord): seq<ProcessRecord> {
    Without(rs, r.runnerType) + [r]
  }

  ghost predicate DistinctTypes(rs: seq<ProcessRecord>) {
    forall i, j :: 0 <= i < j < |rs| ==> rs[i].runnerType != rs[j].runnerType
  }

  lemma {:induction false} WithoutMembers(rs: seq<ProcessRecord>, runnerType: string)
    ensures forall r :: r in Without(rs, runnerType) <==> r in rs && r.runnerType != runnerType
    ensures DistinctTypes(rs) ==> DistinctTypes(Without(rs, runnerType))
  {
    if rs != [] {
      WithoutMembers(rs[1..], runnerType);
      var rest := Without(rs[1..], runnerType);
      if DistinctTypes(rs) {
        forall j | 0 <= j < |rest| ensures rs[0].runnerType != rest[j].runnerType {
          assert rest[j] in rest;
          var k :| 0 <= k < |rs[1..]| && rs[1..][k] == rest[j];
        }
      }
    }
  }

  lemma {:induction false} WithoutAbsent(rs: seq<ProcessRecord>, runnerType: string)
    requires forall i :: 0 <= i < |rs| ==> rs[i].runnerType != runnerType
    ensures Without(rs, runnerType) == rs
  {
    if rs != [] {
      WithoutAbsent(rs[1..], runnerType);
    }
  }

  lemma {:induction false} WithoutAppend(a: seq<ProcessRecord>, b: seq<ProcessRecord>, runnerType: string)
    ensures Without(a + b, runnerType) == Without(a, runnerType) + Without(b, runnerType)
  {
    if a == [] {
      assert a + b == b;
    } else {
      assert (a + b)[1..] == a[1..] + b;
      WithoutAppend(a[1..], b, runnerType);
    }
  }

  lemma PutKeepsDistinct(rs: seq<ProcessRecord>, r: ProcessRecord)
    requires DistinctTypes(rs)
    ensures DistinctTypes(Put(rs, r))
  {
    WithoutMembers(rs, r.runnerType);
    var rest := Without(rs, r.runnerType);
    forall i | 0 <= i < |rest| ensures rest[i].runnerType != r.runnerType {
      assert rest[i] in rest;
    }
  }

  /** After registering the file loads as the new record, and the records of the other types are still there. */
  lemma RegisteredIsLoaded(rs: seq<ProcessRecord>, r: ProcessRecord, other: ProcessRecord)
    ensures DecodeLast(Encode(ToJsons(Put(rs, r)))) == ToJson(r)
    ensures other in Put(rs, r) <==> other == r || (other in rs && other.runnerType != r.runnerType)
  {
    WithoutMembers(rs, r.runnerType);
    EncodingRoundTrip(Put(rs, r));
  }

  /** Unregistering a runner type undoes its registration, and later registrations replace earlier ones. */
  lemma UnregisterUndoesRegister(rs: seq<ProcessRecord>, r: ProcessRecord, newer: ProcessRecord)
    requires newer.runnerType == r.runnerType
    ensures Without(Put(rs, r), r.runnerType) == Without(rs, r.runnerType)
    ensures Put(Put(rs, r), newer) == Put(rs, newer)
  {
    var rest := Without(rs, r.runnerType);
    WithoutMembers(rs, r.runnerType);
    forall i | 0 <= i < |rest| ensures rest[i].runnerType != r.runnerType {
      assert rest[i] in rest;
    }
    WithoutAbsent(rest, r.runnerType);
    WithoutAppend(rest, [r], r.runnerType);
    assert Without([r], r.runnerType) == [];
  }

  // ----- liveness -----

  datatype Probe = Delivered | NoSuchProcess | NotPermitted

  /** Signal 0 to the process group, or to the process when no group is recorded. */
  predicate IsLive(r: ProcessRecord, group: int -> Probe, process: int -> Probe) {
    if r.pgid > 0 then group(r.pgid) != NoSuchProcess
    else r.pid > 0 && process(r.pid) != NoSuchProcess
  }

  /** The probe made for the record says that there is no such process, or there is nothing to probe. */
  ghost predicate IsGone(r: ProcessRecord, group: int -> Probe, process: int -> Probe) {
    (r.pgid > 0 && group(r.pgid) == NoSuchProcess)
    || (r.pgid <= 0 && r.pid > 0 && process(r.pid) == NoSuchProcess)
    || (r.pgid <= 0 && r.pid <= 0)
  }

  function LiveOnes(rs: seq<ProcessRecord>, group: int -> Probe, process: int -> Probe): seq<ProcessRecord> {
    if rs == [] then []
    else
      var front, last := LiveOnes(rs[..|rs| - 1], group, process), rs[|rs| - 1];
      if IsLive(last, group, process) then front + [last] else front
  }

  lemma {:induction false} LiveOnesMember(rs: seq<ProcessRecord>, group: int -> Probe, process: int -> Probe, r: ProcessRecord)
    ensures r in LiveOnes(rs, group, process) <==> r in rs && !IsGone(r, group, process)
    decreases |rs|
  {
    if rs != [] {
      LiveOnesMember(rs[..|rs| - 1], group, process, r);
      assert rs == rs[..|rs| - 1] + [rs[|rs| - 1]];
    }
  }

  lemma {:induction false} LiveOnesSize(rs: seq<ProcessRecord>, group: int -> Probe, process: int -> Probe)
    ensures |LiveOnes(rs, group, process)| <= |rs|
    ensures |LiveOnes(rs, group, process)| == |rs| ==> LiveOnes(rs, group, process) == rs
    decreases |rs|
  {
    if rs != [] {
      LiveOnesSize(rs[..|rs| - 1], group, process);
    }
  }

  lemma {:induction false} LiveOnesDistinct(rs: seq<ProcessRecord>, group: int -> Probe, process: int -> Probe)
    requires DistinctTypes(rs)
    ensures DistinctTypes(LiveOnes(rs, group, process))
    decreases |rs|
  {
    if rs != [] {
      var front, last := rs[..|rs| - 1], rs[|rs| - 1];
      LiveOnesDistinct(front, group, process);
      var live := LiveOnes(front, group, process);
      forall i | 0 <= i < |live| ensures live[i].runnerType != last.runnerType {
        LiveOnesMember(front, group, process, live[i]);
        var k :| 0 <= k < |front| && front[k] == live[i];
      }
    }
  }

  function IntField(payload: Json, field: string): int {
    if payload.Object? && field in payload.fields && payload.fields[field].Number? then payload.fields[field].n else 0
  }

  function TextField(payload: Json, field: string): Option<string> {
    if payload.Object? && field in payload.fields && payload.fields[field].Text? then Some(payload.fields[field].text)
    else None
  }

  lemma FieldsOfRecord(r: ProcessRecord)
    ensures IntField(ToJson(r), "pid") == r.pid && IntField(ToJson(r), "pgid") == r.pgid
    ensures TextField(ToJson(r), "runner_type") == Some(r.runnerType)
  {
    assert "pid" in ToJson(r).fields && "pgid" in ToJson(r).fields && "runner_type" in ToJson(r).fields;
    assert ToJson(r).fields["pid"] == Number(r.pid) && ToJson(r).fields["pgid"] == Number(r.pgid);
    assert ToJson(r).fields["runner_type"] == Text(r.runnerType);
  }

  class Registry {
    /** File payloads by path. */
    var files: map<string, Json>
    /** The records each file stands for. */
    ghost var records: map<string, seq<ProcessRecord>>

    ghost predicate Valid()
      reads this
    {
      && files.Keys == records.Keys
      && forall path :: path in files ==>
           && files[path] == Encode(ToJsons(records[path]))
           && records[path] != [] && DistinctTypes(records[path])
    }

    ghost function Records(key: string): seq<ProcessRecord>
      reads this`records
    {
      if SafeKey(key) in records then records[SafeKey(key)] else []
    }

    constructor ()
      ensures Valid() && records == map[]
    {
      files, records := map[], map[];
    }

    method LoadAll(key: string) returns (payloads: seq<Json>)
      requires Valid()
      ensures payloads == ToJsons(Records(key))
    {
      if SafeKey(key) !in files {
        return [];
      }
      EncodingRoundTrip(records[SafeKey(key)]);
      payloads := DecodeAll(files[SafeKey(key)]);
    }

    /** The latest record, `{}` when there is none. */
    method Load(key: string) returns (payload: Json)
      requires Valid()
      ensures payload == if Records(key) == [] then Object(map[]) else ToJson(Records(key)[|Records(key)| - 1])
    {
      if SafeKey(key) !in files {
        return Object(map[]);
      }
      EncodingRoundTrip(records[SafeKey(key)]);
      payload := DecodeLast(files[SafeKey(key)]);
    }

    /** Writes a non-empty record list. */
    method WriteRecords(key: string, payloads: seq<Json>, ghost rs: seq<ProcessRecord>)
      requires Valid() && rs != [] && DistinctTypes(rs) && payloads == ToJsons(rs)
      modifies this
      ensures Valid() && records == old(records)[SafeKey(key) := rs]
    {
      files := files[SafeKey(key) := Encode(payloads)];
      records := records[SafeKey(key) := rs];
    }

    /** The payloads of another runner type. */
    method OtherPayloads(payloads: seq<Json>, runnerType: string, ghost rs: seq<ProcessRecord>) returns (others: seq<Json>)
      requires payloads == ToJsons(rs)
      ensures others == ToJsons(Without(rs, runnerType))
    {
      others := [];
      for i := 0 to |payloads|
        invariant others == ToJsons(Without(rs[..i], runnerType))
      {
        FieldsOfRecord(rs[i]);
        assert rs[..i + 1] == rs[..i] + [rs[i]];
        WithoutAppend(rs[..i], [rs[i]], runnerType);
        if TextField(payloads[i], "runner_type") != Some(runnerType) {
          others := others + [payloads[i]];
        }
      }
      assert rs[..|payloads|] == rs;
    }

    /** `register`; `pgid` is what `os.getpgid` returns, None when it raises. */
    method Register(key: string, runId: string, pid: int, pgid: Option<int>, runnerType: string)
      returns (r: ProcessRecord)
      requires Valid()
      modifies this
      ensures Valid()
      ensures r == ProcessRecord(key, runId, pid, match pgid case Some(g) => g case None => pid, runnerType)
      ensures records == old(records)[SafeKey(key) := Put(old(Records(key)), r)]
    {
      r := ProcessRecord(key, runId, pid, match pgid case Some(g) => g case None => pid, runnerType);
      ghost var rs := Records(key);
      assert DistinctTypes(rs);
      var all := LoadAll(key);
      var others := OtherPayloads(all, runnerType, rs);
      PutKeepsDistinct(rs, r);
      WriteRecords(key, others + [ToJson(r)], Put(rs, r));
    }

    /** `unregister`: one runner type, or the whole file. */
    method Unregister(key: string, runnerType: Option<string>)
      requires Valid()
      modifies this
      ensures Valid()
      ensures Records(key) == match runnerType
        case Some(rt) => Without(old(Records(key)), rt)
        case None => []
      ensures forall path :: path != SafeKey(key) ==>
        (path in records <==> path in old(records)) && (path in records ==> records[path] == old(records[path]))
    {
      var path := SafeKey(key);
      if path !in files {
        return;
      }
      if runnerType.Some? {
        ghost var rs := Records(key);
        var all := LoadAll(key);
        var remaining := OtherPayloads(all, runnerType.value, rs);
        WithoutMembers(rs, runnerType.value);
        if remaining != [] {
          WriteRecords(key, remaining, Without(rs, runnerType.value));
          return;
        }
      }
      files, records := files - {path}, records - {path};
    }

    /** The payloads that answer the probe. */
    method LivePayloads(payloads: seq<Json>, group: int -> Probe, process: int -> Probe, ghost rs: seq<ProcessRecord>)
      returns (live: seq<Json>)
      requires payloads == ToJsons(rs)
      ensures live == ToJsons(LiveOnes(rs, group, process))
    {
      live := [];
      for i := 0 to |payloads|
        invariant live == ToJsons(LiveOnes(rs[..i], group, process))
      {
        FieldsOfRecord(rs[i]);
        assert rs[..i + 1][..i] == rs[..i];
        var pgid, pid := IntField(payloads[i], "pgid"), IntField(payloads[i], "pid");
        if pgid > 0 {
          if group(pgid) != NoSuchProcess {
            live := live + [payloads[i]];
          }
        } else if pid > 0 && process(pid) != NoSuchProcess {
          live := live + [payloads[i]];
        }
      }
      assert rs[..|payloads|] == rs;
    }

    /** `is_active`: whether a live record exists, leaving exactly the live ones. */
    method IsActive(key: string, group: int -> Probe, process: int -> Probe) returns (active: bool)
      requires Valid()
      modifies this
      ensures Valid()
      ensures active <==> exists r :: r in old(Records(key)) && !IsGone(r, group, process)
      ensures forall r :: r in Records(key) <==> r in old(Records(key)) && !IsGone(r, group, process)
      ensures Records(key) == LiveOnes(old(Records(key)), group, process)
    {
      ghost var rs := Records(key);
      ghost var liveOnes := LiveOnes(rs, group, process);
      forall r ensures r in liveOnes <==> r in rs && !IsGone(r, group, process) {
        LiveOnesMember(rs, group, process, r);
      }
      LiveOnesSize(rs, group, process);
      var payloads := LoadAll(key);
      if payloads == [] {
        return false;
      }
      var activeRecords := LivePayloads(payloads, group, process, rs);
      if activeRecords != [] {
        assert liveOnes[0] in liveOnes;
        if |activeRecords| != |payloads| {
          LiveOnesDistinct(rs, group, process);
          WriteRecords(key, activeRecords, liveOnes);
        }
        return true;
      }
      Unregister(key, None);
      return false;
    }
  }
}
