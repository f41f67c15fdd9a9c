/** The status record of an application manager: its bounded history of operations and its
    generation counter, under the three writers that change it. */
module OpHistory {
  import opened Wrappers
  import opened AppStates

  datatype Record = Record(op: OpType, message: string, source: string, version: string, status: State)

  datatype Status = Status(state: State, message: string, reason: string, gen: nat, records: seq<Record>)

  const BLANK := Status(NoState, "", "", 0, [])

  const MAX_RECORDS := 20

  /** Engine: updateStatus of the lifecycle engine. Operator: UpdateAppMgrStatus, used by the
      HTTP handlers. Direct: UpdateStatus of the recommend and middleware handlers. */
  datatype Update =
    | Engine(state: State, record: Option<Record>, message: string, reason: string)
    | Operator(state: State, message: string, reason: string)
    | Direct(state: State, record: Option<Record>, message: string)

  function Pushed(r: Option<Record>, rs: seq<Record>): seq<Record> {
    if r.Some? then [r.value] + rs else rs
  }

  function Newest(h: seq<Record>): seq<Record> {
    if |h| > MAX_RECORDS then h[..MAX_RECORDS] else h
  }

  function Written(s: Status, u: Update): Status {
    match u
    case Engine(st, r, msg, why) =>
      Status(st, msg, if why == "" then s.reason else why, s.gen + 1, Newest(Pushed(r, s.records)))
    case Operator(st, msg, why) =>
      Status(if st.NoState? then s.state else st, if msg == "" then s.message else msg,
             if why == "" then s.reason else why, s.gen + 1, s.records)
    case Direct(st, r, msg) =>
      s.(state := st, message := msg,
         records := if |s.records| > MAX_RECORDS then s.records[..MAX_RECORDS] else Pushed(r, s.records))
  }

  function RecordOf(u: Update): Option<Record> {
    if u.Operator? then None else u.record
  }

  /** Every record handed to a writer, newest first. */
  function History(us: seq<Update>): seq<Record> {
    if us == [] then [] else Pushed(RecordOf(us[|us| - 1]), History(us[..|us| - 1]))
  }

  function WrittenAll(s: Status, us: seq<Update>): Status {
    if us == [] then s else Written(WrittenAll(s, us[..|us| - 1]), us[|us| - 1])
  }

  // ---------------------------------------------------------------------------------------
  // The writers, in place

  class Manager {
    var state: State
    var message: string
    var reason: string
    var gen: nat
    var records: seq<Record>

    constructor ()
      ensures Value() == BLANK
    {
      state, message, reason, gen, records := NoState, "", "", 0, [];
    }

    function Value(): Status
      reads this
    {
      Status(state, message, reason, gen, records)
    }

    /** `ok` says that the API server takes the patch; otherwise the stored status stays. */
    method UpdateStatus(st: State, record: Option<Record>, msg: string, why: string, ok: bool)
      modifies this
      ensures Value() == if ok then Written(old(Value()), Engine(st, record, msg, why)) else old(Value())
    {
      if !ok {
        return;
      }
      state := st;
      message := msg;
      if why != "" {
        reason := why;
      }
      gen := gen + 1;
      if record.Some? {
        records := [record.value] + records;
      }
      if |records| > 20 {
        records := records[..20];
      }
    }

    method UpdateAppMgrStatus(st: State, msg: string, why: string, ok: bool)
      modifies this
      ensures Value() == if ok then Written(old(Value()), Operator(st, msg, why)) else old(Value())
    {
      if !ok {
        return;
      }
      gen := gen + 1;
      if !st.NoState? {
        state := st;
      }
      if msg != "" {
        message := msg;
      }
      if why != "" {
        reason := why;
      }
    }

    /** The cut looks at the list as it was read, so a full list overwrites the new record. */
    method DirectUpdateStatus(st: State, record: Option<Record>, msg: string, ok: bool)
      modifies this
      ensures Value() == if ok then Written(old(Value()), Direct(st, record, msg)) else old(Value())
    {
      if !ok {
        return;
      }
      var read := records;
      state := st;
      message := msg;
      if record.Some? {
        records := [record.value] + read;
      }
      if |read| > 20 {
        records := read[..20];
      }
    }
  }

  // ---------------------------------------------------------------------------------------
  // The history

  lemma NewestOfPushed(r: Option<Record>, h: seq<Record>)
    ensures Newest(Pushed(r, Newest(h))) == Newest(Pushed(r, h))
  {
    if r.Some? && |h| > MAX_RECORDS {
      assert ([r.value] + h[..MAX_RECORDS])[..MAX_RECORDS] == ([r.value] + h)[..MAX_RECORDS];
    }
  }

  /** Without direct writers the stored records are the newest twenty of everything recorded. */
  lemma {:induction false} RecordsAreNewest(us: seq<Update>)
    requires forall u <- us :: !u.Direct?
    ensures WrittenAll(BLANK, us).records == Newest(History(us))
  {
    if us == [] {
    } else {
      var before, u := us[..|us| - 1], us[|us| - 1];
      RecordsAreNewest(before);
      NewestOfPushed(RecordOf(u), History(before));
    }
  }

  /** A direct write keeps its record exactly when the list it read was not already over full;
      otherwise it throws its own record away and keeps the old ones. */
  lemma DirectKeepsRecordExactly(s: Status, st: State, r: Record, msg: string)
    requires r !in s.records
    ensures r in Written(s, Direct(st, Some(r), msg)).records <==> |s.records| <= MAX_RECORDS
    ensures |s.records| > MAX_RECORDS ==>
      Written(s, Direct(st, Some(r), msg)).records == Newest(s.records) != Newest([r] + s.records)
  {
    if |s.records| > MAX_RECORDS {
      assert Newest([r] + s.records)[0] == r;
      assert Newest(s.records)[0] == s.records[0];
    } else {
      assert ([r] + s.records)[0] == r;
    }
  }

  function DirectWrites(rs: seq<Record>): seq<Update> {
    if rs == [] then [] else DirectWrites(rs[..|rs| - 1]) + [Direct(Running, Some(rs[|rs| - 1]), "")]
  }

  function AfterDirect(rs: seq<Record>): seq<Record> {
    WrittenAll(BLANK, DirectWrites(rs)).records
  }

  lemma AfterOneMore(rs: seq<Record>)
    requires rs != []
    ensures
      var read := AfterDirect(rs[..|rs| - 1]);
      AfterDirect(rs) == if |read| > MAX_RECORDS then read[..MAX_RECORDS] else [rs[|rs| - 1]] + read
  {
    var us := DirectWrites(rs);
    assert us[..|us| - 1] == DirectWrites(rs[..|rs| - 1]);
  }

  /** From an empty list the first twenty-one direct records are kept; from then on the list
      alternates between twenty and twenty-one entries and every second record is lost. */
  lemma {:induction false} DirectLosesEverySecond(rs: seq<Record>)
    ensures
      |AfterDirect(rs)| ==
      if |rs| <= MAX_RECORDS then |rs|
      else if (|rs| - MAX_RECORDS) % 2 == 1 then MAX_RECORDS + 1 else MAX_RECORDS
    ensures |rs| > MAX_RECORDS + 1 && (|rs| - MAX_RECORDS) % 2 == 0 ==>
      AfterDirect(rs) == Newest(AfterDirect(rs[..|rs| - 1]))
  {
    if rs == [] {
    } else {
      AfterOneMore(rs);
      DirectLosesEverySecond(rs[..|rs| - 1]);
    }
  }

  // ---------------------------------------------------------------------------------------
  // The generation, and the update predicate of the controller

  /** The controller looks at an update only when the generation rose. */
  predicate PreEnqueueCheckForUpdate(older: Status, newer: Status) {
    !(newer.gen <= older.gen)
  }

  /** Whatever versions an informer skips, the update it delivers is looked at exactly when some
      engine or operator write lies between the two versions it compares. */
  lemma {:induction false} UpdateSeenExactly(s: Status, us: seq<Update>)
    ensures PreEnqueueCheckForUpdate(s, WrittenAll(s, us)) <==> exists u <- us :: !u.Direct?
    ensures s.gen <= WrittenAll(s, us).gen
  {
    if us == [] {
    } else {
      var before, last := us[..|us| - 1], us[|us| - 1];
      UpdateSeenExactly(s, before);
      assert us == before + [last];
      assert (exists u <- us :: !u.Direct?) <==> !last.Direct? || exists u <- before :: !u.Direct?;
    }
  }

  // ---------------------------------------------------------------------------------------
  // Which write a field shows

  /** The operator's writer leaves a field alone that it is given no value for. */
  predicate SetsState(u: Update) {
    u.Operator? ==> u.state != NoState
  }

  predicate SetsMessage(u: Update) {
    u.Operator? ==> u.message != ""
  }

  /** The reason is kept by the direct writer, and by the others when they are given none. */
  predicate SetsReason(u: Update) {
    !u.Direct? && u.reason != ""
  }

  /** After any sequence of writes, state, message and reason are each those of the last write that
      sets them. */
  lemma {:induction false} LastWriteWins(s: Status, us: seq<Update>, i: nat)
    requires i < |us|
    ensures SetsState(us[i]) && (forall j :: i < j < |us| ==> !SetsState(us[j])) ==>
      WrittenAll(s, us).state == us[i].state
    ensures SetsMessage(us[i]) && (forall j :: i < j < |us| ==> !SetsMessage(us[j])) ==>
      WrittenAll(s, us).message == us[i].message
    ensures SetsReason(us[i]) && (forall j :: i < j < |us| ==> !SetsReason(us[j])) ==>
      WrittenAll(s, us).reason == us[i].reason
  {
    if i == |us| - 1 {
    } else {
      var before := us[..|us| - 1];
      LastWriteWins(s, before, i);
      assert forall j :: i <= j < |before| ==> before[j] == us[j];
    }
  }

  /** A field that no write sets keeps its value. */
  lemma {:induction false} UnsetIsKept(s: Status, us: seq<Update>)
    ensures (forall j :: 0 <= j < |us| ==> !SetsState(us[j])) ==> WrittenAll(s, us).state == s.state
    ensures (forall j :: 0 <= j < |us| ==> !SetsMessage(us[j])) ==> WrittenAll(s, us).message == s.message
    ensures (forall j :: 0 <= j < |us| ==> !SetsReason(us[j])) ==> WrittenAll(s, us).reason == s.reason
    decreases |us|
  {
    if us == [] {
    } else {
      UnsetIsKept(s, us[..|us| - 1]);
    }
  }
}
