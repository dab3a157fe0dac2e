/**
 `PGStore::UpdateTaskStatus`: the call as written, statement by statement, and the claim that
 any number of concurrent calls behave as if each were one atomic check-and-append.
 */
module PgStore {
  import opened Wrappers
  import opened TaskStatus

  /** What becomes of COMMIT: it succeeds, it is refused, or it takes effect but its answer is lost. */
  datatype CommitFate = Committed | Refused | Lost

  /** Which statement of a call the database refuses, if any. */
  datatype Faults = Faults(begin: bool, select: bool, update: bool, insert: bool, commit: CommitFate) {
    predicate TakesEffect() {
      !begin && !select && !update && !insert && !commit.Refused?
    }
  }

  class Store {
    var connected: bool
    var db: Db // the committed state

    /** One call running alone: all of its effects or none of them. */
    method UpdateTaskStatus(tid: Tid, to: int, reason: string, faults: Faults)
      modifies this`db
      ensures db == if connected && faults.TakesEffect() then Update(old(db), tid, to, reason).0 else old(db)
    {
      if !connected || faults.begin { return; }
      if faults.select || tid !in db.rows { return; } // ROLLBACK
      var from := db.rows[tid].status;
      if !CppAllowed(from, to) { return; } // ROLLBACK
      if faults.update { return; }
      var rows := db.rows[tid := db.rows[tid].(status := to, info := reason)];
      if faults.insert { return; }
      var history := db.history + [HistoryRow(tid, from, to, reason)];
      if faults.commit.Refused? { return; }
      db := Db(rows, history);
    }
  }

  // ----- Concurrent calls, one statement per step -----

  datatype Call = Call(tid: Tid, to: int, reason: string)

  datatype Result = Answered(outcome: Outcome) | Errored

  /** How far a call has come. */
  datatype Phase =
    | Idle
    | Begun
    | Selected(from: int)
    | Checked(from: int)
    | Updated(from: int)
    | Inserted
    | Ended(result: Result)

  /** A call's transaction: its phase and the writes only it can see. */
  datatype Tx = Tx(phase: Phase, row: Option<TaskRow>, entry: Option<HistoryRow>) {
    predicate HoldsLock() {
      phase.Selected? || phase.Checked? || phase.Updated? || phase.Inserted?
    }
  }

  const FRESH := Tx(Idle, None, None)

  /** What took effect, in the order in which it took effect. */
  datatype Event =
    | CallEvent(c: nat, outcome: Outcome)
    | GoEvent(tid: Tid, to: int, reason: string)
    | CreateEvent(tid: Tid, row: TaskRow, reason: string)

  datatype State = State(db: Db, txs: seq<Tx>, locks: map<Tid, nat>, trace: seq<Event>)

  /**
   One statement of call `c`, the failure of one (`Fail`, nothing is committed), a COMMIT that takes
   effect although the call sees an error (`CommitLost`), a status update by the Go writer, or the
   creation of a task.
   */
  datatype Step =
    | Begin(c: nat)
    | Select(c: nat)
    | Check(c: nat)
    | Write(c: nat)
    | Log(c: nat)
    | Commit(c: nat)
    | CommitLost(c: nat)
    | Fail(c: nat)
    | GoWrite(tid: Tid, to: int, reason: string)
    | Create(tid: Tid, row: TaskRow, reason: string)

  function Initial(db: Db, calls: seq<Call>): State {
    State(db, seq(|calls|, _ => FRESH), map[], [])
  }

  /** SELECT ... FOR UPDATE waits for the row lock; so does a Go update of the same row. */
  predicate Enabled(calls: seq<Call>, s: State, step: Step)
    requires |s.txs| == |calls|
  {
    match step
    case Begin(c) => c < |calls| && s.txs[c].phase.Idle?
    case Select(c) => c < |calls| && s.txs[c].phase.Begun? && calls[c].tid !in s.locks
    case Check(c) => c < |calls| && s.txs[c].phase.Selected?
    case Write(c) => c < |calls| && s.txs[c].phase.Checked? && calls[c].tid in s.db.rows
    case Log(c) => c < |calls| && s.txs[c].phase.Updated?
    case Commit(c) => c < |calls| && s.txs[c].phase.Inserted? && s.txs[c].row.Some? && s.txs[c].entry.Some?
    case CommitLost(c) => c < |calls| && s.txs[c].phase.Inserted? && s.txs[c].row.Some? && s.txs[c].entry.Some?
    case Fail(c) => c < |calls| && !s.txs[c].phase.Ended?
    case GoWrite(tid, _, _) => tid !in s.locks
    case Create(tid, row, _) => tid !in s.db.rows && row.status == PENDING
  }

  /** End of a call: buffered writes are dropped and its row lock, if any, is released. */
  function End(s: State, c: nat, tid: Tid, result: Result): State
    requires c < |s.txs|
  {
    s.(txs := s.txs[c := Tx(Ended(result), None, None)],
       locks := if s.txs[c].HoldsLock() then s.locks - {tid} else s.locks)
  }

  /** End of a call whose writes become the committed ones. */
  function Commits(s: State, c: nat, tid: Tid, result: Result): State
    requires c < |s.txs| && s.txs[c].row.Some? && s.txs[c].entry.Some?
  {
    End(s, c, tid, result)
    .(db := Db(s.db.rows[tid := s.txs[c].row.value], s.db.history + [s.txs[c].entry.value]),
      trace := s.trace + [CallEvent(c, Applied)])
  }

  function Apply(calls: seq<Call>, s: State, step: Step): State
    requires |s.txs| == |calls| && Enabled(calls, s, step)
  {
    match step
    case Begin(c) => s.(txs := s.txs[c := Tx(Begun, None, None)])
    case Select(c) =>
      var tid := calls[c].tid;
      if tid !in s.db.rows then
        End(s, c, tid, Answered(NotFound)).(trace := s.trace + [CallEvent(c, NotFound)])
      else
        s.(txs := s.txs[c := Tx(Selected(s.db.rows[tid].status), None, None)], locks := s.locks[tid := c])
    case Check(c) =>
      if CppAllowed(s.txs[c].phase.from, calls[c].to) then
        s.(txs := s.txs[c := s.txs[c].(phase := Checked(s.txs[c].phase.from))])
      else
        End(s, c, calls[c].tid, Answered(Rejected)).(trace := s.trace + [CallEvent(c, Rejected)])
    case Write(c) =>
      var row := s.db.rows[calls[c].tid].(status := calls[c].to, info := calls[c].reason);
      s.(txs := s.txs[c := Tx(Updated(s.txs[c].phase.from), Some(row), None)])
    case Log(c) =>
      var entry := HistoryRow(calls[c].tid, s.txs[c].phase.from, calls[c].to, calls[c].reason);
      s.(txs := s.txs[c := s.txs[c].(phase := Inserted, entry := Some(entry))])
    case Commit(c) => Commits(s, c, calls[c].tid, Answered(Applied))
    case CommitLost(c) => Commits(s, c, calls[c].tid, Errored)
    case Fail(c) => End(s, c, calls[c].tid, Errored)
    case GoWrite(tid, to, reason) =>
      s.(db := Update(s.db, tid, to, reason).0, trace := s.trace + [GoEvent(tid, to, reason)])
    case Create(tid, row, reason) =>
      s.(db := CreateTask(s.db, tid, row, reason), trace := s.trace + [CreateEvent(tid, row, reason)])
  }

  function CreateTask(db: Db, tid: Tid, row: TaskRow, reason: string): Db {
    Db(db.rows[tid := row], db.history + [HistoryRow(tid, NOT_CREATED, PENDING, reason)])
  }

  /** The state an interleaving leads to, or None when some step was not possible. */
  function Exec(calls: seq<Call>, db: Db, steps: seq<Step>): (r: Option<State>)
    ensures r.Some? ==> |r.value.txs| == |calls|
  {
    if steps == [] then Some(Initial(db, calls))
    else
      var before := Exec(calls, db, steps[..|steps| - 1]);
      var step := steps[|steps| - 1];
      if before.Some? && Enabled(calls, before.value, step) then Some(Apply(calls, before.value, step)) else None
  }

  // ----- The serial machine: every event is one atomic step -----

  function SerialStep(calls: seq<Call>, db: Db, e: Event): Option<Db> {
    match e
    case CallEvent(c, outcome) =>
      if c >= |calls| then None
      else
        var (db', o) := Update(db, calls[c].tid, calls[c].to, calls[c].reason);
        if o == outcome then Some(db') else None
    case GoEvent(tid, to, reason) => Some(Update(db, tid, to, reason).0)
    case CreateEvent(tid, row, reason) =>
      if tid in db.rows || row.status != PENDING then None else Some(CreateTask(db, tid, row, reason))
  }

  /** Runs the events one after another; None when an atomic step answers differently from its event. */
  function Serial(calls: seq<Call>, db: Db, trace: seq<Event>): Option<Db> {
    if trace == [] then Some(db)
    else
      match Serial(calls, db, trace[..|trace| - 1])
      case None => None
      case Some(d) => SerialStep(calls, d, trace[|trace| - 1])
  }

  // ----- Invariants -----

  /** What the row lock protects: the holder's view of its row is the committed row. */
  predicate TxOk(s: State, c: nat, call: Call)
    requires c < |s.txs|
  {
    var tx := s.txs[c];
    && (tx.HoldsLock() ==> call.tid in s.locks && s.locks[call.tid] == c && call.tid in s.db.rows)
    && (tx.phase.Selected? || tx.phase.Checked? || tx.phase.Updated? ==>
          tx.phase.from == s.db.rows[call.tid].status)
    && (tx.phase.Checked? || tx.phase.Updated? || tx.phase.Inserted? ==>
          CppAllowed(s.db.rows[call.tid].status, call.to))
    && (tx.phase.Updated? || tx.phase.Inserted? ==>
          tx.row == Some(s.db.rows[call.tid].(status := call.to, info := call.reason)))
    && (tx.phase.Inserted? ==>
          tx.entry == Some(HistoryRow(call.tid, s.db.rows[call.tid].status, call.to, call.reason)))
  }

  /** Each lock is held by exactly the call recorded for it. */
  predicate LockInv(calls: seq<Call>, s: State) {
    && |s.txs| == |calls|
    && (forall c :: 0 <= c < |calls| ==> TxOk(s, c, calls[c]))
    && (forall t :: t in s.locks ==>
          s.locks[t] < |calls| && calls[s.locks[t]].tid == t && s.txs[s.locks[t]].HoldsLock())
  }

  lemma TxOkStep(calls: seq<Call>, s: State, step: Step, c: nat)
    requires LockInv(calls, s) && Enabled(calls, s, step) && c < |calls|
    ensures TxOk(Apply(calls, s, step), c, calls[c])
  {
    assert TxOk(s, c, calls[c]);
  }

  lemma LockInvStep(calls: seq<Call>, s: State, step: Step)
    requires LockInv(calls, s) && Enabled(calls, s, step)
    ensures LockInv(calls, Apply(calls, s, step))
  {
    hide TxOk;
    var s' := Apply(calls, s, step);
    forall c | 0 <= c < |calls| ensures TxOk(s', c, calls[c]) {
      TxOkStep(calls, s, step, c);
    }
    forall t | t in s'.locks
      ensures s'.locks[t] < |calls| && calls[s'.locks[t]].tid == t && s'.txs[s'.locks[t]].HoldsLock()
    {
      assert t in s.locks || (step.Select? && t == calls[step.c].tid);
      if t in s.locks && !step.GoWrite? && !step.Create? { HolderIsLocked(calls, s, step.c); }
    }
  }

  lemma HolderIsLocked(calls: seq<Call>, s: State, c: nat)
    requires LockInv(calls, s) && c < |calls|
    ensures s.txs[c].HoldsLock() ==> calls[c].tid in s.locks && s.locks[calls[c].tid] == c
  {
    assert TxOk(s, c, calls[c]);
  }

  /** One event per answered call, carrying its answer; at most one, Applied, for a failed call. */
  predicate TraceInv(calls: seq<Call>, s: State) {
    && |s.txs| == |calls|
    && (forall i :: 0 <= i < |s.trace| ==> EventOk(s, s.trace[i]))
    && (forall c :: 0 <= c < |calls| ==> CallOk(s, c))
    && (forall i, j :: 0 <= i < j < |s.trace| && s.trace[i].CallEvent? && s.trace[j].CallEvent? ==>
          s.trace[i].c != s.trace[j].c)
  }

  predicate EventOk(s: State, e: Event) {
    e.CallEvent? ==> e.c < |s.txs| && Explains(s.txs[e.c].phase, e.outcome)
  }

  /** A call in this phase can have taken effect with this outcome. */
  predicate Explains(phase: Phase, outcome: Outcome) {
    phase == Ended(Answered(outcome)) || (phase == Ended(Errored) && outcome == Applied)
  }

  predicate CallOk(s: State, c: nat)
    requires c < |s.txs|
  {
    s.txs[c].phase.Ended? && s.txs[c].phase.result.Answered? ==> CallEvent(c, s.txs[c].phase.result.outcome) in s.trace
  }

  lemma TraceInvStep(calls: seq<Call>, s: State, step: Step)
    requires TraceInv(calls, s) && Enabled(calls, s, step)
    ensures TraceInv(calls, Apply(calls, s, step))
  {
    hide EventOk, CallOk;
    var s' := Apply(calls, s, step);
    forall i | 0 <= i < |s'.trace| ensures EventOk(s', s'.trace[i]) {
      EventOkStep(calls, s, step, i);
    }
    forall c | 0 <= c < |calls| ensures CallOk(s', c) {
      CallOkStep(calls, s, step, c);
    }
    forall i, j | 0 <= i < j < |s'.trace| && s'.trace[i].CallEvent? && s'.trace[j].CallEvent?
      ensures s'.trace[i].c != s'.trace[j].c
    {
      OneEventEach(calls, s, step, i, j);
    }
  }

  lemma EventOkStep(calls: seq<Call>, s: State, step: Step, i: nat)
    requires TraceInv(calls, s) && Enabled(calls, s, step) && i < |Apply(calls, s, step).trace|
    ensures EventOk(Apply(calls, s, step), Apply(calls, s, step).trace[i])
  {
    hide CallOk;
    assert i < |s.trace| ==> EventOk(s, s.trace[i]);
  }

  lemma CallOkStep(calls: seq<Call>, s: State, step: Step, c: nat)
    requires TraceInv(calls, s) && Enabled(calls, s, step) && c < |calls|
    ensures CallOk(Apply(calls, s, step), c)
  {
    hide EventOk;
    var trace := Apply(calls, s, step).trace;
    assert CallOk(s, c);
    assert |trace| > |s.trace| ==> trace[|s.trace|] in trace;
  }

  lemma OneEventEach(calls: seq<Call>, s: State, step: Step, i: nat, j: nat)
    requires TraceInv(calls, s) && Enabled(calls, s, step) && i < j < |Apply(calls, s, step).trace|
    requires Apply(calls, s, step).trace[i].CallEvent? && Apply(calls, s, step).trace[j].CallEvent?
    ensures Apply(calls, s, step).trace[i].c != Apply(calls, s, step).trace[j].c
  {
    hide CallOk;
    assert EventOk(s, s.trace[i]);
    StepEvent(calls, s, step, s.trace[i].c, i);
    StepEvent(calls, s, step, s.trace[i].c, j);
  }

  /** A statement either changes nothing that is committed or is one atomic serial step. */
  lemma StepSimulates(calls: seq<Call>, s: State, step: Step)
    requires LockInv(calls, s) && Enabled(calls, s, step)
    ensures var s' := Apply(calls, s, step);
            || (s'.db == s.db && s'.trace == s.trace)
            || (|s'.trace| == |s.trace| + 1 && s'.trace[..|s.trace|] == s.trace
                && SerialStep(calls, s.db, s'.trace[|s.trace|]) == Some(s'.db))
  {
  }

  lemma {:induction false} ExecInv(calls: seq<Call>, db: Db, steps: seq<Step>)
    requires Exec(calls, db, steps).Some?
    ensures var s := Exec(calls, db, steps).value;
            LockInv(calls, s) && TraceInv(calls, s) && Serial(calls, db, s.trace) == Some(s.db)
  {
    if steps != [] {
      var init := steps[..|steps| - 1];
      var s := Exec(calls, db, init).value;
      ExecInv(calls, db, init);
      var step := steps[|steps| - 1];
      LockInvStep(calls, s, step);
      TraceInvStep(calls, s, step);
      StepSimulates(calls, s, step);
    }
  }

  /**
   Row-locked refinement.  Whatever the interleaving of the statements of any number of calls,
   with the Go writer and task creation mixed in, running the recorded events one at a time as
   atomic updates gives the committed database.  Every answered call took effect exactly once and got
   the answer its atomic update gives, a call that saw an error took effect at most once and then as
   an applied update whose acknowledgement was lost, and an unfinished call had no effect.
   */
  lemma RowLockRefinement(calls: seq<Call>, db: Db, steps: seq<Step>)
    requires Exec(calls, db, steps).Some?
    ensures var s := Exec(calls, db, steps).value;
            && Serial(calls, db, s.trace) == Some(s.db)
            && (forall c, o :: 0 <= c < |calls| && s.txs[c].phase == Ended(Answered(o)) ==> CallEvent(c, o) in s.trace)
            && (forall c, o :: 0 <= c < |calls| && CallEvent(c, o) in s.trace ==>
                  s.txs[c].phase == Ended(Answered(o)) || (s.txs[c].phase == Ended(Errored) && o == Applied))
            && (forall i, j :: 0 <= i < j < |s.trace| && s.trace[i].CallEvent? && s.trace[j].CallEvent? ==>
                  s.trace[i].c != s.trace[j].c)
  {
    hide Exec, Serial, LockInv;
    ExecInv(calls, db, steps);
    var s := Exec(calls, db, steps).value;
    forall c, o | 0 <= c < |calls|
      ensures s.txs[c].phase == Ended(Answered(o)) ==> CallEvent(c, o) in s.trace
      ensures CallEvent(c, o) in s.trace ==> Explains(s.txs[c].phase, o)
    {
      EventOfCall(calls, s, c, o);
    }
  }

  lemma EventOfCall(calls: seq<Call>, s: State, c: nat, o: Outcome)
    requires TraceInv(calls, s) && c < |calls|
    ensures s.txs[c].phase == Ended(Answered(o)) ==> CallEvent(c, o) in s.trace
    ensures CallEvent(c, o) in s.trace ==> Explains(s.txs[c].phase, o)
  {
    assert CallOk(s, c);
    if CallEvent(c, o) in s.trace {
      var i :| 0 <= i < |s.trace| && s.trace[i] == CallEvent(c, o);
      assert EventOk(s, s.trace[i]);
    }
  }

  /** Later steps only add events at the end. */
  lemma {:induction false} TraceGrows(calls: seq<Call>, db: Db, first: seq<Step>, rest: seq<Step>)
    requires Exec(calls, db, first + rest).Some?
    ensures Exec(calls, db, first).Some?
    ensures Exec(calls, db, first).value.trace <= Exec(calls, db, first + rest).value.trace
  {
    if rest == [] {
      assert first + rest == first;
    } else {
      var shorter := rest[..|rest| - 1];
      assert (first + rest)[..|first + rest| - 1] == first + shorter;
      TraceGrows(calls, db, first, shorter);
      ExecInv(calls, db, first + shorter);
      StepSimulates(calls, Exec(calls, db, first + shorter).value, rest[|rest| - 1]);
    }
  }

  lemma EndedStays(calls: seq<Call>, s: State, step: Step, c: nat)
    requires |s.txs| == |calls| && Enabled(calls, s, step) && c < |calls| && s.txs[c].phase.Ended?
    ensures Apply(calls, s, step).txs[c] == s.txs[c]
  {
  }

  lemma StepEvent(calls: seq<Call>, s: State, step: Step, c: nat, k: nat)
    requires |s.txs| == |calls| && Enabled(calls, s, step) && c < |calls| && k < |Apply(calls, s, step).trace|
    ensures k < |s.trace| ==> Apply(calls, s, step).trace[k] == s.trace[k]
    ensures k >= |s.trace| && s.txs[c].phase.Ended? ==> !OfCall(Apply(calls, s, step).trace[k], c)
  {
  }

  predicate OfCall(e: Event, c: nat) {
    e.CallEvent? && e.c == c
  }

  /** A call that has ended never takes effect later. */
  lemma {:induction false} NothingAfterTheEnd(calls: seq<Call>, db: Db, first: seq<Step>, rest: seq<Step>, c: nat, k: nat)
    requires Exec(calls, db, first).Some? && Exec(calls, db, first + rest).Some? && c < |calls|
    requires Exec(calls, db, first).value.txs[c].phase.Ended?
    requires |Exec(calls, db, first).value.trace| <= k < |Exec(calls, db, first + rest).value.trace|
    ensures !OfCall(Exec(calls, db, first + rest).value.trace[k], c)
  {
    hide OfCall, Enabled, Apply;
    assert rest == [] ==> first + rest == first;
    if rest != [] {
      var shorter, step := rest[..|rest| - 1], rest[|rest| - 1];
      assert (first + rest)[..|first + rest| - 1] == first + shorter;
      var s := Exec(calls, db, first + shorter).value;
      EndedSoFar(calls, db, first, shorter, c);
      StepEvent(calls, s, step, c, k);
      if k < |s.trace| { NothingAfterTheEnd(calls, db, first, shorter, c, k); }
    }
  }

  lemma {:induction false} EndedSoFar(calls: seq<Call>, db: Db, first: seq<Step>, rest: seq<Step>, c: nat)
    requires Exec(calls, db, first).Some? && Exec(calls, db, first + rest).Some? && c < |calls|
    requires Exec(calls, db, first).value.txs[c].phase.Ended?
    ensures Exec(calls, db, first + rest).value.txs[c] == Exec(calls, db, first).value.txs[c]
  {
    if rest == [] {
      assert first + rest == first;
    } else {
      var shorter := rest[..|rest| - 1];
      assert (first + rest)[..|first + rest| - 1] == first + shorter;
      EndedSoFar(calls, db, first, shorter, c);
      EndedStays(calls, Exec(calls, db, first + shorter).value, rest[|rest| - 1], c);
    }
  }

  /**
   The serial order is the order in which callers see it: a call that had ended, with an answer or
   an error, before another began comes first.
   */
  lemma RealTimeOrder(calls: seq<Call>, db: Db, first: seq<Step>, rest: seq<Step>, i: nat, j: nat)
    requires Exec(calls, db, first).Some? && Exec(calls, db, first + rest).Some?
    requires var s := Exec(calls, db, first + rest).value;
             i < |s.trace| && j < |s.trace| && s.trace[i].CallEvent? && s.trace[j].CallEvent?
    requires var s0 := Exec(calls, db, first).value;
             var s := Exec(calls, db, first + rest).value;
             && s.trace[i].c < |calls| && s.trace[j].c < |calls|
             && s0.txs[s.trace[i].c].phase.Ended? && s0.txs[s.trace[j].c].phase.Idle?
    ensures i < j
  {
    hide Exec, Serial, LockInv;
    var s0 := Exec(calls, db, first).value;
    var s := Exec(calls, db, first + rest).value;
    ExecInv(calls, db, first);
    TraceGrows(calls, db, first, rest);
    if i >= |s0.trace| { NothingAfterTheEnd(calls, db, first, rest, s.trace[i].c, i); }
    forall m | 0 <= m < |s0.trace| && s.trace[m].CallEvent? ensures !s0.txs[s.trace[m].c].phase.Idle? {
      assert EventOk(s0, s0.trace[m]) && s0.trace[m] == s.trace[m];
    }
  }

  /** A call that saw an error took effect if and only if its COMMIT was carried out and only the answer was lost. */
  lemma {:induction false} ErroredEffect(calls: seq<Call>, db: Db, steps: seq<Step>, c: nat)
    requires Exec(calls, db, steps).Some? && c < |calls| && Exec(calls, db, steps).value.txs[c].phase == Ended(Errored)
    ensures CallEvent(c, Applied) in Exec(calls, db, steps).value.trace <==> CommitLost(c) in steps
  {
    hide LockInv, Serial, TraceInv;
    var init, step := steps[..|steps| - 1], steps[|steps| - 1];
    var s := Exec(calls, db, init).value;
    assert steps == init + [step];
    ExecInv(calls, db, init);
    StepSimulates(calls, s, step);
    if s.txs[c].phase.Ended? {
      EndedStays(calls, s, step, c);
      ErroredEffect(calls, db, init, c);
      NotAgain(calls, s, step, c);
    } else {
      RunningHasNoEvent(calls, s, c);
      NoLostCommit(calls, db, init, c);
      EndsInError(calls, s, step, c);
    }
  }

  lemma NotAgain(calls: seq<Call>, s: State, step: Step, c: nat)
    requires |s.txs| == |calls| && Enabled(calls, s, step) && c < |calls| && s.txs[c].phase.Ended?
    ensures CallEvent(c, Applied) in Apply(calls, s, step).trace <==> CallEvent(c, Applied) in s.trace
    ensures step != CommitLost(c)
  {
    var t := Apply(calls, s, step).trace;
    assert t == s.trace || (|t| == |s.trace| + 1 && t == s.trace + [t[|s.trace|]]);
  }

  lemma RunningHasNoEvent(calls: seq<Call>, s: State, c: nat)
    requires TraceInv(calls, s) && c < |calls| && !s.txs[c].phase.Ended?
    ensures CallEvent(c, Applied) !in s.trace
  {
    if CallEvent(c, Applied) in s.trace { EventOfCall(calls, s, c, Applied); }
  }

  lemma {:induction false} NoLostCommit(calls: seq<Call>, db: Db, steps: seq<Step>, c: nat)
    requires Exec(calls, db, steps).Some? && c < |calls| && !Exec(calls, db, steps).value.txs[c].phase.Ended?
    ensures CommitLost(c) !in steps
  {
    if steps != [] {
      var init, step := steps[..|steps| - 1], steps[|steps| - 1];
      assert steps == init + [step];
      var s := Exec(calls, db, init).value;
      if s.txs[c].phase.Ended? { EndedStays(calls, s, step, c); } else { NoLostCommit(calls, db, init, c); }
    }
  }

  lemma EndsInError(calls: seq<Call>, s: State, step: Step, c: nat)
    requires |s.txs| == |calls| && Enabled(calls, s, step) && c < |calls| && !s.txs[c].phase.Ended?
    requires Apply(calls, s, step).txs[c].phase == Ended(Errored) && CallEvent(c, Applied) !in s.trace
    ensures CallEvent(c, Applied) in Apply(calls, s, step).trace <==> step == CommitLost(c)
  {
  }

  /** The next statement of an unfinished call. */
  function NextStep(phase: Phase, c: nat): Step {
    match phase
    case Idle => Begin(c)
    case Begun => Select(c)
    case Selected(_) => Check(c)
    case Checked(_) => Write(c)
    case Updated(_) => Log(c)
    case _ => Commit(c)
  }

  /** Row locks never deadlock: while a call is unfinished, some call can execute its next statement. */
  lemma NoDeadlock(calls: seq<Call>, db: Db, steps: seq<Step>, c: nat)
    requires Exec(calls, db, steps).Some? && c < |calls|
    requires !Exec(calls, db, steps).value.txs[c].phase.Ended?
    ensures var s := Exec(calls, db, steps).value;
            exists step: Step :: !step.Fail? && !step.GoWrite? && !step.Create? && Enabled(calls, s, step)
  {
    var s := Exec(calls, db, steps).value;
    ExecInv(calls, db, steps);
    var d := if s.txs[c].phase.Begun? && calls[c].tid in s.locks then s.locks[calls[c].tid] else c;
    assert TxOk(s, d, calls[d]);
    assert Enabled(calls, s, NextStep(s.txs[d].phase, d));
  }

  lemma {:induction false} SerialKeepsAudit(calls: seq<Call>, db: Db, trace: seq<Event>)
    requires AuditOk(db) && Serial(calls, db, trace).Some?
    ensures AuditOk(Serial(calls, db, trace).value)
  {
    if trace != [] {
      var init := trace[..|trace| - 1];
      SerialKeepsAudit(calls, db, init);
      var d := Serial(calls, db, init).value;
      match trace[|trace| - 1]
      case CallEvent(c, _) => UpdateKeepsAudit(d, calls[c].tid, calls[c].to, calls[c].reason);
      case GoEvent(tid, to, reason) => UpdateKeepsAudit(d, tid, to, reason);
      case CreateEvent(tid, row, reason) => CreateKeepsAudit(d, tid, row, reason);
    }
  }

  lemma CreateKeepsAudit(db: Db, tid: Tid, row: TaskRow, reason: string)
    requires AuditOk(db) && tid !in db.rows && row.status == PENDING
    ensures AuditOk(CreateTask(db, tid, row, reason))
  {
    forall t ensures TaskAudited(CreateTask(db, tid, row, reason), t) {
      assert TaskAudited(db, t);
      TrailOfAppend(db.history, HistoryRow(tid, NOT_CREATED, PENDING, reason), t);
    }
  }

  /** Hence the audit table stays truthful under every interleaving of statements. */
  lemma ConcurrentAudit(calls: seq<Call>, db: Db, steps: seq<Step>)
    requires AuditOk(db) && Exec(calls, db, steps).Some?
    ensures AuditOk(Exec(calls, db, steps).value.db)
  {
    ExecInv(calls, db, steps);
    SerialKeepsAudit(calls, db, Exec(calls, db, steps).value.trace);
  }
}
