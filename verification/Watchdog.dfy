/**
 The timeout protocol of `runPerf`: a waiter reaps the child and raises `child_done`, a watchdog
 waits for that with a deadline, then terminates and finally kills the child's process group.
 */
module Watchdog {
  import opened Wrappers

  datatype Status = Exited(code: int) | Signaled(signal: int)

  datatype Signal = Term | Kill

  /** A signal sent, when, what `child_done` was then, and whether the child had been reaped by then. */
  datatype Sent = Sent(signal: Signal, at: int, done: bool, reaped: bool)

  /** In the first wait, after SIGTERM with the lock held, in the second wait, finished. */
  datatype Dog = First | Terminating | Second | Finished

  datatype Waiter = InWaitpid | Woken(status: Option<Status>) | Joining(status: Option<Status>) | Returned(ok: bool)

  const GRACE := 5

  datatype State = State(
    now: int,
    child: Option<Status>,
    waiter: Waiter,
    dog: Dog,
    locked: bool,
    done: bool,
    doneAt: int,
    timedOut: bool,
    killAt: int,
    sent: seq<Sent>)

  /** `waitpid` has returned the child's status, but the flag is not up yet. */
  predicate Reaped(s: State) {
    s.waiter.Woken? && s.waiter.status.Some?
  }

  function Init(start: int): State {
    State(start, None, InWaitpid, First, false, false, 0, false, 0, [])
  }

  datatype Step =
    | Tick(seconds: nat)
    | ChildEnds(status: Status)
    | Reap
    | WaitFails
    | RaiseDone
    | Join(fileOk: bool)
    | SeeDone
    | TimeOut
    | Rearm
    | KillIt

  /** `deadline` is the start plus the timeout; a wait returns when the flag is up or its deadline has passed. */
  predicate Enabled(s: State, step: Step, deadline: int) {
    match step
    case Tick(_) => true
    case ChildEnds(_) => s.child.None?
    case Reap => s.waiter.InWaitpid? && s.child.Some?
    case WaitFails => s.waiter.InWaitpid?
    case RaiseDone => s.waiter.Woken? && !s.locked
    case Join(_) => s.waiter.Joining? && s.dog == Finished
    case SeeDone => (s.dog == First || s.dog == Second) && s.done
    case TimeOut => s.dog == First && !s.done && s.now >= deadline
    case Rearm => s.dog == Terminating
    case KillIt => s.dog == Second && !s.done && s.now >= s.killAt
  }

  /** The checks after the join, in the order of the code. */
  function Result(s: State, status: Option<Status>, fileOk: bool): bool {
    if s.timedOut then false
    else if status.None? then false
    else if status.value.Exited? && status.value.code != 0 then false
    else if status.value.Signaled? then false
    else fileOk
  }

  function Apply(s: State, step: Step, deadline: int): State
    requires Enabled(s, step, deadline)
  {
    match step
    case Tick(n) => s.(now := s.now + n)
    case ChildEnds(status) => s.(child := Some(status))
    case Reap => s.(waiter := Woken(s.child))
    case WaitFails => s.(waiter := Woken(None))
    case RaiseDone => s.(done := true, doneAt := s.now, waiter := Joining(s.waiter.status))
    case Join(fileOk) => s.(waiter := Returned(Result(s, s.waiter.status, fileOk)))
    case SeeDone => s.(dog := Finished)
    case TimeOut => s.(timedOut := true, sent := s.sent + [Sent(Term, s.now, s.done, Reaped(s))], dog := Terminating, locked := true)
    case Rearm => s.(killAt := s.now + GRACE, dog := Second, locked := false)
    case KillIt => s.(sent := s.sent + [Sent(Kill, s.now, s.done, Reaped(s))], dog := Finished)
  }

  function Exec(steps: seq<Step>, start: int, timeout: int): Option<State> {
    if steps == [] then Some(Init(start))
    else
      var s, step := Exec(steps[..|steps| - 1], start, timeout), steps[|steps| - 1];
      if s.Some? && Enabled(s.value, step, start + timeout) then Some(Apply(s.value, step, start + timeout)) else None
  }

  /** SIGTERM not before the deadline, SIGKILL at least five seconds later, neither with the flag up. */
  predicate SignalsOk(sent: seq<Sent>, deadline: int) {
    && |sent| <= 2
    && (|sent| >= 1 ==> sent[0].signal == Term && sent[0].at >= deadline && !sent[0].done)
    && (|sent| == 2 ==> sent[1].signal == Kill && sent[1].at >= sent[0].at + GRACE && !sent[1].done)
  }

  predicate Inv(s: State, deadline: int) {
    && SignalsOk(s.sent, deadline)
    && (s.timedOut <==> s.sent != [])
    && (s.locked <==> s.dog == Terminating)
    && (s.dog == First ==> s.sent == [])
    && (s.dog == Terminating ==> |s.sent| == 1 && s.sent[0].at <= s.now)
    && (s.dog == Second ==> |s.sent| == 1 && s.killAt >= s.sent[0].at + GRACE)
    && (s.done <==> s.waiter.Joining? || s.waiter.Returned?)
    && (s.waiter.Returned? ==> s.dog == Finished)
    && (s.done && s.sent != [] ==> s.doneAt >= deadline)
    && (s.done ==> s.doneAt <= s.now)
    && (s.waiter.Woken? || s.waiter.Joining? ==> s.waiter.status.Some? ==> s.child == s.waiter.status)
    && (s.waiter == Returned(true) ==> s.sent == [] && s.child == Some(Exited(0)))
    && (s.sent != [] ==> s.now >= deadline)
  }

  lemma StepOk(s: State, step: Step, deadline: int)
    requires Inv(s, deadline) && Enabled(s, step, deadline)
    ensures Inv(Apply(s, step, deadline), deadline)
  {
  }

  lemma {:induction false} Reachable(steps: seq<Step>, start: int, timeout: int)
    requires Exec(steps, start, timeout).Some?
    ensures Inv(Exec(steps, start, timeout).value, start + timeout)
  {
    if steps != [] {
      Reachable(steps[..|steps| - 1], start, timeout);
      StepOk(Exec(steps[..|steps| - 1], start, timeout).value, steps[|steps| - 1], start + timeout);
    }
  }

  /** In every interleaving: the order, the delay and the guard of the two signals. */
  lemma SignalOrder(steps: seq<Step>, start: int, timeout: int)
    requires Exec(steps, start, timeout).Some?
    ensures SignalsOk(Exec(steps, start, timeout).value.sent, start + timeout)
  {
    Reachable(steps, start, timeout);
  }

  /** Success means that no signal was ever sent and the child exited with code 0. */
  lemma SuccessMeans(steps: seq<Step>, start: int, timeout: int)
    requires Exec(steps, start, timeout).Some? && Exec(steps, start, timeout).value.waiter == Returned(true)
    ensures Exec(steps, start, timeout).value.sent == [] && Exec(steps, start, timeout).value.child == Some(Exited(0))
  {
    Reachable(steps, start, timeout);
  }

  /** A child whose end is noticed before the deadline is never signalled. */
  lemma InTimeMeansNoSignal(steps: seq<Step>, start: int, timeout: int)
    requires Exec(steps, start, timeout).Some?
    ensures var s := Exec(steps, start, timeout).value; s.done && s.doneAt < start + timeout ==> s.sent == []
  {
    Reachable(steps, start, timeout);
  }

  // ----- Signals after the child is gone -----

  predicate Sends(step: Step) {
    step.TimeOut? || step.KillIt?
  }

  /** In the schedule a wait of the watchdog runs out, at step `k`, after `waitpid` has returned the child. */
  predicate SendsLate(steps: seq<Step>, k: nat)
    requires k < |steps|
  {
    Sends(steps[k]) && Reap in steps[..k]
  }

  /** As long as the flag is down, the child has been reaped exactly if the schedule contains that step. */
  lemma {:induction false} ReapedMeans(steps: seq<Step>, start: int, timeout: int)
    requires Exec(steps, start, timeout).Some?
    ensures var s := Exec(steps, start, timeout).value;
            && (s.waiter.InWaitpid? ==> Reap !in steps)
            && (s.waiter.Woken? ==> (Reaped(s) <==> Reap in steps))
            && (s.done <==> s.waiter.Joining? || s.waiter.Returned?)
  {
    if steps != [] {
      ReapedMeans(steps[..|steps| - 1], start, timeout);
      assert steps == steps[..|steps| - 1] + [steps[|steps| - 1]];
    }
  }

  predicate SentLate(sent: seq<Sent>) {
    exists i :: 0 <= i < |sent| && sent[i].reaped
  }

  /**
   The group of a child that has already been reaped is signalled if and only if one of the watchdog's
   waits runs out after `waitpid` has returned the child: between that and the raising of the flag.
   */
  lemma {:induction false} LateSignals(steps: seq<Step>, start: int, timeout: int)
    requires Exec(steps, start, timeout).Some?
    ensures SentLate(Exec(steps, start, timeout).value.sent)
       <==> exists k :: 0 <= k < |steps| && SendsLate(steps, k)
  {
    if steps != [] {
      var init, n := steps[..|steps| - 1], |steps| - 1;
      var s := Exec(init, start, timeout).value;
      LateSignals(init, start, timeout);
      forall k | 0 <= k < n ensures SendsLate(steps, k) <==> SendsLate(init, k) {
        assert init[..k] == steps[..k] && init[k] == steps[k];
      }
      SentMore(s, steps[n], start + timeout);
      ReapedMeans(init, start, timeout);
      assert SendsLate(steps, n) <==> Sends(steps[n]) && Reaped(s);
    }
  }

  lemma SentMore(s: State, step: Step, deadline: int)
    requires Enabled(s, step, deadline)
    ensures SentLate(Apply(s, step, deadline).sent) <==> SentLate(s.sent) || (Sends(step) && Reaped(s))
  {
    var sent := Apply(s, step, deadline).sent;
    assert forall i :: 0 <= i < |s.sent| ==> sent[i] == s.sent[i];
    if Sends(step) && Reaped(s) { assert sent[|s.sent|].reaped; }
    if SentLate(s.sent) {
      var i :| 0 <= i < |s.sent| && s.sent[i].reaped;
      assert sent[i].reaped;
    }
  }

  /** It happens: the child ends well and is reaped, and the deadline passes before the flag is up. */
  lemma LateSignalHappens(s: State, deadline: int, wait: nat)
    requires s == Init(s.now) && s.now + wait >= deadline
    ensures var s1 := Apply(s, ChildEnds(Exited(0)), deadline);
            && Enabled(s1, Reap, deadline) && var s2 := Apply(s1, Reap, deadline);
            && var s3 := Apply(s2, Tick(wait), deadline);
            && Enabled(s3, TimeOut, deadline) && var s4 := Apply(s3, TimeOut, deadline);
            && s4.sent == [Sent(Term, s.now + wait, false, true)] && s4.child == Some(Exited(0)) && s4.timedOut
  {
  }

  // ----- The watchdog always finishes -----

  /** How many waits the watchdog has before it. */
  function Rank(d: Dog): nat {
    match d
    case First => 3
    case Terminating => 2
    case Second => 1
    case Finished => 0
  }

  predicate IsDogStep(step: Step) {
    step.SeeDone? || step.TimeOut? || step.Rearm? || step.KillIt?
  }

  lemma DogStepsEnd(s: State, step: Step, deadline: int)
    requires Enabled(s, step, deadline)
    ensures if IsDogStep(step) then Rank(Apply(s, step, deadline).dog) < Rank(s.dog) else Apply(s, step, deadline).dog == s.dog
  {
  }

  function DogSteps(steps: seq<Step>): nat {
    if steps == [] then 0 else DogSteps(steps[..|steps| - 1]) + if IsDogStep(steps[|steps| - 1]) then 1 else 0
  }

  /** At most three watchdog steps in any run. */
  lemma {:induction false} DogIsBounded(steps: seq<Step>, start: int, timeout: int)
    requires Exec(steps, start, timeout).Some?
    ensures DogSteps(steps) + Rank(Exec(steps, start, timeout).value.dog) <= 3
  {
    if steps != [] {
      DogIsBounded(steps[..|steps| - 1], start, timeout);
      DogStepsEnd(Exec(steps[..|steps| - 1], start, timeout).value, steps[|steps| - 1], start + timeout);
    }
  }

  /** The watchdog's next step, possible once the clock has reached `when`. */
  function NextDog(s: State): Step
    requires s.dog != Finished
  {
    if s.dog == Terminating then Rearm
    else if s.done then SeeDone
    else if s.dog == First then TimeOut
    else KillIt
  }

  function WaitOf(s: State, deadline: int): int {
    if s.done || s.dog == Terminating then s.now else if s.dog == First then deadline else s.killAt
  }

  /** An unfinished watchdog is never stuck: its next step is possible as soon as enough time has passed, at once if the flag is up. */
  lemma DogNeverStuck(s: State, deadline: int)
    requires s.dog != Finished
    ensures IsDogStep(NextDog(s))
    ensures s.now >= WaitOf(s, deadline) ==> Enabled(s, NextDog(s), deadline)
  {
  }

  /** Everything but the clock and the child. */
  predicate IsThreadStep(step: Step) {
    !step.Tick? && !step.ChildEnds?
  }

  function Work(s: State): nat {
    Rank(s.dog) + match s.waiter
                  case InWaitpid => 3
                  case Woken(_) => 2
                  case Joining(_) => 1
                  case Returned(_) => 0
  }

  function ThreadSteps(steps: seq<Step>): nat {
    if steps == [] then 0 else ThreadSteps(steps[..|steps| - 1]) + if IsThreadStep(steps[|steps| - 1]) then 1 else 0
  }

  lemma WorkShrinks(s: State, step: Step, deadline: int)
    requires Enabled(s, step, deadline)
    ensures if IsThreadStep(step) then Work(Apply(s, step, deadline)) < Work(s) else Work(Apply(s, step, deadline)) == Work(s)
  {
  }

  /**
   Over all schedules: the two threads take at most six steps in any run, and once the child has been
   waited for they can go on at once, whatever the clock, until the join has returned.
   */
  lemma {:induction false} EveryScheduleReturns(steps: seq<Step>, start: int, timeout: int)
    requires Exec(steps, start, timeout).Some?
    ensures var s := Exec(steps, start, timeout).value;
            && ThreadSteps(steps) + Work(s) <= 6
            && (s.waiter.InWaitpid? || s.waiter.Returned?
                || exists step :: IsThreadStep(step) && Enabled(s, step, start + timeout))
  {
    var s := Exec(steps, start, timeout).value;
    if steps != [] {
      EveryScheduleReturns(steps[..|steps| - 1], start, timeout);
      WorkShrinks(Exec(steps[..|steps| - 1], start, timeout).value, steps[|steps| - 1], start + timeout);
    }
    Reachable(steps, start, timeout);
    var next := if s.dog == Terminating then Rearm else if s.waiter.Woken? then RaiseDone
                else if s.dog != Finished then SeeDone else Join(true);
    assert s.waiter.Woken? || s.waiter.Joining? ==> IsThreadStep(next) && Enabled(s, next, start + timeout);
  }
}
