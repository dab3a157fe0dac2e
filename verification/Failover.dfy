/** The agent's server pool and the failure counter of its heartbeat thread. */
module Failover {
  import opened Separated

  const THRESHOLD := 3

  const DEFAULT_ADDR: string := "127.0.0.1:50051"

  // ----- The pool -----

  predicate Blank(c: char) {
    c == ' '
  }

  /** The pieces with blanks trimmed, empty ones dropped. */
  function Named(pieces: seq<string>): (r: seq<string>)
    ensures forall i :: 0 <= i < |r| ==> r[i] != []
  {
    if pieces == [] then []
    else
      var init, addr := Named(pieces[..|pieces| - 1]), Strip(pieces[|pieces| - 1], Blank);
      if addr == [] then init else init + [addr]
  }

  function Addresses(list: string): (r: seq<string>)
    ensures r != []
  {
    var addrs := Named(Split(list, ','));
    if addrs == [] then [DEFAULT_ADDR] else addrs
  }

  predicate Clean(addr: string) {
    addr != [] && addr[0] != ' ' && addr[|addr| - 1] != ' ' && Without(addr, ',')
  }

  lemma {:induction false} NamedClean(addrs: seq<string>)
    requires forall i :: 0 <= i < |addrs| ==> Clean(addrs[i])
    ensures Named(addrs) == addrs
  {
    if addrs != [] {
      var init, last := addrs[..|addrs| - 1], addrs[|addrs| - 1];
      NamedClean(init);
      StripNothing(last, Blank);
      assert addrs == init + [last];
    }
  }

  /** A list of well-formed addresses is read back from the flag it is written in. */
  lemma AddressesRoundTrip(addrs: seq<string>)
    requires addrs != [] && forall i :: 0 <= i < |addrs| ==> Clean(addrs[i])
    ensures Addresses(Join(addrs, ',')) == addrs
  {
    SplitOfJoin(addrs, ',');
    NamedClean(addrs);
  }

  class ServerPool {
    var addrs: seq<string>
    var current: nat
    /** The address the channel in use was opened to. */
    var channel: string

    ghost predicate Valid()
      reads this
    {
      current < |addrs| && channel == addrs[current]
    }

    constructor Init(list: string)
      ensures Valid() && addrs == Addresses(list) && current == 0
    {
      addrs, current, channel := [], 0, [];
      new;
      var pieces := Split(list, ',');
      for n := 0 to |pieces|
        invariant addrs == Named(pieces[..n])
      {
        assert pieces[..n + 1][..n] == pieces[..n];
        var addr := Strip(pieces[n], Blank);
        if addr != [] { addrs := addrs + [addr]; }
      }
      assert pieces[..|pieces|] == pieces;
      if addrs == [] { addrs := [DEFAULT_ADDR]; }
      Connect(0);
    }

    method Connect(idx: nat)
      requires addrs != []
      modifies this
      ensures Valid() && addrs == old(addrs) && current == idx % |addrs|
    {
      current := idx % |addrs|;
      channel := addrs[current];
    }

    /** On to the next server, back to the first after the last. */
    method Failover()
      requires Valid()
      modifies this
      ensures Valid() && addrs == old(addrs) && current == (old(current) + 1) % |addrs|
    {
      var next := (current + 1) % |addrs|;
      ModUnique(next, |addrs|, 0, next);
      Connect(next);
    }
  }

  // ----- The heartbeat thread -----

  /** What a heartbeat meets; `registers` is what registration would answer if it is tried. */
  datatype Outcome = Failed | Alive(registers: bool)

  datatype State = State(failures: nat, index: nat, registered: bool, failovers: nat)

  function Next(s: State, o: Outcome, n: nat): State
    requires n > 0
  {
    match o
    case Failed =>
      if s.failures + 1 >= THRESHOLD && n > 1 then State(0, (s.index + 1) % n, false, s.failovers + 1)
      else s.(failures := s.failures + 1)
    case Alive(registers) => s.(failures := 0, registered := s.registered || registers)
  }

  function Run(outcomes: seq<Outcome>, n: nat): State
    requires n > 0
  {
    if outcomes == [] then State(0, 0, false, 0)
    else Next(Run(outcomes[..|outcomes| - 1], n), outcomes[|outcomes| - 1], n)
  }

  class Heartbeat {
    const pool: ServerPool
    var registered: bool
    var failures: nat
    ghost var failovers: nat

    ghost predicate Valid()
      reads this, pool
    {
      pool.Valid()
    }

    ghost function Contents(): State
      reads this, pool
    {
      State(failures, pool.current, registered, failovers)
    }

    constructor (p: ServerPool)
      requires p.Valid()
      ensures pool == p && Valid() && Contents() == State(0, p.current, false, 0)
    {
      pool, registered, failures, failovers := p, false, 0, 0;
    }

    /** One turn of the loop. */
    method Turn(o: Outcome)
      requires Valid()
      modifies this, pool
      ensures Valid() && pool.addrs == old(pool.addrs)
      ensures Contents() == Next(old(Contents()), o, |pool.addrs|)
    {
      if o.Failed? {
        failures := failures + 1;
        if failures >= THRESHOLD && |pool.addrs| > 1 {
          pool.Failover();
          failures, failovers, registered := 0, failovers + 1, false;
        }
        return;
      }
      failures := 0;
      if !registered {
        if o.registers { registered := true; }
      }
    }

    method Loop(outcomes: seq<Outcome>)
      requires Valid() && Contents() == State(0, 0, false, 0)
      modifies this, pool
      ensures Valid() && pool.addrs == old(pool.addrs)
      ensures Contents() == Run(outcomes, |pool.addrs|)
    {
      for k := 0 to |outcomes|
        invariant Valid() && pool.addrs == old(pool.addrs)
        invariant Contents() == Run(outcomes[..k], |pool.addrs|)
      {
        assert outcomes[..k + 1][..k] == outcomes[..k];
        Turn(outcomes[k]);
      }
      assert outcomes[..|outcomes|] == outcomes;
    }
  }

  // ----- Failovers and failure runs -----

  /** How many heartbeats have failed since the last one that did not. */
  function TailRun(outcomes: seq<Outcome>): (t: nat)
    ensures t <= |outcomes|
  {
    if outcomes == [] || outcomes[|outcomes| - 1].Alive? then 0 else TailRun(outcomes[..|outcomes| - 1]) + 1
  }

  /** The lengths of the maximal runs of failures, in order. */
  function Runs(outcomes: seq<Outcome>): seq<nat>
    decreases |outcomes|
  {
    if outcomes == [] then []
    else if TailRun(outcomes) == 0 then Runs(outcomes[..|outcomes| - 1])
    else Runs(outcomes[..|outcomes| - TailRun(outcomes)]) + [TailRun(outcomes)]
  }

  function Thirds(runs: seq<nat>): nat {
    if runs == [] then 0 else Thirds(runs[..|runs| - 1]) + runs[|runs| - 1] / THRESHOLD
  }

  lemma RunsSplit(outcomes: seq<Outcome>)
    ensures Thirds(Runs(outcomes)) == Thirds(Runs(outcomes[..|outcomes| - TailRun(outcomes)])) + TailRun(outcomes) / THRESHOLD
  {
    var t := TailRun(outcomes);
    assert t == 0 ==> outcomes[..|outcomes| - t] == outcomes;
  }

  lemma RunsStep(outcomes: seq<Outcome>)
    requires outcomes != []
    ensures var init := outcomes[..|outcomes| - 1];
            Thirds(Runs(outcomes)) == Thirds(Runs(init)) + if TailRun(outcomes) > 0 && TailRun(outcomes) % THRESHOLD == 0 then 1 else 0
  {
    hide Runs, Thirds;
    var init, t := outcomes[..|outcomes| - 1], TailRun(outcomes);
    RunsSplit(outcomes);
    RunsSplit(init);
    if t == 0 {
      RunsOfAlive(outcomes);
    } else {
      assert init[..|init| - (t - 1)] == outcomes[..|outcomes| - t];
    }
  }

  lemma RunsOfAlive(outcomes: seq<Outcome>)
    requires outcomes != [] && TailRun(outcomes) == 0
    ensures Runs(outcomes) == Runs(outcomes[..|outcomes| - 1])
  {
  }

  lemma ModStep(f: nat, n: nat)
    requires n > 0
    ensures (f % n + 1) % n == (f + 1) % n
  {
    if f % n + 1 < n {
      assert f + 1 == n * (f / n) + (f % n + 1);
      ModUnique(f + 1, n, f / n, f % n + 1);
      ModUnique(f % n + 1, n, 0, f % n + 1);
    } else {
      assert f + 1 == n * (f / n + 1);
      ModUnique(f + 1, n, f / n + 1, 0);
      ModUnique(f % n + 1, n, 1, 0);
    }
  }

  lemma ModUnique(x: nat, n: nat, q: nat, r: nat)
    requires n > 0 && r < n && x == n * q + r
    ensures x % n == r
  {
    var d := x / n - q;
    assert n * d == r - x % n;
    Multiple(n, d);
  }

  lemma Multiple(n: int, d: int)
    requires n > 0
    ensures d > 0 ==> n * d >= n
    ensures d < 0 ==> n * d <= -n
  {
  }

  lemma {:induction false} FailoverCount(outcomes: seq<Outcome>, n: nat)
    requires n >= 2
    ensures Run(outcomes, n).failovers == Thirds(Runs(outcomes))
    ensures Run(outcomes, n).failures == TailRun(outcomes) % THRESHOLD
  {
    hide Runs, Thirds;
    if outcomes == [] {
      NoRuns();
    } else {
      FailoverCount(outcomes[..|outcomes| - 1], n);
      RunsStep(outcomes);
    }
  }

  lemma {:induction false} FailoverIndex(outcomes: seq<Outcome>, n: nat)
    requires n > 0
    ensures Run(outcomes, n).index == Run(outcomes, n).failovers % n
  {
    if outcomes == [] {
      ModUnique(0, n, 0, 0);
    } else {
      var init := outcomes[..|outcomes| - 1];
      FailoverIndex(init, n);
      ModStep(Run(init, n).failovers, n);
    }
  }

  /**
   For two servers or more and any outcomes: one failover for every three failures in a row, the
   active server is the number of failovers modulo the number of servers.
   */
  lemma FailoverArithmetic(outcomes: seq<Outcome>, n: nat)
    requires n >= 2
    ensures Run(outcomes, n).failovers == Thirds(Runs(outcomes))
    ensures Run(outcomes, n).index == Run(outcomes, n).failovers % n
    ensures Run(outcomes, n).failures == TailRun(outcomes) % THRESHOLD
  {
    FailoverCount(outcomes, n);
    FailoverIndex(outcomes, n);
  }

  lemma NoRuns()
    ensures Thirds(Runs([])) == 0
  {
  }

  /** A single server is never left, however many heartbeats fail. */
  lemma {:induction false} SingleServer(outcomes: seq<Outcome>)
    ensures Run(outcomes, 1).failovers == 0 && Run(outcomes, 1).index == 0
    ensures Run(outcomes, 1).failures == TailRun(outcomes)
  {
    if outcomes != [] { SingleServer(outcomes[..|outcomes| - 1]); }
  }

  // ----- A long outage -----

  function Outage(k: nat): seq<Outcome> {
    seq(k, i => Failed)
  }

  lemma OneMoreFailure(s: State, n: nat, x: nat, k: nat)
    requires n >= 2 && k > 0 && s.index == x % n && s.failures == (k - 1) % THRESHOLD
    ensures Next(s, Failed, n).index == (if k % THRESHOLD == 0 then x + 1 else x) % n
    ensures Next(s, Failed, n).failures == k % THRESHOLD
  {
    ModStep(x, n);
  }

  lemma {:induction false} DuringOutage(before: seq<Outcome>, n: nat, k: nat)
    requires n >= 2 && TailRun(before) == 0
    ensures Run(before + Outage(k), n).index == (Run(before, n).index + k / THRESHOLD) % n
    ensures Run(before + Outage(k), n).failures == k % THRESHOLD
  {
    hide TailRun, Next;
    var c := Run(before, n).index;
    if k == 0 {
      FailoverArithmetic(before, n);
      assert before + Outage(0) == before;
      ModUnique(c, n, 0, c);
    } else {
      DuringOutage(before, n, k - 1);
      var all := before + Outage(k);
      assert all[..|all| - 1] == before + Outage(k - 1) && all[|all| - 1] == Failed;
      OneMoreFailure(Run(before + Outage(k - 1), n), n, c + (k - 1) / THRESHOLD, k);
    }
  }

  /** The server the heartbeat `k` of an outage goes to. */
  function Tried(before: seq<Outcome>, n: nat, k: nat): nat
    requires n > 0
  {
    Run(before + Outage(k), n).index
  }

  /** In an outage of 3n heartbeats every server is tried three times, in one stretch. */
  lemma EveryServerThreeTimes(before: seq<Outcome>, n: nat, server: nat) returns (m: nat)
    requires n >= 2 && TailRun(before) == 0 && server < n
    ensures m < n && forall k :: 0 <= k < 3 * n ==> (Tried(before, n, k) == server <==> 3 * m <= k < 3 * m + 3)
  {
    hide Run, TailRun;
    FailoverArithmetic(before, n);
    var c := Run(before, n).index;
    m := if server >= c then server - c else server + n - c;
    forall k | 0 <= k < 3 * n ensures Tried(before, n, k) == server <==> 3 * m <= k < 3 * m + 3 {
      DuringOutage(before, n, k);
      var q := k / 3;
      if c + q < n { ModUnique(c + q, n, 0, c + q); } else { ModUnique(c + q, n, 1, c + q - n); }
    }
  }

  // ----- Registration -----

  /** Registration succeeded at heartbeat `k`, and the server has not been left since. */
  predicate RegisteredAt(outcomes: seq<Outcome>, n: nat, k: nat)
    requires n > 0 && k < |outcomes|
  {
    outcomes[k] == Alive(true) && Run(outcomes[..k], n).failovers == Run(outcomes, n).failovers
  }

  lemma {:induction false} FailoversGrow(outcomes: seq<Outcome>, n: nat, k: nat)
    requires n > 0 && k <= |outcomes|
    ensures Run(outcomes[..k], n).failovers <= Run(outcomes, n).failovers
    ensures Run(outcomes[..k], n).failovers == Run(outcomes, n).failovers ==> Run(outcomes[..k], n).index == Run(outcomes, n).index
  {
    if k == |outcomes| {
      assert outcomes[..k] == outcomes;
    } else {
      var init := outcomes[..|outcomes| - 1];
      FailoversGrow(init, n, k);
      assert init[..k] == outcomes[..k];
    }
  }

  /** The flag is set exactly when registration has succeeded with the current server since the last failover. */
  lemma {:induction false} RegisteredMeans(outcomes: seq<Outcome>, n: nat)
    requires n > 0
    ensures Run(outcomes, n).registered <==> exists k :: 0 <= k < |outcomes| && RegisteredAt(outcomes, n, k)
  {
    if outcomes != [] {
      var init, last := outcomes[..|outcomes| - 1], |outcomes| - 1;
      RegisteredMeans(init, n);
      forall k | 0 <= k < last
        ensures RegisteredAt(outcomes, n, k) <==> RegisteredAt(init, n, k) && Run(outcomes, n).failovers == Run(init, n).failovers
      {
        assert init[..k] == outcomes[..k] && init[k] == outcomes[k];
        FailoversGrow(init, n, k);
      }
      assert outcomes[last] == Alive(true) ==> RegisteredAt(outcomes, n, last);
    }
  }

  lemma RegisteredWithCurrent(outcomes: seq<Outcome>, n: nat) returns (k: nat)
    requires n > 0 && Run(outcomes, n).registered
    ensures k < |outcomes| && outcomes[k] == Alive(true) && Run(outcomes[..k], n).index == Run(outcomes, n).index
  {
    RegisteredMeans(outcomes, n);
    k :| 0 <= k < |outcomes| && RegisteredAt(outcomes, n, k);
    FailoversGrow(outcomes, n, k);
  }
}
