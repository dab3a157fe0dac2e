/**
 Agent liveness: heartbeats upsert an agent row, a periodic scan marks stale agents offline,
 and both write an audit log.
 */
module Liveness {
  import opened Sequences
  import opened Wrappers

  datatype Event = Offline | Online

  /** A row of agent_info; its id is its position.  `lastHb` is in seconds. */
  datatype Agent = Agent(ip: string, online: bool, lastHb: int)

  /** A row of agent_audit_log. */
  datatype Audit = Audit(agent: nat, event: Event)

  // ----- The specification: each agent with its own trail -----

  datatype Life = Life(agent: Agent, trail: seq<Event>)

  type World = seq<Life>

  function IndexOf(w: World, ip: string): (r: Option<nat>)
    ensures r.Some? ==> r.value < |w| && w[r.value].agent.ip == ip
    ensures r.None? ==> forall i :: 0 <= i < |w| ==> w[i].agent.ip != ip
  {
    if w == [] then None
    else if w[|w| - 1].agent.ip == ip then Some(|w| - 1)
    else IndexOf(w[..|w| - 1], ip)
  }

  /** Which statements of an upsert the database refuses; the code goes on after each. */
  datatype BeatFaults = BeatFaults(select: bool, upsert: bool, audit: bool)

  /** A heartbeat: the row is online from now on, and coming back is logged if the row was seen offline. */
  function Beat(l: Life, now: int, f: BeatFaults): Life {
    Life(if f.upsert then l.agent else l.agent.(online := true, lastHb := now),
         if f.select || l.agent.online || f.audit then l.trail else l.trail + [Online])
  }

  function Upserted(w: World, ip: string, now: int, f: BeatFaults): World {
    match IndexOf(w, ip)
    case None => if f.upsert then w else w + [Life(Agent(ip, true, now), [])]
    case Some(i) => w[i := Beat(w[i], now, f)]
  }

  /** Which of the two statements for one row of a scan the database refuses. */
  datatype RowFaults = RowFaults(update: bool, audit: bool)

  /** Which query of a scan fails, and what happens to each row. */
  datatype ScanFaults = ScanFaults(first: bool, second: bool, rows: nat -> RowFaults)

  /** One row of a query: set the flag, log it. */
  function Marked(l: Life, online: bool, f: RowFaults): Life {
    Life(if f.update then l.agent else l.agent.(online := online),
         if f.audit then l.trail else l.trail + [if online then Online else Offline])
  }

  predicate Stale(a: Agent, time: int) {
    a.online && a.lastHb < time
  }

  predicate Recovered(a: Agent, time: int) {
    !a.online && a.lastHb >= time
  }

  /** A scan that reads the clock at `from` for its first query and at `to` for its second; a failed first query ends it. */
  function Checked(l: Life, timeout: int, from: int, to: int, f: ScanFaults, row: RowFaults): Life {
    if f.first then l
    else if Stale(l.agent, from - timeout) then Marked(l, false, row)
    else if !f.second && Recovered(l.agent, to - timeout) then Marked(l, true, row)
    else l
  }

  function Swept(w: World, timeout: int, from: int, to: int, f: ScanFaults): World {
    seq(|w|, i requires 0 <= i < |w| => Checked(w[i], timeout, from, to, f, f.rows(i)))
  }

  lemma SweptFailed(w: World, timeout: int, from: int, to: int, f: ScanFaults)
    requires f.first
    ensures Swept(w, timeout, from, to, f) == w
  {
    var after := Swept(w, timeout, from, to, f);
    forall i | 0 <= i < |w| ensures after[i] == w[i] {
      assert after[i] == Checked(w[i], timeout, from, to, f, f.rows(i));
    }
  }

  // ----- The tables -----

  function Trail(audit: seq<Audit>, id: nat): seq<Event> {
    if audit == [] then []
    else
      var init, row := Trail(audit[..|audit| - 1], id), audit[|audit| - 1];
      if row.agent == id then init + [row.event] else init
  }

  lemma TrailMore(audit: seq<Audit>, row: Audit, id: nat)
    ensures Trail(audit + [row], id) == if row.agent == id then Trail(audit, id) + [row.event] else Trail(audit, id)
  {
  }

  predicate Known(audit: seq<Audit>, n: nat) {
    forall k :: 0 <= k < |audit| ==> audit[k].agent < n
  }

  lemma {:induction false} NewAgentHasNoTrail(audit: seq<Audit>, n: nat)
    requires Known(audit, n)
    ensures Trail(audit, n) == []
  {
    if audit != [] { NewAgentHasNoTrail(audit[..|audit| - 1], n); }
  }

  function View(agents: seq<Agent>, audit: seq<Audit>): (w: World)
    ensures |w| == |agents| && forall i :: 0 <= i < |w| ==> w[i] == Life(agents[i], Trail(audit, i))
  {
    seq(|agents|, i requires 0 <= i < |agents| => Life(agents[i], Trail(audit, i)))
  }

  /** The row of an address; addresses are unique by the table's index. */
  function RowOf(agents: seq<Agent>, ip: string): Option<nat> {
    if agents == [] then None
    else if agents[|agents| - 1].ip == ip then Some(|agents| - 1)
    else RowOf(agents[..|agents| - 1], ip)
  }

  lemma {:induction false} RowOfView(agents: seq<Agent>, audit: seq<Audit>, ip: string)
    ensures RowOf(agents, ip) == IndexOf(View(agents, audit), ip)
  {
    if agents != [] {
      var init := agents[..|agents| - 1];
      RowOfView(init, audit, ip);
      assert View(agents, audit)[..|init|] == View(init, audit);
    }
  }

  predicate Matches(a: Agent, online: bool, time: int) {
    if online then Stale(a, time) else Recovered(a, time)
  }

  function Matching(agents: seq<Agent>, online: bool, time: int): nat {
    if agents == [] then 0
    else Matching(agents[..|agents| - 1], online, time) + if Matches(agents[|agents| - 1], online, time) then 1 else 0
  }

  ghost predicate Listing(ids: seq<nat>, n: nat) {
    NoRepeats(ids) && forall i :: 0 <= i < |ids| ==> ids[i] < n
  }

  class AgentStore {
    var agents: seq<Agent>
    var audit: seq<Audit>

    ghost predicate Valid()
      reads this
    {
      Known(audit, |agents|)
    }

    ghost function Contents(): World
      reads this
    {
      View(agents, audit)
    }

    constructor ()
      ensures Valid() && Contents() == []
    {
      agents, audit := [], [];
    }

    method UpsertAgent(ip: string, now: int, f: BeatFaults)
      requires Valid()
      modifies this
      ensures Valid() && Contents() == Upserted(old(Contents()), ip, now, f)
    {
      hide IndexOf, RowOf, Trail;
      ghost var before := Contents();
      RowOfView(agents, audit, ip);
      var found := RowOf(agents, ip);
      var seen := if f.select then None else found;
      var wasOffline := seen.Some? && !agents[seen.value].online;
      if !f.upsert {
        match found {
          case None =>
            NewAgentHasNoTrail(audit, |agents|);
            agents := agents + [Agent(ip, true, now)];
          case Some(id) =>
            agents := agents[id := agents[id].(online := true, lastHb := now)];
        }
      }
      if wasOffline && !f.audit {
        forall i { TrailMore(audit, Audit(seen.value, Online), i); }
        audit := audit + [Audit(seen.value, Online)];
      }
      assert Contents() == Upserted(before, ip, now, f);
    }

    /** The rows with the given flag whose heartbeat is before, respectively not before, a time. */
    method Select(online: bool, time: int) returns (ids: seq<nat>)
      ensures Listing(ids, |agents|) && |ids| == Matching(agents, online, time)
      ensures forall i :: 0 <= i < |agents| ==> (i in ids <==> Matches(agents[i], online, time))
    {
      ids := [];
      for n := 0 to |agents|
        invariant Listing(ids, n) && |ids| == Matching(agents[..n], online, time)
        invariant forall i :: 0 <= i < n ==> (i in ids <==> Matches(agents[i], online, time))
      {
        assert agents[..n + 1][..n] == agents[..n];
        if Matches(agents[n], online, time) { ids := ids + [n]; }
      }
      assert agents[..|agents|] == agents;
    }

    /** The loop over the rows of a query: set the flag, write the audit row. */
    method Mark(ids: seq<nat>, online: bool, rows: nat -> RowFaults)
      requires Valid() && Listing(ids, |agents|)
      modifies this
      ensures Valid() && |agents| == |old(agents)|
      ensures forall i :: 0 <= i < |agents| ==>
                Contents()[i] == if i in ids then Marked(old(Contents())[i], online, rows(i)) else old(Contents())[i]
    {
      hide Trail;
      var event := if online then Online else Offline;
      for n := 0 to |ids|
        invariant Valid() && |agents| == |old(agents)|
        invariant forall i :: 0 <= i < |agents| ==>
                    Contents()[i] == if i in ids[..n] then Marked(old(Contents())[i], online, rows(i)) else old(Contents())[i]
      {
        var id := ids[n];
        assert id !in ids[..n] && ids[..n + 1] == ids[..n] + [id];
        forall i { TrailMore(audit, Audit(id, event), i); }
        if !rows(id).update { agents := agents[id := agents[id].(online := online)]; }
        if !rows(id).audit { audit := audit + [Audit(id, event)]; }
      }
      assert ids[..|ids|] == ids;
    }

    method ScanAgentHeartbeats(timeout: int, from: int, to: int, f: ScanFaults) returns (marked: nat)
      requires Valid() && from <= to
      modifies this
      ensures Valid() && Contents() == Swept(old(Contents()), timeout, from, to, f)
      ensures marked == if f.first then 0 else Matching(old(agents), true, from - timeout)
    {
      hide Trail, Matching, Marked;
      if f.first {
        SweptFailed(Contents(), timeout, from, to, f);
        return 0;
      }
      var stale := Select(true, from - timeout);
      Mark(stale, false, f.rows);
      ghost var middle := Contents();
      marked := |stale|;
      MarkedFacts();
      if !f.second {
        var recovered := Select(false, to - timeout);
        Mark(recovered, true, f.rows);
      }
      forall i | 0 <= i < |agents| ensures Contents()[i] == Checked(old(Contents())[i], timeout, from, to, f, f.rows(i)) {
        assert old(Contents())[i].agent == old(agents)[i];
        assert middle[i].agent.lastHb == old(agents)[i].lastHb;
      }
      assert Contents() == Swept(old(Contents()), timeout, from, to, f);
    }
  }

  /** Marking a row keeps its heartbeat time, and either sets its flag or keeps it. */
  lemma MarkedFacts()
    ensures forall l, online, f :: Marked(l, online, f).agent == if f.update then l.agent else l.agent.(online := online)
  {
  }

  // ----- Every run -----

  datatype Step =
    | Heartbeat(ip: string, now: int, beat: BeatFaults)
    | Scan(timeout: int, from: int, to: int, scan: ScanFaults)

  function Apply(w: World, s: Step): World {
    match s
    case Heartbeat(ip, now, f) => Upserted(w, ip, now, f)
    case Scan(timeout, from, to, f) => Swept(w, timeout, from, to, f)
  }

  function Run(steps: seq<Step>): World {
    if |steps| == 0 then [] else Apply(Run(steps[..|steps| - 1]), steps[|steps| - 1])
  }

  /** offline, online, offline, ... */
  predicate Alternates(trail: seq<Event>) {
    forall k :: 0 <= k < |trail| ==> trail[k] == if k % 2 == 0 then Offline else Online
  }

  predicate LifeOk(l: Life) {
    && Alternates(l.trail)
    && (l.agent.online <==> l.trail == [] || l.trail[|l.trail| - 1] == Online)
  }

  /** What a step does to the agent in row `i` if it concerns it. */
  function Moved(l: Life, s: Step, i: nat): Life {
    match s
    case Heartbeat(_, now, f) => Beat(l, now, f)
    case Scan(timeout, from, to, f) => Checked(l, timeout, from, to, f, f.rows(i))
  }

  predicate Concerns(l: Life, s: Step) {
    s.Heartbeat? ==> l.agent.ip == s.ip
  }

  lemma ApplyAt(w: World, s: Step, i: nat)
    requires i < |Apply(w, s)|
    ensures if i < |w| then Apply(w, s)[i] == w[i] || (Concerns(w[i], s) && Apply(w, s)[i] == Moved(w[i], s, i))
            else s.Heartbeat? && i == |w| && IndexOf(w, s.ip) == None && Apply(w, s)[i] == Life(Agent(s.ip, true, s.now), [])
    ensures i < |w| && s.Scan? ==> Apply(w, s)[i] == Moved(w[i], s, i)
  {
  }

  // ----- The log and the flag -----

  /** Of the statements that change flag and log, some take effect and some do not. */
  predicate Splits(l: Life, s: Step, i: nat) {
    match s
    case Heartbeat(_, _, f) => !l.agent.online && (if f.select then !f.upsert else f.upsert != f.audit)
    case Scan(timeout, from, to, f) => Touches(l.agent, timeout, from, to, f) && f.rows(i).update != f.rows(i).audit
  }

  predicate Touches(a: Agent, timeout: int, from: int, to: int, f: ScanFaults) {
    !f.first && (Stale(a, from - timeout) || (!f.second && Recovered(a, to - timeout)))
  }

  /** A step keeps an agent's log and flag in agreement if and only if its statements take effect together. */
  lemma StepKeepsLife(l: Life, s: Step, i: nat)
    requires LifeOk(l)
    ensures LifeOk(Moved(l, s, i)) <==> !Splits(l, s, i)
  {
    var n := |l.trail|;
    assert l.agent.online <==> n % 2 == 0;
    var m := Moved(l, s, i);
    assert m.trail == l.trail || (|m.trail| == n + 1 && m.trail[..n] == l.trail);
    assert Alternates(m.trail) <==> m.trail == l.trail || m.trail[n] == if n % 2 == 0 then Offline else Online;
  }

  /** It can fail: an offline agent whose update is refused but whose log is written comes back in the log alone, twice. */
  lemma SplitBreaksLog(a: Agent, now: int, later: int)
    requires !a.online
    ensures var f := BeatFaults(false, true, false);
            var twice := Beat(Beat(Life(a, [Offline]), now, f), later, f);
            LifeOk(Life(a, [Offline])) && twice.agent == a && twice.trail == [Offline, Online, Online] && !LifeOk(twice)
  {
    assert [Offline, Online, Online][2] == Online;
  }

  /** Step `k` of the run does not split for the agent in row `i`. */
  predicate TogetherAt(steps: seq<Step>, k: nat, i: nat)
    requires k < |steps| && i < |Run(steps[..k])|
  {
    var l := Run(steps[..k])[i];
    Concerns(l, steps[k]) ==> !Splits(l, steps[k], i)
  }

  /** No step of the run splits. */
  ghost predicate Together(steps: seq<Step>) {
    forall k, i :: 0 <= k < |steps| && 0 <= i < |Run(steps[..k])| ==> TogetherAt(steps, k, i)
  }

  /**
   In every run in which the statements of a step take effect together, whatever the clocks and
   timeouts: the log alternates and the flag is its last word.
   */
  lemma {:induction false} AuditAlternates(steps: seq<Step>, i: nat)
    requires Together(steps) && i < |Run(steps)|
    ensures LifeOk(Run(steps)[i])
  {
    hide Apply, LifeOk, Moved, Splits, Concerns;
    var n := |steps| - 1;
    var init, s := steps[..n], steps[n];
    ApplyAt(Run(init), s, i);
    if i < |Run(init)| {
      TogetherPrefix(steps, n);
      AuditAlternates(init, i);
      assert TogetherAt(steps, n, i);
      StepKeepsLife(Run(init)[i], s, i);
    } else {
      BornOk(s.ip, s.now);
    }
  }

  lemma TogetherPrefix(steps: seq<Step>, n: nat)
    requires Together(steps) && n <= |steps|
    ensures Together(steps[..n])
  {
    hide Run, Splits, Concerns;
    var init := steps[..n];
    forall k, i | 0 <= k < |init| && 0 <= i < |Run(init[..k])| ensures TogetherAt(init, k, i) {
      assert init[..k] == steps[..k] && init[k] == steps[k];
      assert TogetherAt(steps, k, i);
    }
  }

  /** Every agent's log and flag agree after the first `k` steps. */
  ghost predicate OkAfter(steps: seq<Step>, k: nat)
    requires k <= |steps|
  {
    forall i :: 0 <= i < |Run(steps[..k])| ==> LifeOk(Run(steps[..k])[i])
  }

  /** And only in those: logs and flags agree all along a run if and only if none of its steps splits. */
  lemma AuditExactly(steps: seq<Step>)
    ensures Together(steps) <==> forall k :: 0 <= k <= |steps| ==> OkAfter(steps, k)
  {
    hide Run, LifeOk, TogetherAt;
    if Together(steps) {
      forall k, i | 0 <= k <= |steps| && 0 <= i < |Run(steps[..k])| ensures LifeOk(Run(steps[..k])[i]) {
        TogetherPrefix(steps, k);
        AuditAlternates(steps[..k], i);
      }
    }
    if forall k :: 0 <= k <= |steps| ==> OkAfter(steps, k) {
      forall k, i | 0 <= k < |steps| && 0 <= i < |Run(steps[..k])| ensures TogetherAt(steps, k, i) {
        assert OkAfter(steps, k) && OkAfter(steps, k + 1);
        OkMeansTogether(steps, k, i);
      }
    }
  }

  lemma OkMeansTogether(steps: seq<Step>, k: nat, i: nat)
    requires k < |steps| && i < |Run(steps[..k])| && OkAfter(steps, k) && OkAfter(steps, k + 1)
    ensures TogetherAt(steps, k, i)
  {
    hide LifeOk, Splits, Moved;
    var w, s := Run(steps[..k]), steps[k];
    assert steps[..k + 1][..k] == steps[..k];
    if Concerns(w[i], s) {
      OneConcerned(steps[..k], s, i);
      assert Run(steps[..k + 1]) == Apply(w, s);
      assert LifeOk(Run(steps[..k + 1])[i]) && LifeOk(w[i]);
      StepKeepsLife(w[i], s, i);
    }
  }

  /** The row a step concerns is the one it changes. */
  lemma OneConcerned(steps: seq<Step>, s: Step, i: nat)
    requires i < |Run(steps)| && Concerns(Run(steps)[i], s)
    ensures i < |Apply(Run(steps), s)| && Apply(Run(steps), s)[i] == Moved(Run(steps)[i], s, i)
  {
    var w := Run(steps);
    if s.Heartbeat? {
      var j := IndexOf(w, s.ip).value;
      if i < j { OneRowPerAddress(steps, i, j); } else if j < i { OneRowPerAddress(steps, j, i); }
    }
  }

  lemma BornOk(ip: string, now: int)
    ensures LifeOk(Life(Agent(ip, true, now), []))
  {
  }

  /** Addresses stay unique. */
  lemma {:induction false} OneRowPerAddress(steps: seq<Step>, i: nat, j: nat)
    requires i < j < |Run(steps)|
    ensures Run(steps)[i].agent.ip != Run(steps)[j].agent.ip
  {
    hide Apply, IndexOf;
    var init, s := steps[..|steps| - 1], steps[|steps| - 1];
    ApplyAt(Run(init), s, i);
    ApplyAt(Run(init), s, j);
    if j < |Run(init)| { OneRowPerAddress(init, i, j); }
  }

  /**
   Right after a scan whose queries and whose update of the row succeed: the row is online exactly when
   its last heartbeat is within the timeout, up to the scan's duration.
   */
  lemma ScanDecides(w: World, timeout: int, from: int, to: int, f: ScanFaults, i: nat)
    requires i < |w| && from <= to && !f.first && !f.second && !f.rows(i).update
    ensures var a := Swept(w, timeout, from, to, f)[i].agent;
            && (a.online ==> a.lastHb >= from - timeout)
            && (a.lastHb >= to - timeout ==> a.online)
            && (from == to ==> (a.online <==> a.lastHb >= to - timeout))
  {
  }

  // ----- A monotone clock and one timeout -----

  function StartOf(s: Step): int {
    match s
    case Heartbeat(_, now, _) => now
    case Scan(_, from, _, _) => from
  }

  function EndOf(s: Step): int {
    match s
    case Heartbeat(_, now, _) => now
    case Scan(_, _, to, _) => to
  }

  predicate Monotone(steps: seq<Step>, timeout: int) {
    && (forall k :: 0 <= k < |steps| ==> StartOf(steps[k]) <= EndOf(steps[k]))
    && (forall k :: 0 < k < |steps| ==> EndOf(steps[k - 1]) <= StartOf(steps[k]))
    && (forall k :: 0 <= k < |steps| ==> steps[k].Scan? ==> steps[k].timeout == timeout)
  }

  /** Offline rows are stale and stay so until a heartbeat. */
  lemma {:induction false} OfflineIsStale(steps: seq<Step>, timeout: int, i: nat)
    requires Monotone(steps, timeout) && i < |Run(steps)| && !Run(steps)[i].agent.online
    ensures |steps| > 0 && Run(steps)[i].agent.lastHb < EndOf(steps[|steps| - 1]) - timeout
  {
    var init, s := steps[..|steps| - 1], steps[|steps| - 1];
    hide Apply;
    ApplyAt(Run(init), s, i);
    if !Run(init)[i].agent.online {
      OfflineIsStale(init, timeout, i);
      assert init[|init| - 1] == steps[|init| - 1];
    }
  }

  /** So the scan's second query never finds a row: only heartbeats bring an agent back, whatever fails. */
  lemma RecoveryIsByHeartbeat(steps: seq<Step>, timeout: int, scan: Step, i: nat)
    requires scan.Scan? && Monotone(steps + [scan], timeout) && i < |Run(steps)|
    ensures !Recovered(Run(steps)[i].agent, scan.to - timeout)
  {
    var all := steps + [scan];
    if !Run(steps)[i].agent.online {
      MonotonePrefix(steps, scan, timeout);
      OfflineIsStale(steps, timeout, i);
      assert all[|steps|] == scan && all[|steps| - 1] == steps[|steps| - 1];
    }
  }

  lemma MonotonePrefix(steps: seq<Step>, s: Step, timeout: int)
    requires Monotone(steps + [s], timeout)
    ensures Monotone(steps, timeout)
  {
    var all := steps + [s];
    assert forall k :: 0 <= k < |steps| ==> all[k] == steps[k];
  }
}
