/**
 The bounded cache of process memory maps.  A call looks the pid up, reads /proc without the
 lock on a miss, and takes the lock again to insert; calls of several threads interleave.
 */
module MapsCache {
  import opened Sequences
  import opened Wrappers

  /** An executable mapping of a process. */
  datatype Region = Region(start: nat, end: nat, offset: nat, path: string)

  type Regions = seq<Region>

  const CAPACITY := 256

  /** `order` is the eviction queue, oldest first. */
  datatype Cache = Cache(entries: map<nat, Regions>, order: seq<nat>)

  function Inserted(c: Cache, pid: nat, regions: Regions): Cache {
    var d := if |c.entries| >= CAPACITY && c.order != [] then Cache(c.entries - {c.order[0]}, c.order[1..]) else c;
    Cache(d.entries[pid := regions], d.order + [pid])
  }

  /** The queue lists exactly the cached pids, once each; the bound holds; entries are what /proc holds. */
  ghost predicate CacheOk(c: Cache, proc: nat -> Regions) {
    && NoRepeats(c.order)
    && (forall p :: p in c.order <==> p in c.entries)
    && |c.entries| <= CAPACITY
    && (forall p :: p in c.entries ==> c.entries[p] == proc(p))
  }

  lemma InsertOk(c: Cache, pid: nat, proc: nat -> Regions)
    requires CacheOk(c, proc) && pid !in c.entries
    ensures CacheOk(Inserted(c, pid, proc(pid)), proc)
  {
    hide CacheOk;
    CacheFacts(c, proc);
    if |c.entries| >= CAPACITY {
      EvictOk(c, proc);
      AppendOk(Cache(c.entries - {c.order[0]}, c.order[1..]), pid, proc);
    } else {
      AppendOk(c, pid, proc);
    }
  }

  lemma CacheFacts(c: Cache, proc: nat -> Regions)
    requires CacheOk(c, proc)
    ensures |c.order| == |c.entries| <= CAPACITY
  {
    ListingLength(c.order, c.entries.Keys);
  }

  lemma EvictOk(c: Cache, proc: nat -> Regions)
    requires CacheOk(c, proc) && c.order != []
    ensures var d := Cache(c.entries - {c.order[0]}, c.order[1..]); CacheOk(d, proc) && |d.entries| == |c.entries| - 1
  {
  }

  lemma AppendOk(c: Cache, pid: nat, proc: nat -> Regions)
    requires CacheOk(c, proc) && pid !in c.entries && |c.entries| < CAPACITY
    ensures CacheOk(Cache(c.entries[pid := proc(pid)], c.order + [pid]), proc)
  {
  }

  // ----- One caller -----

  class UserMaps {
    var entries: map<nat, Regions>
    var order: seq<nat>

    ghost function Contents(): Cache
      reads this
    {
      Cache(entries, order)
    }

    constructor ()
      ensures Contents() == Cache(map[], [])
    {
      entries, order := map[], [];
    }

    /** First critical section. */
    method Lookup(pid: nat) returns (r: Option<Regions>)
      ensures r == if pid in entries then Some(entries[pid]) else None
    {
      if pid in entries { return Some(entries[pid]); }
      return None;
    }

    /** Second critical section. */
    method Insert(pid: nat, regions: Regions)
      modifies this
      ensures Contents() == Inserted(old(Contents()), pid, regions)
    {
      if |entries| >= CAPACITY && order != [] {
        var oldest := order[0];
        order := order[1..];
        entries := entries - {oldest};
      }
      entries := entries[pid := regions];
      order := order + [pid];
    }

    /** `opens` says whether /proc/pid/maps can be opened; a process that is gone is not cached. */
    method ReadUserMaps(pid: nat, opens: bool, proc: nat -> Regions) returns (r: Regions)
      requires CacheOk(Contents(), proc)
      modifies this
      ensures CacheOk(Contents(), proc)
      ensures r == if opens || pid in old(entries) then proc(pid) else []
      ensures pid in old(entries) || !opens ==> Contents() == old(Contents())
    {
      hide CacheOk;
      HitIsRight(Contents(), pid, proc);
      var found := Lookup(pid);
      if found.Some? { return found.value; }
      if !opens { return []; }
      r := proc(pid);
      InsertOk(Contents(), pid, proc);
      Insert(pid, r);
    }
  }

  lemma HitIsRight(c: Cache, pid: nat, proc: nat -> Regions)
    requires CacheOk(c, proc)
    ensures pid in c.entries ==> c.entries[pid] == proc(pid)
  {
  }

  // ----- Interleaved callers -----

  /** `reading` holds the threads between their two critical sections. */
  datatype State = State(cache: Cache, reading: map<nat, nat>)

  datatype Step =
    | Hit(pid: nat)
    | Miss(thread: nat, pid: nat)
    | Store(thread: nat)
    | GiveUp(thread: nat)

  predicate Enabled(s: State, step: Step) {
    match step
    case Hit(pid) => pid in s.cache.entries
    case Miss(t, pid) => pid !in s.cache.entries && t !in s.reading
    case Store(t) => t in s.reading
    case GiveUp(t) => t in s.reading
  }

  function Apply(s: State, step: Step, proc: nat -> Regions): State
    requires Enabled(s, step)
  {
    match step
    case Hit(_) => s
    case Miss(t, pid) => s.(reading := s.reading[t := pid])
    case Store(t) => State(Inserted(s.cache, s.reading[t], proc(s.reading[t])), s.reading - {t})
    case GiveUp(t) => s.(reading := s.reading - {t})
  }

  /** A miss on a pid some thread is already reading. */
  predicate Overlaps(s: State, step: Step) {
    step.Miss? && exists t :: t in s.reading && s.reading[t] == step.pid
  }

  /** The state after a run, if every step was possible and no two misses on a pid overlapped. */
  function Exec(steps: seq<Step>, proc: nat -> Regions): Option<State> {
    if steps == [] then Some(State(Cache(map[], []), map[]))
    else
      var s, step := Exec(steps[..|steps| - 1], proc), steps[|steps| - 1];
      if s.Some? && Enabled(s.value, step) && !Overlaps(s.value, step) then Some(Apply(s.value, step, proc)) else None
  }

  /** Pids being read are not cached, and no two threads read the same one. */
  ghost predicate ReadersOk(s: State) {
    && (forall t :: t in s.reading ==> s.reading[t] !in s.cache.entries)
    && (forall t, u :: t in s.reading && u in s.reading && t != u ==> s.reading[t] != s.reading[u])
  }

  lemma StepOk(s: State, step: Step, proc: nat -> Regions)
    requires CacheOk(s.cache, proc) && ReadersOk(s) && Enabled(s, step) && !Overlaps(s, step)
    ensures CacheOk(Apply(s, step, proc).cache, proc) && ReadersOk(Apply(s, step, proc))
  {
    hide CacheOk;
    if step.Store? { InsertOk(s.cache, s.reading[step.thread], proc); }
  }

  /** In every such run the cache is sound, bounded and its queue exact. */
  lemma {:induction false} CacheInvariant(steps: seq<Step>, proc: nat -> Regions)
    requires Exec(steps, proc).Some?
    ensures CacheOk(Exec(steps, proc).value.cache, proc) && ReadersOk(Exec(steps, proc).value)
  {
    hide CacheOk, ReadersOk;
    if steps == [] {
      EmptyOk(proc);
    } else {
      CacheInvariant(steps[..|steps| - 1], proc);
      StepOk(Exec(steps[..|steps| - 1], proc).value, steps[|steps| - 1], proc);
    }
  }

  lemma EmptyOk(proc: nat -> Regions)
    ensures CacheOk(Cache(map[], []), proc) && ReadersOk(State(Cache(map[], []), map[]))
  {
  }

  /** A store keeps the queue free of repeats exactly when the pid has not been cached meanwhile. */
  lemma StoreRepeats(c: Cache, pid: nat, proc: nat -> Regions)
    requires CacheOk(c, proc)
    ensures NoRepeats(Inserted(c, pid, proc(pid)).order)
       <==> pid !in c.entries || (|c.entries| >= CAPACITY && c.order[0] == pid)
  {
    ListingLength(c.order, c.entries.Keys);
    var r := Inserted(c, pid, proc(pid));
    var d := r.order[..|r.order| - 1];
    assert r.order == d + [pid];
    if pid in d {
      var i :| 0 <= i < |d| && d[i] == pid;
      assert r.order[i] == r.order[|d|];
    }
  }

  /** Two overlapping misses on one pid leave it in the queue twice. */
  lemma OverlapBreaksQueue(t: nat, u: nat, pid: nat, proc: nat -> Regions)
    requires t != u
    ensures var s0 := State(Cache(map[], []), map[]);
            && Enabled(s0, Miss(t, pid)) && var s1 := Apply(s0, Miss(t, pid), proc);
            && Enabled(s1, Miss(u, pid)) && Overlaps(s1, Miss(u, pid)) && var s2 := Apply(s1, Miss(u, pid), proc);
            && Enabled(s2, Store(t)) && var s3 := Apply(s2, Store(t), proc);
            && Enabled(s3, Store(u)) && Apply(s3, Store(u), proc).cache.order == [pid, pid]
  {
  }
}
