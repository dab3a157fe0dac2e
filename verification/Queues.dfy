/** The two in-memory queues a task passes through: drop_server's per-IP queue and the agent's worker queue. */
module Queues {
  import opened Sequences
  import opened Wrappers
  import opened TaskStatus

  type Ip = string

  /** The queue of an IP; an IP never pushed to has an empty one. */
  function At(m: map<Ip, seq<Tid>>, ip: Ip): seq<Tid> {
    if ip in m then m[ip] else []
  }

  /** `m` with `tid` at the back of the queue of `ip`. */
  function PushBack(m: map<Ip, seq<Tid>>, ip: Ip, tid: Tid): map<Ip, seq<Tid>> {
    m[ip := At(m, ip) + [tid]]
  }

  /** `m` without the front of the queue of `ip`. */
  function PopFront(m: map<Ip, seq<Tid>>, ip: Ip): map<Ip, seq<Tid>>
    requires At(m, ip) != []
  {
    m[ip := At(m, ip)[1..]]
  }

  lemma AtPushBack(m: map<Ip, seq<Tid>>, ip: Ip, tid: Tid, other: Ip)
    ensures At(PushBack(m, ip, tid), other) == if other == ip then At(m, ip) + [tid] else At(m, other)
  {
  }

  lemma AtPopFront(m: map<Ip, seq<Tid>>, ip: Ip, other: Ip)
    requires At(m, ip) != []
    ensures At(PopFront(m, ip), other) == if other == ip then At(m, ip)[1..] else At(m, other)
  {
  }

  /** drop_server's queue. */
  class TaskQueue {
    var queues: map<Ip, seq<Tid>>

    constructor ()
      ensures queues == map[]
    {
      queues := map[];
    }

    method Push(ip: Ip, tid: Tid)
      modifies this
      ensures queues == PushBack(old(queues), ip, tid)
    {
      if ip !in queues { queues := queues[ip := []]; }
      queues := queues[ip := queues[ip] + [tid]];
    }

    method Pop(ip: Ip) returns (out: Option<Tid>)
      modifies this
      ensures out.None? <==> At(old(queues), ip) == []
      ensures out.None? ==> queues == old(queues)
      ensures out.Some? ==> out.value == At(old(queues), ip)[0] && queues == PopFront(old(queues), ip)
    {
      if ip !in queues || queues[ip] == [] { return None; }
      out := Some(queues[ip][0]);
      queues := queues[ip := queues[ip][1..]];
    }

    method Size(ip: Ip) returns (n: nat)
      ensures n == |At(queues, ip)|
    {
      if ip !in queues { return 0; }
      n := |queues[ip]|;
    }
  }

  /** The worker queue drops a task it already holds. */
  function Enqueue(q: seq<Tid>, tid: Tid): (r: seq<Tid>)
    ensures NoRepeats(q) ==> NoRepeats(r)
  {
    if tid in q then q else q + [tid]
  }

  /** The agent's queue between heartbeat thread and worker thread. */
  class WorkerQueue {
    var queue: seq<Tid>

    ghost predicate Valid()
      reads this
    {
      NoRepeats(queue)
    }

    /** The heartbeat thread offers a task; `isNew` says whether the worker is woken. */
    method Offer(tid: Tid) returns (isNew: bool)
      requires Valid()
      modifies this
      ensures Valid() && queue == Enqueue(old(queue), tid)
      ensures isNew == (tid !in old(queue))
    {
      var found := false;
      for i := 0 to |queue|
        invariant found == (tid in queue[..i])
        invariant queue == old(queue)
      {
        if queue[i] == tid { found := true; break; }
      }
      if !found { queue := queue + [tid]; }
      isNew := !found;
    }

    /** The worker thread takes the oldest task. */
    method Take() returns (tid: Tid)
      requires Valid() && queue != []
      modifies this
      ensures Valid() && [tid] + queue == old(queue)
    {
      tid := queue[0];
      queue := queue[1..];
    }
  }
}
