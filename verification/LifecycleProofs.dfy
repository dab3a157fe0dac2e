/** What every reachable state of the task life cycle satisfies. */
module LifecycleProofs {
  import opened Sequences
  import opened Wrappers
  import opened TaskStatus
  import opened Queues
  import opened Lifecycle

  // ----- The database -----

  /** The task exists and the insert of its creation row has been tried. */
  predicate Live(st: Store, t: Tid) {
    t in st.db.rows && t !in st.creating
  }

  /** What the database says about one task: its audit trail is true, and empty until it is known. */
  predicate TaskOk(st: Store, t: Tid) {
    if Live(st, t) then TrailEndsAt(TrailOf(st.db.history, t), st.db.rows[t].status)
    else TrailOf(st.db.history, t) == [] && (t in st.db.rows ==> st.db.rows[t].status == PENDING)
  }

  ghost predicate StoreInv(st: Store) {
    && (forall t :: TaskOk(st, t))
    && st.creating <= st.db.rows.Keys
    && (forall i :: 0 <= i < |st.db.history| ==> st.db.history[i].reason != [])
  }

  /** Tasks stay, keep their target, and once known stay known. */
  ghost predicate Extends(st: Store, st': Store) {
    && (forall t :: t in st.db.rows ==> t in st'.db.rows && st'.db.rows[t].targetIp == st.db.rows[t].targetIp)
    && (forall t :: Live(st, t) ==> Live(st', t))
  }

  lemma WriteTaskOk(st: Store, ok: bool, tid: Tid, to: int, reason: string, t: Tid)
    requires TaskOk(st, t) && Live(st, tid)
    ensures TaskOk(Write(st, ok, tid, to, reason), t)
  {
  }

  lemma WriteOk(st: Store, ok: bool, tid: Tid, to: int, reason: string)
    requires StoreInv(st) && Live(st, tid) && reason != []
    ensures StoreInv(Write(st, ok, tid, to, reason)) && Extends(st, Write(st, ok, tid, to, reason))
  {
    forall t ensures TaskOk(Write(st, ok, tid, to, reason), t) {
      WriteTaskOk(st, ok, tid, to, reason, t);
    }
  }

  lemma InsertRowOk(st: Store, tid: Tid, ip: Ip, info: string)
    requires StoreInv(st) && tid !in st.db.rows
    ensures StoreInv(InsertRow(st, tid, ip, info)) && Extends(st, InsertRow(st, tid, ip, info))
  {
    var st' := InsertRow(st, tid, ip, info);
    forall t ensures TaskOk(st', t) {
      assert TaskOk(st, t) && (Live(st', t) <==> Live(st, t));
    }
  }

  lemma InsertHistoryTaskOk(st: Store, tid: Tid, reason: string, ok: bool, t: Tid)
    requires TaskOk(st, t) && tid in st.creating && tid in st.db.rows
    ensures TaskOk(InsertHistory(st, tid, reason, ok), t)
  {
  }

  lemma InsertHistoryOk(st: Store, tid: Tid, reason: string, ok: bool)
    requires reason != [] && StoreInv(st) && tid in st.creating
    ensures StoreInv(InsertHistory(st, tid, reason, ok)) && Extends(st, InsertHistory(st, tid, reason, ok))
    ensures Live(InsertHistory(st, tid, reason, ok), tid)
  {
    forall t ensures TaskOk(InsertHistory(st, tid, reason, ok), t) {
      InsertHistoryTaskOk(st, tid, reason, ok, t);
    }
  }

  /** Only columns outside the state machine changed. */
  ghost predicate SameStatus(st: Store, st': Store) {
    && st'.db.history == st.db.history && st'.creating == st.creating
    && st'.db.rows.Keys == st.db.rows.Keys
    && forall t :: t in st.db.rows ==>
         st'.db.rows[t].status == st.db.rows[t].status && st'.db.rows[t].targetIp == st.db.rows[t].targetIp
  }

  lemma SameStatusOk(st: Store, st': Store)
    requires StoreInv(st) && SameStatus(st, st')
    ensures StoreInv(st') && Extends(st, st')
  {
    forall t ensures TaskOk(st', t) {
      assert TaskOk(st, t) && (Live(st', t) <==> Live(st, t));
    }
  }

  /** A write adds one entry to one task at most. */
  lemma WriteCount(st: Store, ok: bool, tid: Tid, to: int, reason: string, t: Tid, status: int)
    ensures var n := EnterCount(Write(st, ok, tid, to, reason).db.history, t, status);
            && EnterCount(st.db.history, t, status) <= n
            && n <= EnterCount(st.db.history, t, status) + (if t == tid && to == status then 1 else 0)
            && (ok && t == tid && to == status && t in st.db.rows && CppAllowed(st.db.rows[t].status, to)
                ==> n == EnterCount(st.db.history, t, status) + 1)
  {
  }

  // ----- Dispatch, queues and delivery -----

  /** Nobody but its creator knows a task before the insert of its creation row has been tried. */
  ghost predicate ApiInv(st: Store, api: Api) {
    forall t :: t in api.undispatched || t in api.inflight || t in api.awaiting ==> Live(st, t)
  }

  /** First in, first out: per IP, what was popped followed by what is queued is what was pushed. */
  ghost predicate Fifo(server: Server) {
    forall ip :: At(server.pushed, ip) == At(server.popped, ip) + At(server.queues, ip)
  }

  /** No task is ever in the queue of a foreign IP. */
  ghost predicate Placed(st: Store, server: Server) {
    forall ip, t :: t in At(server.pushed, ip) ==> Live(st, t) && st.db.rows[t].targetIp == ip
  }

  /** A heartbeat handler or response speaks of a task popped for the same IP. */
  ghost predicate Delivered(server: Server) {
    forall p :: p in server.starting || p in server.responses ==> p.1 in At(server.popped, p.0)
  }

  ghost predicate ServerInv(st: Store, server: Server) {
    Fifo(server) && Placed(st, server) && Delivered(server)
  }

  /** Whoever was popped for an IP was pushed there, so it is known and meant for that IP. */
  lemma PoppedIsPlaced(st: Store, server: Server, ip: Ip, t: Tid)
    requires Fifo(server) && Placed(st, server) && t in At(server.popped, ip)
    ensures Live(st, t) && st.db.rows[t].targetIp == ip
  {
  }

  function Pushes(st: Store, server: Server, t: Tid): nat
    requires t in st.db.rows
  {
    multiset(At(server.pushed, st.db.rows[t].targetIp))[t]
  }

  function Pops(st: Store, server: Server, t: Tid): nat
    requires t in st.db.rows
  {
    multiset(At(server.popped, st.db.rows[t].targetIp))[t]
  }

  /** Handlers that popped `t` and have not written RUNNING yet. */
  function Starting(st: Store, server: Server, t: Tid): nat
    requires t in st.db.rows
  {
    server.starting[(st.db.rows[t].targetIp, t)]
  }

  ghost predicate CountInv(st: Store, api: Api, server: Server) {
    forall t :: t in st.db.rows ==> Counts(st, api, server, t)
  }

  predicate Counts(st: Store, api: Api, server: Server, t: Tid)
    requires t in st.db.rows
  {
    && Pushes(st, server, t) + api.inflight[t] + api.undispatched[t] <= EnterCount(st.db.history, t, PENDING)
    && EnterCount(st.db.history, t, RUNNING) + Starting(st, server, t) <= Pops(st, server, t)
  }

  lemma PlacedFrame(st: Store, st': Store, server: Server)
    requires Placed(st, server) && Extends(st, st')
    ensures Placed(st', server)
  {
    forall ip, t | t in At(server.pushed, ip) ensures Live(st', t) && st'.db.rows[t].targetIp == ip {
      assert Live(st, t);
    }
  }

  lemma ApiStoreOk(st: Store, api: Api, step: ApiStep)
    requires StoreInv(st) && ApiInv(st, api) && ApiEnabled(st, api, step)
    ensures StoreInv(ApiStore(st, step)) && Extends(st, ApiStore(st, step))
  {
    match step
    case CreateRow(tid, ip, reason) => InsertRowOk(st, tid, ip, reason);
    case CreateHistory(tid, reason, ok) => InsertHistoryOk(st, tid, reason, ok);
    case GiveUpDispatch(tid, ok, reason) => WriteOk(st, ok, tid, FAILED, reason);
    case DispatchFailed(tid, ok, reason) => WriteOk(st, ok, tid, FAILED, reason);
    case Retry(tid, reason, _) =>
      assert TaskOk(st, tid);
      WriteOk(st, true, tid, PENDING, reason);
    case UploadFile(tid, key) => SameStatusOk(st, SetKey(st, tid, key));
    case _ =>
  }

  lemma ApiInvStep(st: Store, api: Api, step: ApiStep)
    requires ApiInv(st, api) && ApiEnabled(st, api, step) && Extends(st, ApiStore(st, step))
    requires step.CreateHistory? || step.Retry? ==> TaskOk(st, step.tid) && step.tid in st.db.rows
    ensures ApiInv(ApiStore(st, step), ApiNext(api, step))
  {
  }

  /** New history rows of an API step: one for a creation or a retry, none entering RUNNING. */
  lemma ApiCount(st: Store, api: Api, step: ApiStep, t: Tid)
    requires ApiEnabled(st, api, step)
    ensures EnterCount(ApiStore(st, step).db.history, t, RUNNING) == EnterCount(st.db.history, t, RUNNING)
    ensures EnterCount(ApiStore(st, step).db.history, t, PENDING)
         == EnterCount(st.db.history, t, PENDING)
            + if (step.CreateHistory? || step.Retry?) && step.tid == t then 1 else 0
  {
    hide EnterCount, Write;
    match step
    case CreateHistory(tid, reason, _) =>
      CountAppend(st.db.history, HistoryRow(tid, NOT_CREATED, PENDING, reason), t, RUNNING);
      CountAppend(st.db.history, HistoryRow(tid, NOT_CREATED, PENDING, reason), t, PENDING);
    case GiveUpDispatch(tid, ok, reason) =>
      WriteCount(st, ok, tid, FAILED, reason, t, RUNNING);
      WriteCount(st, ok, tid, FAILED, reason, t, PENDING);
    case DispatchFailed(tid, ok, reason) =>
      WriteCount(st, ok, tid, FAILED, reason, t, RUNNING);
      WriteCount(st, ok, tid, FAILED, reason, t, PENDING);
    case Retry(tid, reason, _) =>
      WriteCount(st, true, tid, PENDING, reason, t, RUNNING);
      WriteCount(st, true, tid, PENDING, reason, t, PENDING);
    case _ =>
  }

  lemma ApiCounts(st: Store, api: Api, server: Server, step: ApiStep, t: Tid)
    requires ApiEnabled(st, api, step) && Extends(st, ApiStore(st, step)) && t in st.db.rows
    requires Counts(st, api, server, t)
    ensures Counts(ApiStore(st, step), ApiNext(api, step), server, t)
  {
    hide EnterCount, ApiStore, ApiNext;
    ApiCount(st, api, step, t);
    ApiMove(st, api, step, t);
    assert ApiStore(st, step).db.rows[t].targetIp == st.db.rows[t].targetIp;
  }

  /** Only a creation or a retry adds to what is to be dispatched. */
  lemma ApiMove(st: Store, api: Api, step: ApiStep, t: Tid)
    requires ApiEnabled(st, api, step)
    ensures var api' := ApiNext(api, step);
            api'.inflight[t] + api'.undispatched[t]
              <= api.inflight[t] + api.undispatched[t] + if (step.CreateHistory? || step.Retry?) && step.tid == t then 1 else 0
  {
  }

  /** No queue or message mentions a task that is not known. */
  lemma UnknownTask(st: Store, api: Api, server: Server, ip: Ip, t: Tid)
    requires ApiInv(st, api) && ServerInv(st, server) && !Live(st, t)
    ensures api.inflight[t] == 0 && api.undispatched[t] == 0
    ensures multiset(At(server.pushed, ip))[t] == 0 && server.starting[(ip, t)] == 0
  {
  }

  lemma ApiCountsNew(st: Store, api: Api, server: Server, step: ApiStep, t: Tid)
    requires ApiEnabled(st, api, step) && step.CreateRow? && step.tid == t
    requires api.inflight[t] == 0 && api.undispatched[t] == 0
    requires multiset(At(server.pushed, step.ip))[t] == 0 && server.starting[(step.ip, t)] == 0
    requires EnterCount(st.db.history, t, RUNNING) == 0
    ensures Counts(ApiStore(st, step), ApiNext(api, step), server, t)
  {
  }

  lemma {:induction false} NeverEntered(history: seq<HistoryRow>, t: Tid, status: int)
    requires TrailOf(history, t) == []
    ensures EnterCount(history, t, status) == 0
  {
    if history != [] { NeverEntered(history[..|history| - 1], t, status); }
  }

  lemma ApiCountsFresh(st: Store, api: Api, server: Server, step: ApiStep, t: Tid)
    requires ApiInv(st, api) && ServerInv(st, server) && ApiEnabled(st, api, step)
    requires t !in st.db.rows && t in ApiStore(st, step).db.rows && TrailOf(st.db.history, t) == []
    ensures Counts(ApiStore(st, step), ApiNext(api, step), server, t)
  {
    NeverEntered(st.db.history, t, RUNNING);
    UnknownTask(st, api, server, step.ip, t);
    ApiCountsNew(st, api, server, step, t);
  }

  lemma ApiStepOk(st: Store, api: Api, server: Server, step: ApiStep)
    requires ApiInv(st, api) && ServerInv(st, server) && CountInv(st, api, server)
    requires ApiEnabled(st, api, step) && Extends(st, ApiStore(st, step))
    requires forall t :: TaskOk(st, t)
    ensures CountInv(ApiStore(st, step), ApiNext(api, step), server)
  {
    forall t | t in ApiStore(st, step).db.rows ensures Counts(ApiStore(st, step), ApiNext(api, step), server, t) {
      if t in st.db.rows {
        ApiCounts(st, api, server, step, t);
      } else {
        assert TaskOk(st, t);
        ApiCountsFresh(st, api, server, step, t);
      }
    }
  }

  lemma ServerStoreOk(st: Store, api: Api, server: Server, step: ServerStep)
    requires StoreInv(st) && ServerInv(st, server) && ServerEnabled(st, api, server, step)
    ensures StoreInv(ServerStore(st, step)) && Extends(st, ServerStore(st, step))
    ensures ServerStore(st, step).db.rows.Keys == st.db.rows.Keys
  {
    if step.MarkRunning? {
      assert (step.ip, step.tid) in server.starting;
      PoppedIsPlaced(st, server, step.ip, step.tid);
      WriteOk(st, step.ok, step.tid, RUNNING, step.reason);
    }
  }

  lemma FifoStep(st: Store, api: Api, server: Server, step: ServerStep)
    requires Fifo(server) && ServerEnabled(st, api, server, step)
    ensures Fifo(ServerNext(st, api, server, step))
  {
    hide At, PushBack, PopFront;
    var server' := ServerNext(st, api, server, step);
    forall ip ensures At(server'.pushed, ip) == At(server'.popped, ip) + At(server'.queues, ip) {
      if step.DeliverDispatch? {
        PushKeepsFifo(server, st.db.rows[step.tid].targetIp, step.tid, ip);
      } else if step.Pop? {
        PopKeepsFifo(server, step.ip, ip);
      }
    }
  }

  lemma PushKeepsFifo(server: Server, target: Ip, tid: Tid, ip: Ip)
    requires Fifo(server)
    ensures At(PushBack(server.pushed, target, tid), ip) == At(server.popped, ip) + At(PushBack(server.queues, target, tid), ip)
  {
    hide At, PushBack;
    AtPushBack(server.pushed, target, tid, ip);
    AtPushBack(server.queues, target, tid, ip);
    assert At(server.pushed, ip) == At(server.popped, ip) + At(server.queues, ip);
  }

  lemma PopKeepsFifo(server: Server, source: Ip, ip: Ip)
    requires Fifo(server) && At(server.queues, source) != []
    ensures var tid := At(server.queues, source)[0];
            At(server.pushed, ip) == At(PushBack(server.popped, source, tid), ip) + At(PopFront(server.queues, source), ip)
  {
    hide At, PushBack, PopFront;
    AtPushBack(server.popped, source, At(server.queues, source)[0], ip);
    AtPopFront(server.queues, source, ip);
    assert At(server.pushed, ip) == At(server.popped, ip) + At(server.queues, ip);
  }

  lemma PlacedStep(st: Store, api: Api, server: Server, step: ServerStep)
    requires ApiInv(st, api) && Placed(st, server) && ServerEnabled(st, api, server, step)
    ensures Placed(st, ServerNext(st, api, server, step))
  {
    hide At, PushBack, PopFront;
    var server' := ServerNext(st, api, server, step);
    forall ip, t | t in At(server'.pushed, ip) ensures Live(st, t) && st.db.rows[t].targetIp == ip {
      if step.DeliverDispatch? {
        AtPushBack(server.pushed, st.db.rows[step.tid].targetIp, step.tid, ip);
        assert step.tid in api.inflight;
      }
    }
  }

  lemma DeliveredStep(st: Store, api: Api, server: Server, step: ServerStep)
    requires Delivered(server) && ServerEnabled(st, api, server, step)
    ensures Delivered(ServerNext(st, api, server, step))
  {
  }

  lemma DeliverCounts(st: Store, api: Api, server: Server, tid: Tid, t: Tid)
    requires tid in api.inflight && tid in st.db.rows && t in st.db.rows && Counts(st, api, server, t)
    ensures var step := DeliverDispatch(tid);
            Counts(st, ServerApi(api, step), ServerNext(st, api, server, step), t)
  {
  }

  lemma PopCounts(st: Store, api: Api, server: Server, ip: Ip, t: Tid)
    requires At(server.queues, ip) != [] && t in st.db.rows && Counts(st, api, server, t)
    requires At(server.queues, ip)[0] == t ==> st.db.rows[t].targetIp == ip
    ensures Counts(st, api, ServerNext(st, api, server, Pop(ip)), t)
  {
  }

  lemma MarkCounts(st: Store, api: Api, server: Server, step: ServerStep, t: Tid)
    requires step.MarkRunning? && (step.ip, step.tid) in server.starting && step.reason != []
    requires t in st.db.rows && step.tid in st.db.rows && st.db.rows[step.tid].targetIp == step.ip
    requires Counts(st, api, server, t)
    ensures Counts(ServerStore(st, step), api, ServerNext(st, api, server, step), t)
  {
    hide EnterCount;
    WriteCount(st, step.ok, step.tid, RUNNING, step.reason, t, RUNNING);
    WriteCount(st, step.ok, step.tid, RUNNING, step.reason, t, PENDING);
  }

  lemma ServerCounts(st: Store, api: Api, server: Server, step: ServerStep, t: Tid)
    requires ServerInv(st, server) && ServerEnabled(st, api, server, step) && t in st.db.rows
    requires Counts(st, api, server, t) && t in ServerStore(st, step).db.rows
    ensures Counts(ServerStore(st, step), ServerApi(api, step), ServerNext(st, api, server, step), t)
  {
    hide EnterCount;
    match step
    case DeliverDispatch(tid) => DeliverCounts(st, api, server, tid, t);
    case Pop(ip) =>
      assert At(server.pushed, ip)[|At(server.popped, ip)|] == At(server.queues, ip)[0];
      PopCounts(st, api, server, ip, t);
    case MarkRunning(ip, tid, _, _) =>
      assert (ip, tid).1 in At(server.popped, (ip, tid).0);
      PoppedIsPlaced(st, server, ip, tid);
      MarkCounts(st, api, server, step, t);
    case LoseResponse(_, _) =>
  }

  lemma ServerStepOk(st: Store, api: Api, server: Server, step: ServerStep)
    requires ServerInv(st, server) && CountInv(st, api, server)
    requires ServerEnabled(st, api, server, step) && Extends(st, ServerStore(st, step))
    requires ServerStore(st, step).db.rows.Keys == st.db.rows.Keys
    ensures CountInv(ServerStore(st, step), ServerApi(api, step), ServerNext(st, api, server, step))
  {
    forall t | t in ServerStore(st, step).db.rows
      ensures Counts(ServerStore(st, step), ServerApi(api, step), ServerNext(st, api, server, step), t)
    {
      ServerCounts(st, api, server, step, t);
    }
  }

  // ----- Agents -----

  /** Some agent reported success for `t`. */
  ghost predicate Succeeded(agents: Agents, t: Tid) {
    exists ip :: Report(ip, t, []) in agents.reported
  }

  ghost predicate HandlerOk(agents: Agents, h: Handler) {
    && h.reason != []
    && (h.to == FAILED || ((h.to == UPLOADING || h.to == DONE) && Succeeded(agents, h.tid)))
  }

  /** An agent works only on, and speaks only about, tasks popped from its own queue. */
  ghost predicate AgentsInv(server: Server, agents: Agents) {
    ReceivedInv(server, agents) && WorkInv(agents) && ReportInv(agents) && HandlingInv(agents)
  }

  ghost predicate ReceivedInv(server: Server, agents: Agents) {
    forall p :: p in agents.received ==> p.1 in At(server.popped, p.0)
  }

  /** A worker queue holds received tasks, none of them twice. */
  ghost predicate WorkInv(agents: Agents) {
    && (forall ip, t :: t in At(agents.workers, ip) ==> (ip, t) in agents.received)
    && (forall ip :: NoRepeats(At(agents.workers, ip)))
    && (forall p :: p in agents.executing ==> p in agents.received)
  }

  ghost predicate ReportInv(agents: Agents) {
    && (forall r :: r in agents.reported ==> (r.ip, r.tid) in agents.received)
    && (forall r :: r in agents.reports ==> r in agents.reported)
  }

  ghost predicate HandlingInv(agents: Agents) {
    forall h :: h in agents.handling ==> HandlerOk(agents, h) && Received(agents, h.tid)
  }

  ghost predicate Received(agents: Agents, t: Tid) {
    exists ip :: (ip, t) in agents.received
  }

  /** UPLOADING and DONE are reached only after a success report. */
  ghost predicate DoneInv(st: Store, agents: Agents) {
    forall t :: t in st.db.rows && (st.db.rows[t].status == UPLOADING || st.db.rows[t].status == DONE) ==>
      Succeeded(agents, t)
  }

  lemma HandlerLive(st: Store, server: Server, agents: Agents, h: Handler)
    requires ServerInv(st, server) && ReceivedInv(server, agents) && HandlingInv(agents) && h in agents.handling
    ensures Live(st, h.tid)
  {
  }

  lemma WorkStep(server: Server, agents: Agents, step: AgentStep)
    requires WorkInv(agents) && AgentEnabled(server, agents, step)
    ensures WorkInv(AgentNext(server, agents, step))
  {
    var agents' := AgentNext(server, agents, step);
    if step.Receive? || step.Work? {
      var q, q' := At(agents.workers, step.ip), At(agents'.workers, step.ip);
      assert NoRepeats(q) && NoRepeats(q');
      forall t | t in q' ensures (step.ip, t) in agents'.received {
        assert t in q || step.Receive?;
      }
      forall ip | ip != step.ip ensures At(agents'.workers, ip) == At(agents.workers, ip) {
      }
    }
  }

  lemma ReceivedStep(server: Server, agents: Agents, step: AgentStep)
    requires ReceivedInv(server, agents) && Delivered(server) && AgentEnabled(server, agents, step)
    ensures ReceivedInv(server, AgentNext(server, agents, step))
  {
  }

  lemma ReportStep(server: Server, agents: Agents, step: AgentStep)
    requires WorkInv(agents) && ReportInv(agents) && AgentEnabled(server, agents, step)
    ensures ReportInv(AgentNext(server, agents, step))
  {
  }

  /** What was received or reported stays so. */
  lemma EvidenceStays(server: Server, agents: Agents, step: AgentStep, t: Tid)
    requires AgentEnabled(server, agents, step)
    ensures Succeeded(agents, t) ==> Succeeded(AgentNext(server, agents, step), t)
    ensures Received(agents, t) ==> Received(AgentNext(server, agents, step), t)
  {
  }

  lemma HandlingStep(server: Server, agents: Agents, step: AgentStep)
    requires ReportInv(agents) && HandlingInv(agents) && AgentEnabled(server, agents, step)
    ensures HandlingInv(AgentNext(server, agents, step))
  {
    hide HandlerOk, Received, Succeeded;
    var agents' := AgentNext(server, agents, step);
    forall h | h in agents'.handling ensures HandlerOk(agents', h) && Received(agents', h.tid) {
      if h in agents.handling {
        HandlerStays(server, agents, step, h);
      } else if step.HandleReport? {
        NewHandlerOk(server, agents, step, h);
      } else {
        HandlerStays(server, agents, step, step.h);
        NextHandlerOk(server, agents, step, h);
      }
    }
  }

  lemma HandlerStays(server: Server, agents: Agents, step: AgentStep, h: Handler)
    requires AgentEnabled(server, agents, step) && HandlerOk(agents, h) && Received(agents, h.tid)
    ensures var agents' := AgentNext(server, agents, step); HandlerOk(agents', h) && Received(agents', h.tid)
  {
    hide Received, Succeeded, AgentNext;
    EvidenceStays(server, agents, step, h.tid);
  }

  /** The handler a report reaches. */
  lemma NewHandlerOk(server: Server, agents: Agents, step: AgentStep, h: Handler)
    requires ReportInv(agents) && AgentEnabled(server, agents, step) && step.HandleReport?
    requires h == FirstHandler(step.r, step.reason)
    ensures var agents' := AgentNext(server, agents, step); HandlerOk(agents', h) && Received(agents', h.tid)
  {
    assert step.r in agents.reported && (step.r.ip, h.tid) in agents.received;
  }

  /** The handler's second write. */
  lemma NextHandlerOk(server: Server, agents: Agents, step: AgentStep, h: Handler)
    requires AgentEnabled(server, agents, step) && step.HandlerWrite? && h in NextHandlers(step.h, step.next)
    requires var agents' := AgentNext(server, agents, step); HandlerOk(agents', step.h) && Received(agents', step.h.tid)
    ensures var agents' := AgentNext(server, agents, step); HandlerOk(agents', h) && Received(agents', h.tid)
  {
    hide Received, Succeeded, AgentNext;
  }

  lemma AgentStoreOk(st: Store, server: Server, agents: Agents, step: AgentStep)
    requires StoreInv(st) && ServerInv(st, server) && ReceivedInv(server, agents) && HandlingInv(agents)
    requires AgentEnabled(server, agents, step)
    ensures StoreInv(AgentStore(st, step)) && Extends(st, AgentStore(st, step))
  {
    if step.HandlerWrite? {
      HandlerLive(st, server, agents, step.h);
      assert HandlerOk(agents, step.h);
      WriteOk(st, step.ok, step.h.tid, step.h.to, step.h.reason);
    }
  }

  lemma AgentCounts(st: Store, api: Api, server: Server, agents: Agents, step: AgentStep, t: Tid)
    requires AgentEnabled(server, agents, step) && t in st.db.rows && Counts(st, api, server, t)
    requires t in AgentStore(st, step).db.rows
    requires step.HandlerWrite? ==> HandlerOk(agents, step.h)
    ensures Counts(AgentStore(st, step), api, AgentServer(server, step), t)
  {
  }

  lemma AgentStepOk(st: Store, api: Api, server: Server, agents: Agents, step: AgentStep)
    requires HandlingInv(agents) && DoneInv(st, agents)
    requires CountInv(st, api, server) && AgentEnabled(server, agents, step)
    ensures CountInv(AgentStore(st, step), api, AgentServer(server, step))
    ensures DoneInv(AgentStore(st, step), AgentNext(server, agents, step))
  {
    var st', server' := AgentStore(st, step), AgentServer(server, step);
    assert step.HandlerWrite? ==> HandlerOk(agents, step.h);
    forall t | t in st'.db.rows ensures Counts(st', api, server', t) {
      AgentCounts(st, api, server, agents, step, t);
    }
    forall t | t in st'.db.rows && (st'.db.rows[t].status == UPLOADING || st'.db.rows[t].status == DONE)
      ensures Succeeded(AgentNext(server, agents, step), t)
    {
      EvidenceStays(server, agents, step, t);
    }
  }

  // ----- Analysis -----

  /** An entry of a tick's snapshot is still finished, unanalysed and carries its key. */
  ghost predicate SeenOk(st: Store, an: Analysis, seen: Seen) {
    && seen.tid in st.db.rows && st.db.rows[seen.tid].status == DONE
    && st.db.rows[seen.tid].analysis == ANALYSIS_PENDING
    && seen.tid !in an.spawned
    && (seen.key != [] ==> st.db.rows[seen.tid].cosKey == seen.key)
  }

  function Todo(ticker: Ticker): seq<Seen> {
    if ticker.Waiting? then [] else ticker.todo
  }

  ghost predicate AnalysisInv(st: Store, an: Analysis) {
    && (forall t :: t in st.db.rows && st.db.rows[t].analysis != ANALYSIS_PENDING ==>
          st.db.rows[t].status == DONE && st.db.rows[t].cosKey != [])
    && NoRepeats(an.spawned)
    && (forall t :: t in an.spawned ==> t in st.db.rows && st.db.rows[t].analysis != ANALYSIS_PENDING)
    && (forall i :: 0 <= i < |Todo(an.ticker)| ==> SeenOk(st, an, Todo(an.ticker)[i]))
    && (forall i, j :: 0 <= i < j < |Todo(an.ticker)| ==> Todo(an.ticker)[i].tid != Todo(an.ticker)[j].tid)
    && (an.ticker.Analysing? ==> an.ticker.tid in an.spawned)
    && (an.ticker.Analysing? && an.ticker.child == Exited(0) ==>
          an.ticker.tid in st.db.rows && st.db.rows[an.ticker.tid].analysis == ANALYSIS_SUCCESS)
  }

  /** What the other actors may do to the analysis columns: nothing to `analysis`, and keys stay. */
  ghost predicate AnalysisFrame(st: Store, st': Store) {
    && (forall t :: t in st.db.rows ==>
          && t in st'.db.rows && st'.db.rows[t].analysis == st.db.rows[t].analysis
          && (st.db.rows[t].status == DONE ==> st'.db.rows[t].status == DONE)
          && (st.db.rows[t].cosKey != [] ==> st'.db.rows[t].cosKey == st.db.rows[t].cosKey))
    && (forall t :: t in st'.db.rows && t !in st.db.rows ==> st'.db.rows[t].analysis == ANALYSIS_PENDING)
  }

  lemma AnalysisFrameOk(st: Store, st': Store, an: Analysis)
    requires AnalysisInv(st, an) && AnalysisFrame(st, st')
    ensures AnalysisInv(st', an)
  {
  }

  lemma AnalysisStoreOk(st: Store, an: Analysis, step: AnalysisStep)
    requires StoreInv(st) && AnalysisEnabled(st, an, step)
    ensures SameStatus(st, AnalysisStore(st, an, step))
    ensures StoreInv(AnalysisStore(st, an, step)) && Extends(st, AnalysisStore(st, an, step))
  {
    SameStatusOk(st, AnalysisStore(st, an, step));
  }

  lemma AnalysisStepOk(st: Store, an: Analysis, step: AnalysisStep)
    requires AnalysisInv(st, an) && AnalysisEnabled(st, an, step)
    ensures AnalysisInv(AnalysisStore(st, an, step), AnalysisNext(st, an, step))
  {
    var st', an' := AnalysisStore(st, an, step), AnalysisNext(st, an, step);
    var todo, todo' := Todo(an.ticker), Todo(an'.ticker);
    forall i | 0 <= i < |todo'| ensures SeenOk(st', an', todo'[i]) {
      SeenStep(st, an, step, i);
    }
    if step.Spawn? {
      assert SeenOk(st, an, todo[0]);
    }
  }

  lemma SeenStep(st: Store, an: Analysis, step: AnalysisStep, i: nat)
    requires AnalysisInv(st, an) && AnalysisEnabled(st, an, step) && i < |Todo(AnalysisNext(st, an, step).ticker)|
    ensures SeenOk(AnalysisStore(st, an, step), AnalysisNext(st, an, step), Todo(AnalysisNext(st, an, step).ticker)[i])
  {
    var todo := Todo(an.ticker);
    if !step.Tick? {
      var shift := if step.SkipTask? || step.Spawn? then 1 else 0;
      assert Todo(AnalysisNext(st, an, step).ticker) == todo[shift..];
      assert SeenOk(st, an, todo[i + shift]);
      assert step.Spawn? ==> todo[0].tid != todo[i + 1].tid;
    }
  }

  lemma WriteFrame(st: Store, ok: bool, tid: Tid, to: int, reason: string)
    ensures AnalysisFrame(st, Write(st, ok, tid, to, reason))
  {
  }

  /** Status writes, creations and uploads leave the analysis columns alone. */
  lemma OthersFrame(s: State, step: Step)
    requires Enabled(s, step) && !step.AnalysisAct?
    ensures AnalysisFrame(s.store, Apply(s, step).store)
  {
    hide AnalysisFrame, Write, InsertRow, InsertHistory, SetKey;
    var st := s.store;
    NoFrame(st);
    match step
    case ApiAct(a) =>
      match a {
        case GiveUpDispatch(tid, ok, reason) => WriteFrame(st, ok, tid, FAILED, reason);
        case DispatchFailed(tid, ok, reason) => WriteFrame(st, ok, tid, FAILED, reason);
        case Retry(tid, reason, _) => WriteFrame(st, true, tid, PENDING, reason);
        case CreateRow(tid, ip, reason) => InsertFrame(st, tid, ip, reason);
        case CreateHistory(tid, reason, ok) => HistoryFrame(st, tid, reason, ok);
        case UploadFile(tid, key) => KeyFrame(st, tid, key);
        case _ =>
      }
    case ServerAct(b) => if b.MarkRunning? { WriteFrame(st, b.ok, b.tid, RUNNING, b.reason); }
    case AgentAct(c) => if c.HandlerWrite? { WriteFrame(st, c.ok, c.h.tid, c.h.to, c.h.reason); }
  }

  lemma NoFrame(st: Store)
    ensures AnalysisFrame(st, st)
  {
  }

  lemma InsertFrame(st: Store, tid: Tid, ip: Ip, reason: string)
    requires tid !in st.db.rows
    ensures AnalysisFrame(st, InsertRow(st, tid, ip, reason))
  {
  }

  lemma HistoryFrame(st: Store, tid: Tid, reason: string, ok: bool)
    ensures AnalysisFrame(st, InsertHistory(st, tid, reason, ok))
  {
  }

  lemma KeyFrame(st: Store, tid: Tid, key: string)
    ensures AnalysisFrame(st, SetKey(st, tid, key))
  {
  }

  // ----- The whole system -----

  ghost predicate Inv(s: State) {
    && StoreInv(s.store) && ApiInv(s.store, s.api) && ServerInv(s.store, s.server)
    && CountInv(s.store, s.api, s.server)
    && AgentsInv(s.server, s.agents) && DoneInv(s.store, s.agents)
    && AnalysisInv(s.store, s.analysis)
  }

  lemma ApiCoreOk(st: Store, api: Api, server: Server, agents: Agents, a: ApiStep)
    requires StoreInv(st) && ApiInv(st, api) && ServerInv(st, server) && CountInv(st, api, server)
    requires DoneInv(st, agents) && ApiEnabled(st, api, a)
    ensures var st', api' := ApiStore(st, a), ApiNext(api, a);
            && StoreInv(st') && ApiInv(st', api') && ServerInv(st', server) && CountInv(st', api', server)
            && DoneInv(st', agents)
  {
    ApiStoreOk(st, api, a);
    assert a.CreateHistory? || a.Retry? ==> TaskOk(st, a.tid) && a.tid in st.db.rows;
    ApiInvStep(st, api, a);
    PlacedFrame(st, ApiStore(st, a), server);
    ApiStepOk(st, api, server, a);
    ApiDone(st, api, agents, a);
  }

  lemma ApiActOk(s: State, a: ApiStep)
    requires Inv(s) && Enabled(s, ApiAct(a))
    ensures Inv(Apply(s, ApiAct(a)))
  {
    hide StoreInv, ApiInv, ServerInv, CountInv, AgentsInv, DoneInv, AnalysisInv;
    ApiCoreOk(s.store, s.api, s.server, s.agents, a);
    OthersFrame(s, ApiAct(a));
    AnalysisFrameOk(s.store, ApiStore(s.store, a), s.analysis);
  }

  /** No API step enters UPLOADING or DONE. */
  lemma ApiDone(st: Store, api: Api, agents: Agents, a: ApiStep)
    requires DoneInv(st, agents) && ApiEnabled(st, api, a)
    ensures DoneInv(ApiStore(st, a), agents)
  {
  }

  lemma ServerDone(st: Store, agents: Agents, b: ServerStep)
    requires DoneInv(st, agents)
    ensures DoneInv(ServerStore(st, b), agents)
  {
  }

  lemma ServerApiInv(st: Store, st': Store, api: Api, b: ServerStep)
    requires ApiInv(st, api) && Extends(st, st')
    ensures ApiInv(st', ServerApi(api, b))
  {
  }

  lemma ServerInvStep(st: Store, api: Api, server: Server, b: ServerStep)
    requires ApiInv(st, api) && ServerInv(st, server) && ServerEnabled(st, api, server, b)
    requires Extends(st, ServerStore(st, b))
    ensures ServerInv(ServerStore(st, b), ServerNext(st, api, server, b))
  {
    FifoStep(st, api, server, b);
    PlacedStep(st, api, server, b);
    PlacedFrame(st, ServerStore(st, b), ServerNext(st, api, server, b));
    DeliveredStep(st, api, server, b);
  }

  lemma ServerAgentsInv(st: Store, api: Api, server: Server, agents: Agents, b: ServerStep)
    requires ServerEnabled(st, api, server, b) && AgentsInv(server, agents)
    ensures AgentsInv(ServerNext(st, api, server, b), agents)
  {
  }

  lemma ServerAnalysisInv(st: Store, an: Analysis, b: ServerStep)
    requires AnalysisInv(st, an)
    ensures AnalysisInv(ServerStore(st, b), an)
  {
  }

  lemma ServerCoreOk(st: Store, api: Api, server: Server, b: ServerStep)
    requires StoreInv(st) && ApiInv(st, api) && ServerInv(st, server) && CountInv(st, api, server)
    requires ServerEnabled(st, api, server, b)
    ensures var st', api', server' := ServerStore(st, b), ServerApi(api, b), ServerNext(st, api, server, b);
            StoreInv(st') && ApiInv(st', api') && ServerInv(st', server') && CountInv(st', api', server')
  {
    ServerStoreOk(st, api, server, b);
    ServerInvStep(st, api, server, b);
    ServerApiInv(st, ServerStore(st, b), api, b);
    ServerStepOk(st, api, server, b);
  }

  lemma ServerActOk(s: State, b: ServerStep)
    requires Inv(s) && Enabled(s, ServerAct(b))
    ensures Inv(Apply(s, ServerAct(b)))
  {
    hide StoreInv, ApiInv, CountInv, DoneInv, AnalysisInv;
    ServerCoreOk(s.store, s.api, s.server, b);
    ServerAgentsInv(s.store, s.api, s.server, s.agents, b);
    ServerDone(s.store, s.agents, b);
    ServerAnalysisInv(s.store, s.analysis, b);
  }

  lemma AgentCoreOk(st: Store, api: Api, server: Server, agents: Agents, c: AgentStep)
    requires StoreInv(st) && ApiInv(st, api) && ServerInv(st, server) && CountInv(st, api, server)
    requires AgentsInv(server, agents) && DoneInv(st, agents) && AgentEnabled(server, agents, c)
    ensures var st', server' := AgentStore(st, c), AgentServer(server, c);
            && StoreInv(st') && ApiInv(st', api) && ServerInv(st', server') && CountInv(st', api, server')
            && DoneInv(st', AgentNext(server, agents, c))
  {
    AgentStoreOk(st, server, agents, c);
    PlacedFrame(st, AgentStore(st, c), server);
    AgentServerInv(AgentStore(st, c), server, c);
    AgentStepOk(st, api, server, agents, c);
    AgentApiInv(st, AgentStore(st, c), api);
  }

  lemma AgentServerInv(st: Store, server: Server, c: AgentStep)
    requires ServerInv(st, server)
    ensures ServerInv(st, AgentServer(server, c))
  {
  }

  lemma AgentApiInv(st: Store, st': Store, api: Api)
    requires ApiInv(st, api) && Extends(st, st')
    ensures ApiInv(st', api)
  {
  }

  lemma AgentsStep(st: Store, server: Server, agents: Agents, c: AgentStep)
    requires AgentsInv(server, agents) && ServerInv(st, server) && AgentEnabled(server, agents, c)
    ensures AgentsInv(AgentServer(server, c), AgentNext(server, agents, c))
  {
    WorkStep(server, agents, c);
    ReceivedStep(server, agents, c);
    ReportStep(server, agents, c);
    HandlingStep(server, agents, c);
  }

  lemma AgentAnalysisInv(st: Store, an: Analysis, c: AgentStep)
    requires AnalysisInv(st, an)
    ensures AnalysisInv(AgentStore(st, c), an)
  {
  }

  lemma AgentActOk(s: State, c: AgentStep)
    requires Inv(s) && Enabled(s, AgentAct(c))
    ensures Inv(Apply(s, AgentAct(c)))
  {
    hide StoreInv, ApiInv, ServerInv, CountInv, AgentsInv, DoneInv, AnalysisInv;
    AgentCoreOk(s.store, s.api, s.server, s.agents, c);
    AgentsStep(s.store, s.server, s.agents, c);
    AgentAnalysisInv(s.store, s.analysis, c);
  }

  /** A change outside the state machine's columns disturbs nobody else. */
  lemma SameStatusFrame(st: Store, st': Store, api: Api, server: Server, agents: Agents)
    requires SameStatus(st, st') && Extends(st, st')
    requires ApiInv(st, api) && ServerInv(st, server) && CountInv(st, api, server) && DoneInv(st, agents)
    ensures ApiInv(st', api) && ServerInv(st', server) && CountInv(st', api, server) && DoneInv(st', agents)
  {
    AgentApiInv(st, st', api);
    PlacedFrame(st, st', server);
    forall t | t in st'.db.rows ensures Counts(st', api, server, t) {
      assert Counts(st, api, server, t);
    }
  }

  lemma AnalysisCoreOk(st: Store, api: Api, server: Server, agents: Agents, an: Analysis, d: AnalysisStep)
    requires StoreInv(st) && ApiInv(st, api) && ServerInv(st, server) && CountInv(st, api, server)
    requires DoneInv(st, agents) && AnalysisEnabled(st, an, d)
    ensures var st' := AnalysisStore(st, an, d);
            && StoreInv(st') && ApiInv(st', api) && ServerInv(st', server) && CountInv(st', api, server)
            && DoneInv(st', agents)
  {
    AnalysisStoreOk(st, an, d);
    SameStatusFrame(st, AnalysisStore(st, an, d), api, server, agents);
  }

  lemma AnalysisActOk(s: State, d: AnalysisStep)
    requires Inv(s) && Enabled(s, AnalysisAct(d))
    ensures Inv(Apply(s, AnalysisAct(d)))
  {
    hide StoreInv, ApiInv, ServerInv, CountInv, AgentsInv, DoneInv, AnalysisInv;
    AnalysisCoreOk(s.store, s.api, s.server, s.agents, s.analysis, d);
    AnalysisStepOk(s.store, s.analysis, d);
  }

  /** Every step of every actor keeps the whole invariant. */
  lemma StepOk(s: State, step: Step)
    requires Inv(s) && Enabled(s, step)
    ensures Inv(Apply(s, step))
  {
    hide Inv;
    match step
    case ApiAct(a) => ApiActOk(s, a);
    case ServerAct(b) => ServerActOk(s, b);
    case AgentAct(c) => AgentActOk(s, c);
    case AnalysisAct(d) => AnalysisActOk(s, d);
  }

  lemma StartOk()
    ensures Inv(Start())
  {
  }

  lemma {:induction false} Reachable(steps: seq<Step>)
    requires Exec(steps).Some?
    ensures Inv(Exec(steps).value)
  {
    hide Inv, Enabled, Apply;
    if steps == [] {
      StartOk();
    } else {
      Reachable(steps[..|steps| - 1]);
      StepOk(Exec(steps[..|steps| - 1]).value, steps[|steps| - 1]);
    }
  }

  // ----- Main results: every statement is about every interleaving -----

  lemma ReachableStore(steps: seq<Step>, s: State)
    requires Exec(steps) == Some(s)
    ensures StoreInv(s.store)
  {
    Reachable(steps);
  }

  lemma ReachableDelivery(steps: seq<Step>, s: State)
    requires Exec(steps) == Some(s)
    ensures ServerInv(s.store, s.server) && CountInv(s.store, s.api, s.server)
  {
    Reachable(steps);
  }

  lemma ReachableAgents(steps: seq<Step>, s: State)
    requires Exec(steps) == Some(s)
    ensures ServerInv(s.store, s.server) && AgentsInv(s.server, s.agents) && DoneInv(s.store, s.agents)
  {
    Reachable(steps);
  }

  lemma TrailFacts(trail: seq<HistoryRow>, status: int)
    requires TrailEndsAt(trail, status)
    ensures trail[0].from == NOT_CREATED && trail[0].to == PENDING
    ensures forall i :: 0 < i < |trail| ==> trail[i].from == trail[i - 1].to && CppAllowed(trail[i].from, trail[i].to)
    ensures |trail| <= 4 * (Retries(trail) + 1)
    ensures status == DONE ==>
              |trail| >= 4 && Entered(trail)[|trail| - 4..] == [PENDING, RUNNING, UPLOADING, DONE]
  {
    TrailLengthBound(trail);
    if status == DONE { DoneTrailSuffix(trail); }
  }

  predicate Lived(history: seq<HistoryRow>, t: Tid) {
    TrailOf(history, t) != [] ==> Chain(TrailOf(history, t))
  }

  /** A shorter log is a shorter life, and only the first row of a life is a creation row. */
  lemma LivedBefore(history: seq<HistoryRow>, t: Tid)
    requires history != [] && Lived(history, t)
    ensures var init, last := history[..|history| - 1], history[|history| - 1];
            Lived(init, t) && (last.tid == t ==> (last.from == NOT_CREATED <==> TrailOf(init, t) == []))
  {
    var init, last := history[..|history| - 1], history[|history| - 1];
    var before, life := TrailOf(init, t), TrailOf(history, t);
    TrailTurn(history, t);
    if last.tid == t {
      assert life[|before|] == last;
      assert forall i :: 0 <= i < |before| ==> before[i] == life[i];
    }
  }

  lemma TableTurn(history: seq<HistoryRow>, unlogged: set<Tid>)
    requires history != []
    ensures var init, last := Table(history[..|history| - 1], unlogged), history[|history| - 1];
            Table(history, unlogged) == if last.from == NOT_CREATED && last.tid in unlogged then init else init + [last]
  {
  }

  lemma TrailTurn(history: seq<HistoryRow>, t: Tid)
    requires history != []
    ensures var init, last := history[..|history| - 1], history[|history| - 1];
            TrailOf(history, t) == if last.tid == t then TrailOf(init, t) + [last] else TrailOf(init, t)
  {
  }

  /** A life as the table tells it. */
  function Told(life: seq<HistoryRow>, refused: bool): seq<HistoryRow> {
    if refused && life != [] then life[1..] else life
  }

  lemma ToldTurn(life: seq<HistoryRow>, row: HistoryRow, refused: bool)
    ensures Told(life + [row], refused) == if refused && life == [] then [] else Told(life, refused) + [row]
  {
  }

  /** The table holds a task's life, without its first row if that is missing. */
  lemma {:induction false} TrailOfTable(history: seq<HistoryRow>, unlogged: set<Tid>, t: Tid)
    requires Lived(history, t)
    ensures TrailOf(Table(history, unlogged), t) == Told(TrailOf(history, t), t in unlogged)
  {
    if history != [] {
      hide Lived, TrailOf, Table, Told;
      var init, last := history[..|history| - 1], history[|history| - 1];
      LivedBefore(history, t);
      TrailOfTable(init, unlogged, t);
      TableTurn(history, unlogged);
      TrailOfAppend(Table(init, unlogged), last, t);
      TrailTurn(history, t);
      ToldTurn(TrailOf(init, t), last, t in unlogged);
    }
  }

  lemma {:induction false} CountOfTable(history: seq<HistoryRow>, unlogged: set<Tid>, t: Tid, status: int)
    requires Lived(history, t)
    ensures EnterCount(history, t, status) == EnterCount(Table(history, unlogged), t, status)
              + if t in unlogged && TrailOf(history, t) != [] && status == PENDING then 1 else 0
  {
    if history != [] {
      hide Lived, Table;
      var init, last := history[..|history| - 1], history[|history| - 1];
      LivedBefore(history, t);
      CountOfTable(init, unlogged, t, status);
      TableTurn(history, unlogged);
      CountAppend(Table(init, unlogged), last, t, status);
    }
  }

  lemma CountAppend(history: seq<HistoryRow>, row: HistoryRow, t: Tid, status: int)
    ensures EnterCount(history + [row], t, status)
         == EnterCount(history, t, status) + if row.tid == t && row.to == status then 1 else 0
  {
  }

  lemma {:induction false} TableIsLogged(history: seq<HistoryRow>, unlogged: set<Tid>)
    ensures forall i :: 0 <= i < |Table(history, unlogged)| ==> Table(history, unlogged)[i] in history
  {
    if history != [] { TableIsLogged(history[..|history| - 1], unlogged); }
  }

  /** The insert of the task's creation row was refused at some point of the run. */
  predicate CreationRefused(steps: seq<Step>, t: Tid) {
    exists i :: 0 <= i < |steps| && Refuses(steps[i], t)
  }

  predicate Refuses(step: Step, t: Tid) {
    step.ApiAct? && step.a.CreateHistory? && step.a.tid == t && !step.a.ok
  }

  lemma UnloggedStep(s: State, step: Step)
    requires Enabled(s, step)
    ensures forall t :: t in Apply(s, step).store.unlogged <==> t in s.store.unlogged || Refuses(step, t)
  {
    hide Update;
  }

  lemma {:induction false} UnloggedMeans(steps: seq<Step>, t: Tid)
    requires Exec(steps).Some?
    ensures t in Exec(steps).value.store.unlogged <==> CreationRefused(steps, t)
  {
    hide Apply, Enabled, Refuses;
    if steps != [] {
      var init, last := steps[..|steps| - 1], steps[|steps| - 1];
      UnloggedMeans(init, t);
      UnloggedStep(Exec(init).value, last);
      if i :| 0 <= i < |init| && Refuses(init[i], t) { assert Refuses(steps[i], t); }
    }
  }

  /**
   Audit chain over both writers: the life of a task starts with its creation, each row starts
   where the previous one ended, every later edge is allowed, the last row is the task's status,
   every row gives a reason, and a life has at most four rows per attempt.  The history table
   holds that life, less the first row if its insert was refused.
   */
  lemma AuditTheorem(steps: seq<Step>, s: State, t: Tid)
    requires Exec(steps) == Some(s) && t in s.store.db.rows && t !in s.store.creating
    ensures var db, table := s.store.db, Table(s.store.db.history, s.store.unlogged);
            var trail := TrailOf(db.history, t);
            && trail != [] && TrailOf(table, t) == Told(trail, CreationRefused(steps, t))
            && trail[0].from == NOT_CREATED && trail[0].to == PENDING
            && (forall i :: 0 < i < |trail| ==>
                  trail[i].from == trail[i - 1].to && CppAllowed(trail[i].from, trail[i].to))
            && trail[|trail| - 1].to == db.rows[t].status
            && |trail| <= 4 * (Retries(trail) + 1)
            && (db.rows[t].status == DONE ==>
                  |trail| >= 4 && Entered(trail)[|trail| - 4..] == [PENDING, RUNNING, UPLOADING, DONE])
            && (forall i :: 0 <= i < |table| ==> table[i].reason != [])
  {
    hide Table;
    ReachableStore(steps, s);
    assert TaskOk(s.store, t);
    TrailFacts(TrailOf(s.store.db.history, t), s.store.db.rows[t].status);
    TrailOfTable(s.store.db.history, s.store.unlogged, t);
    UnloggedMeans(steps, t);
    TableIsLogged(s.store.db.history, s.store.unlogged);
  }

  /** The table tells a task's life if and only if the insert of its creation row was tried and not refused. */
  lemma AuditExactly(steps: seq<Step>, s: State, t: Tid)
    requires Exec(steps) == Some(s) && t in s.store.db.rows
    ensures TrailEndsAt(TrailOf(Table(s.store.db.history, s.store.unlogged), t), s.store.db.rows[t].status)
       <==> t !in s.store.creating && !CreationRefused(steps, t)
  {
    hide Table;
    ReachableStore(steps, s);
    assert TaskOk(s.store, t);
    TrailOfTable(s.store.db.history, s.store.unlogged, t);
    UnloggedMeans(steps, t);
  }

  /** Creating any task can leave it dispatched and without a history. */
  lemma CreationLost(t: Tid, ip: Ip, reason: string)
    requires reason != []
    ensures var steps := [ApiAct(CreateRow(t, ip, reason)), ApiAct(CreateHistory(t, reason, false))];
            && Exec(steps).Some? && t in Exec(steps).value.api.undispatched
            && TrailOf(Table(Exec(steps).value.store.db.history, Exec(steps).value.store.unlogged), t) == []
  {
    var one, two := ApiAct(CreateRow(t, ip, reason)), ApiAct(CreateHistory(t, reason, false));
    assert [one, two][..1] == [one] && [one][..0] == [];
    assert Exec([one]) == Some(Apply(Start(), one));
    var row := HistoryRow(t, NOT_CREATED, PENDING, reason);
    assert Exec([one, two]).value.store.db.history == [row];
    assert Table([row], {t}) == [];
  }

  /** Delivery counting: a task runs at most as often as it is popped, pushed, and made pending. */
  lemma DeliveryTheorem(steps: seq<Step>, s: State, t: Tid)
    requires Exec(steps) == Some(s) && t in s.store.db.rows
    ensures var table := Table(s.store.db.history, s.store.unlogged);
            && EnterCount(table, t, RUNNING) <= Pops(s.store, s.server, t)
            && Pops(s.store, s.server, t) <= Pushes(s.store, s.server, t)
            && Pushes(s.store, s.server, t) <= EnterCount(table, t, PENDING) + if CreationRefused(steps, t) then 1 else 0
  {
    hide Table, CreationRefused;
    ReachableStore(steps, s);
    assert TaskOk(s.store, t);
    CountOfTable(s.store.db.history, s.store.unlogged, t, RUNNING);
    CountOfTable(s.store.db.history, s.store.unlogged, t, PENDING);
    UnloggedMeans(steps, t);
    ReachableDelivery(steps, s);
    assert Counts(s.store, s.api, s.server, t);
    var ip := s.store.db.rows[t].targetIp;
    assert At(s.server.pushed, ip) == At(s.server.popped, ip) + At(s.server.queues, ip);
  }

  lemma QueueFacts(st: Store, server: Server, agents: Agents, ip: Ip, t: Tid)
    requires Placed(st, server) && ReceivedInv(server, agents)
    ensures t in At(server.pushed, ip) ==> t in st.db.rows && st.db.rows[t].targetIp == ip
    ensures (ip, t) in agents.received ==> t in At(server.popped, ip)
  {
    assert t in At(server.pushed, ip) ==> Live(st, t);
    assert (ip, t) in agents.received ==> (ip, t).1 in At(server.popped, (ip, t).0);
  }

  /** Queues are first in, first out per IP, never deliver to a foreign IP, and agents hold no task twice. */
  lemma QueueTheorem(steps: seq<Step>, s: State, ip: Ip, t: Tid)
    requires Exec(steps) == Some(s)
    ensures && At(s.server.pushed, ip) == At(s.server.popped, ip) + At(s.server.queues, ip)
            && (t in At(s.server.pushed, ip) ==> t in s.store.db.rows && s.store.db.rows[t].targetIp == ip)
            && ((ip, t) in s.agents.received ==> t in At(s.server.popped, ip))
            && NoRepeats(At(s.agents.workers, ip))
  {
    ReachableAgents(steps, s);
    QueueFacts(s.store, s.server, s.agents, ip, t);
  }

  /** A task is DONE only if the agent at its target IP received it and reported an empty error. */
  lemma DoneTheorem(steps: seq<Step>, s: State, t: Tid)
    requires Exec(steps) == Some(s) && t in s.store.db.rows && s.store.db.rows[t].status == DONE
    ensures var ip := s.store.db.rows[t].targetIp;
            Report(ip, t, []) in s.agents.reported && (ip, t) in s.agents.received && t in At(s.server.popped, ip)
  {
    ReachableAgents(steps, s);
    assert Succeeded(s.agents, t);
    var ip :| Report(ip, t, []) in s.agents.reported;
    assert (ip, t) in s.agents.received;
    assert (ip, t).1 in At(s.server.popped, (ip, t).0);
    PoppedIsPlaced(s.store, s.server, ip, t);
  }

  lemma StepKeepsDone(s: State, step: Step, t: Tid)
    requires Enabled(s, step) && t in s.store.db.rows && s.store.db.rows[t].status == DONE
    ensures var st := Apply(s, step).store; t in st.db.rows && st.db.rows[t].status == DONE
  {
  }

  /** DONE is final along every run. */
  lemma {:induction false} DoneForever(steps: seq<Step>, more: seq<Step>, t: Tid)
    requires Exec(steps).Some? && Exec(steps + more).Some?
    requires t in Exec(steps).value.store.db.rows && Exec(steps).value.store.db.rows[t].status == DONE
    ensures var st := Exec(steps + more).value.store; t in st.db.rows && st.db.rows[t].status == DONE
  {
    if more == [] {
      assert steps + more == steps;
    } else {
      var fewer := more[..|more| - 1];
      assert (steps + more)[..|steps + more| - 1] == steps + fewer;
      DoneForever(steps, fewer, t);
      StepKeepsDone(Exec(steps + fewer).value, more[|more| - 1], t);
    }
  }

  lemma ReachableAnalysis(steps: seq<Step>, s: State)
    requires Exec(steps) == Some(s)
    ensures AnalysisInv(s.store, s.analysis)
  {
    Reachable(steps);
  }

  /** Analysis starts only on finished tasks with data, and at most once per task. */
  lemma AnalysisTheorem(steps: seq<Step>, s: State, t: Tid)
    requires Exec(steps) == Some(s)
    ensures && NoRepeats(s.analysis.spawned)
            && (t in s.store.db.rows && s.store.db.rows[t].analysis != ANALYSIS_PENDING ==>
                  s.store.db.rows[t].status == DONE && s.store.db.rows[t].cosKey != [])
            && (t in s.analysis.spawned ==> t in s.store.db.rows && s.store.db.rows[t].analysis != ANALYSIS_PENDING)
  {
    ReachableAnalysis(steps, s);
  }

  lemma ReapVerdict(st: Store, an: Analysis, info: string)
    requires AnalysisInv(st, an) && AnalysisEnabled(st, an, Reap(true, info))
    ensures var rows := AnalysisStore(st, an, Reap(true, info)).db.rows;
            && an.ticker.tid in rows
            && rows[an.ticker.tid].analysis == if an.ticker.child.code == 0 then ANALYSIS_SUCCESS else ANALYSIS_FAILED
  {
  }

  /** When the scheduler has reaped the child and its write succeeds, the status tells how the child ended. */
  lemma AnalysisVerdict(steps: seq<Step>, s: State, info: string)
    requires Exec(steps) == Some(s) && AnalysisEnabled(s.store, s.analysis, Reap(true, info))
    ensures var t := s.analysis.ticker.tid;
            var rows := Apply(s, AnalysisAct(Reap(true, info))).store.db.rows;
            && t in rows
            && rows[t].analysis == if s.analysis.ticker.child.code == 0 then ANALYSIS_SUCCESS else ANALYSIS_FAILED
  {
    ReachableAnalysis(steps, s);
    ReapVerdict(s.store, s.analysis, info);
  }
}
