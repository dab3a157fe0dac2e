/**
 The life of a task across apiserver, drop_server, the agents and the analysis scheduler.

 Every RPC is a message that may be delivered late or not at all, every database write of a
 handler may fail, and all actors interleave freely.  The Go and the C++ status updates are
 the atomic `Update` of module TaskStatus; module PgStore justifies that for the C++ one.
 */
module Lifecycle {
  import opened Wrappers
  import opened TaskStatus
  import opened Queues

  const ANALYSIS_PENDING := 0
  const ANALYSIS_RUNNING := 1
  const ANALYSIS_SUCCESS := 2
  const ANALYSIS_FAILED := 3

  // ----- State -----

  /**
   The database, and the tasks whose row exists but whose creation insert has not been tried yet.
   The insert's error is ignored; here `db.history` logs the creation all the same, `unlogged`
   holds the tasks whose insert failed, and `Table` is what the history table really holds.
   */
  datatype Store = Store(db: Db, creating: set<Tid>, unlogged: set<Tid>)

  /** apiserver: tasks to dispatch, CreateTask RPCs on the wire, dispatchers waiting for an answer. */
  datatype Api = Api(undispatched: multiset<Tid>, inflight: multiset<Tid>, awaiting: multiset<Tid>)

  /**
   drop_server: per-IP queues, heartbeat handlers that popped a task, heartbeat responses on
   the wire; `pushed` and `popped` record what went in and out of each queue.
   */
  datatype Server = Server(
    queues: map<Ip, seq<Tid>>, starting: multiset<(Ip, Tid)>, responses: multiset<(Ip, Tid)>,
    pushed: map<Ip, seq<Tid>>, popped: map<Ip, seq<Tid>>)

  /** The result message an agent sends after one execution; an empty error means success. */
  datatype Report = Report(ip: Ip, tid: Tid, error: string)

  /** A NotifyResult handler about to write status `to`. */
  datatype Handler = Handler(tid: Tid, to: int, reason: string)

  /**
   The agents: worker queues, executions in progress, reports on the wire and the handlers they
   reach; `received` and `reported` record what the agents got and said.
   */
  datatype Agents = Agents(
    workers: map<Ip, seq<Tid>>, executing: multiset<(Ip, Tid)>, reports: multiset<Report>,
    handling: multiset<Handler>, received: set<(Ip, Tid)>, reported: set<Report>)

  /** A task as the analysis tick saw it. */
  datatype Seen = Seen(tid: Tid, key: string)

  datatype Child = Busy | Exited(code: int)

  /** The analysis scheduler: it works through one snapshot, waiting for each child process. */
  datatype Ticker = Waiting | Working(todo: seq<Seen>) | Analysing(tid: Tid, child: Child, todo: seq<Seen>)

  datatype Analysis = Analysis(ticker: Ticker, spawned: seq<Tid>)

  datatype State = State(store: Store, api: Api, server: Server, agents: Agents, analysis: Analysis)

  function Start(): State {
    State(Store(Db(map[], []), {}, {}), Api(multiset{}, multiset{}, multiset{}),
          Server(map[], multiset{}, multiset{}, map[], map[]),
          Agents(map[], multiset{}, multiset{}, multiset{}, {}, {}), Analysis(Waiting, []))
  }

  // ----- Steps -----
  // `ok` says whether the database write of a step takes effect; every write names a non-empty reason.
  // A write may take effect and still be reported as failed: a retry then dispatches nothing, as it
  // does without a gRPC connection, and the scheduler starts no child.

  datatype ApiStep =
    | CreateRow(tid: Tid, ip: Ip, reason: string)
    | CreateHistory(tid: Tid, reason: string, ok: bool)
    | GiveUpDispatch(tid: Tid, ok: bool, reason: string)
    | SendDispatch(tid: Tid)
    | LoseDispatch(tid: Tid)
    | DispatchAnswered(tid: Tid)
    | DispatchFailed(tid: Tid, ok: bool, reason: string)
    | Retry(tid: Tid, reason: string, dispatches: bool)
    | UploadFile(tid: Tid, key: string)

  datatype ServerStep =
    | DeliverDispatch(tid: Tid)
    | Pop(ip: Ip)
    | MarkRunning(ip: Ip, tid: Tid, ok: bool, reason: string)
    | LoseResponse(ip: Ip, tid: Tid)

  datatype AgentStep =
    | Receive(ip: Ip, tid: Tid)
    | Work(ip: Ip)
    | SendReport(ip: Ip, tid: Tid, error: string)
    | LoseReport(r: Report)
    | HandleReport(r: Report, reason: string)
    | HandlerWrite(h: Handler, ok: bool, next: string)

  datatype AnalysisStep =
    | Tick(snapshot: seq<Seen>)
    | SkipTask
    | Spawn(wrote: bool, starts: bool, info: string)
    | ChildMark(info: string)
    | ChildSucceed(info: string)
    | ChildFail(wrote: bool, code: int, info: string)
    | Reap(ok: bool, info: string)
    | TickEnd

  datatype Step =
    | ApiAct(a: ApiStep)
    | ServerAct(b: ServerStep)
    | AgentAct(c: AgentStep)
    | AnalysisAct(d: AnalysisStep)

  // ----- Database writes -----

  function Write(st: Store, ok: bool, tid: Tid, to: int, reason: string): Store {
    if ok then st.(db := Update(st.db, tid, to, reason).0) else st
  }

  function InsertRow(st: Store, tid: Tid, ip: Ip, info: string): Store {
    st.(db := st.db.(rows := st.db.rows[tid := TaskRow(PENDING, info, ip, [], ANALYSIS_PENDING)]),
        creating := st.creating + {tid})
  }

  function InsertHistory(st: Store, tid: Tid, reason: string, ok: bool): Store {
    Store(st.db.(history := st.db.history + [HistoryRow(tid, NOT_CREATED, PENDING, reason)]),
          st.creating - {tid}, if ok then st.unlogged else st.unlogged + {tid})
  }

  /** The rows of the history table: all that were logged but the creation rows that failed. */
  function Table(history: seq<HistoryRow>, unlogged: set<Tid>): seq<HistoryRow> {
    if history == [] then []
    else
      var init, last := Table(history[..|history| - 1], unlogged), history[|history| - 1];
      if last.from == NOT_CREATED && last.tid in unlogged then init else init + [last]
  }

  function SetAnalysis(st: Store, ok: bool, tid: Tid, status: int, info: string): Store {
    if ok && tid in st.db.rows then
      st.(db := st.db.(rows := st.db.rows[tid := st.db.rows[tid].(analysis := status, info := info)]))
    else st
  }

  /** The first upload of a task sets its key; later ones leave it. */
  function SetKey(st: Store, tid: Tid, key: string): Store {
    if tid in st.db.rows && st.db.rows[tid].cosKey == [] then
      st.(db := st.db.(rows := st.db.rows[tid := st.db.rows[tid].(cosKey := key)]))
    else st
  }

  // ----- apiserver -----

  predicate ApiEnabled(st: Store, api: Api, step: ApiStep) {
    match step
    case CreateRow(tid, _, _) => tid !in st.db.rows
    case CreateHistory(tid, reason, _) => tid in st.creating && reason != []
    case GiveUpDispatch(tid, _, reason) => tid in api.undispatched && reason != []
    case SendDispatch(tid) => tid in api.undispatched
    case LoseDispatch(tid) => tid in api.inflight
    case DispatchAnswered(tid) => tid in api.awaiting
    case DispatchFailed(tid, _, reason) => tid in api.awaiting && reason != []
    case Retry(tid, reason, _) => tid in st.db.rows && st.db.rows[tid].status == FAILED && reason != []
    case UploadFile(_, key) => key != []
  }

  function ApiStore(st: Store, step: ApiStep): Store {
    match step
    case CreateRow(tid, ip, reason) => InsertRow(st, tid, ip, reason)
    case CreateHistory(tid, reason, ok) => InsertHistory(st, tid, reason, ok)
    case GiveUpDispatch(tid, ok, reason) => Write(st, ok, tid, FAILED, reason)
    case DispatchFailed(tid, ok, reason) => Write(st, ok, tid, FAILED, reason)
    case Retry(tid, reason, _) => Write(st, true, tid, PENDING, reason)
    case UploadFile(tid, key) => SetKey(st, tid, key)
    case _ => st
  }

  function ApiNext(api: Api, step: ApiStep): Api {
    match step
    case CreateHistory(tid, _, _) => api.(undispatched := api.undispatched + multiset{tid})
    case Retry(tid, _, dispatches) => if dispatches then api.(undispatched := api.undispatched + multiset{tid}) else api
    case GiveUpDispatch(tid, _, _) => api.(undispatched := api.undispatched - multiset{tid})
    case SendDispatch(tid) =>
      Api(api.undispatched - multiset{tid}, api.inflight + multiset{tid}, api.awaiting + multiset{tid})
    case LoseDispatch(tid) => api.(inflight := api.inflight - multiset{tid})
    case DispatchAnswered(tid) => api.(awaiting := api.awaiting - multiset{tid})
    case DispatchFailed(tid, _, _) => api.(awaiting := api.awaiting - multiset{tid})
    case _ => api
  }

  // ----- drop_server: CreateTask and the heartbeat handler -----

  predicate ServerEnabled(st: Store, api: Api, server: Server, step: ServerStep) {
    match step
    case DeliverDispatch(tid) => tid in api.inflight && tid in st.db.rows
    case Pop(ip) => At(server.queues, ip) != []
    case MarkRunning(ip, tid, _, reason) => (ip, tid) in server.starting && reason != []
    case LoseResponse(ip, tid) => (ip, tid) in server.responses
  }

  function ServerStore(st: Store, step: ServerStep): Store {
    if step.MarkRunning? then Write(st, step.ok, step.tid, RUNNING, step.reason) else st
  }

  function ServerApi(api: Api, step: ServerStep): Api {
    if step.DeliverDispatch? then api.(inflight := api.inflight - multiset{step.tid}) else api
  }

  function ServerNext(st: Store, api: Api, server: Server, step: ServerStep): Server
    requires ServerEnabled(st, api, server, step)
  {
    match step
    case DeliverDispatch(tid) =>
      var ip := st.db.rows[tid].targetIp;
      server.(queues := PushBack(server.queues, ip, tid), pushed := PushBack(server.pushed, ip, tid))
    case Pop(ip) =>
      var tid := At(server.queues, ip)[0];
      server.(queues := PopFront(server.queues, ip), popped := PushBack(server.popped, ip, tid),
              starting := server.starting + multiset{(ip, tid)})
    case MarkRunning(ip, tid, _, _) =>
      server.(starting := server.starting - multiset{(ip, tid)}, responses := server.responses + multiset{(ip, tid)})
    case LoseResponse(ip, tid) => server.(responses := server.responses - multiset{(ip, tid)})
  }

  // ----- Agents and the NotifyResult handler -----

  predicate AgentEnabled(server: Server, agents: Agents, step: AgentStep) {
    match step
    case Receive(ip, tid) => (ip, tid) in server.responses
    case Work(ip) => At(agents.workers, ip) != []
    case SendReport(ip, tid, _) => (ip, tid) in agents.executing
    case LoseReport(r) => r in agents.reports
    case HandleReport(r, reason) => r in agents.reports && reason != []
    case HandlerWrite(h, _, next) => h in agents.handling && next != []
  }

  function AgentStore(st: Store, step: AgentStep): Store {
    if step.HandlerWrite? then Write(st, step.ok, step.h.tid, step.h.to, step.h.reason) else st
  }

  function AgentServer(server: Server, step: AgentStep): Server {
    if step.Receive? then server.(responses := server.responses - multiset{(step.ip, step.tid)}) else server
  }

  function FirstHandler(r: Report, reason: string): Handler {
    if r.error == [] then Handler(r.tid, UPLOADING, reason) else Handler(r.tid, FAILED, r.error)
  }

  /** A success report writes UPLOADING and then DONE, whether or not the first write took. */
  function NextHandlers(h: Handler, reason: string): multiset<Handler> {
    if h.to == UPLOADING then multiset{Handler(h.tid, DONE, reason)} else multiset{}
  }

  function AgentNext(server: Server, agents: Agents, step: AgentStep): Agents
    requires AgentEnabled(server, agents, step)
  {
    match step
    case Receive(ip, tid) =>
      agents.(received := agents.received + {(ip, tid)},
              workers := agents.workers[ip := Enqueue(At(agents.workers, ip), tid)])
    case Work(ip) =>
      var q := At(agents.workers, ip);
      agents.(workers := agents.workers[ip := q[1..]], executing := agents.executing + multiset{(ip, q[0])})
    case SendReport(ip, tid, error) =>
      agents.(executing := agents.executing - multiset{(ip, tid)},
              reports := agents.reports + multiset{Report(ip, tid, error)},
              reported := agents.reported + {Report(ip, tid, error)})
    case LoseReport(r) => agents.(reports := agents.reports - multiset{r})
    case HandleReport(r, reason) =>
      agents.(reports := agents.reports - multiset{r}, handling := agents.handling + multiset{FirstHandler(r, reason)})
    case HandlerWrite(h, _, next) => agents.(handling := agents.handling - multiset{h} + NextHandlers(h, next))
  }

  // ----- Analysis scheduler and its child process -----

  /** A snapshot lists, once each, exactly the finished tasks whose analysis is pending. */
  ghost predicate IsSnapshot(db: Db, snapshot: seq<Seen>) {
    && (forall i, j :: 0 <= i < j < |snapshot| ==> snapshot[i].tid != snapshot[j].tid)
    && (forall i :: 0 <= i < |snapshot| ==>
          && snapshot[i].tid in db.rows
          && db.rows[snapshot[i].tid].status == DONE
          && db.rows[snapshot[i].tid].analysis == ANALYSIS_PENDING
          && db.rows[snapshot[i].tid].cosKey == snapshot[i].key)
    && (forall t :: t in db.rows && db.rows[t].status == DONE && db.rows[t].analysis == ANALYSIS_PENDING ==>
          Seen(t, db.rows[t].cosKey) in snapshot)
  }

  ghost predicate AnalysisEnabled(st: Store, an: Analysis, step: AnalysisStep) {
    var ticker := an.ticker;
    match step
    case Tick(snapshot) => ticker.Waiting? && IsSnapshot(st.db, snapshot)
    case SkipTask => ticker.Working? && ticker.todo != [] && ticker.todo[0].key == []
    case Spawn(wrote, starts, _) =>
      ticker.Working? && ticker.todo != [] && ticker.todo[0].key != [] && (starts ==> wrote)
    case ChildMark(_) => ticker.Analysing? && ticker.child.Busy?
    case ChildSucceed(_) => ticker.Analysing? && ticker.child.Busy?
    case ChildFail(_, code, _) => ticker.Analysing? && ticker.child.Busy? && code != 0
    case Reap(_, _) => ticker.Analysing? && ticker.child.Exited?
    case TickEnd => ticker.Working? && ticker.todo == []
  }

  ghost function AnalysisStore(st: Store, an: Analysis, step: AnalysisStep): Store
    requires AnalysisEnabled(st, an, step)
  {
    match step
    case Spawn(wrote, _, info) => SetAnalysis(st, wrote, an.ticker.todo[0].tid, ANALYSIS_RUNNING, info)
    case ChildMark(info) => SetAnalysis(st, true, an.ticker.tid, ANALYSIS_RUNNING, info)
    case ChildSucceed(info) => SetAnalysis(st, true, an.ticker.tid, ANALYSIS_SUCCESS, info)
    case ChildFail(wrote, _, info) => SetAnalysis(st, wrote, an.ticker.tid, ANALYSIS_FAILED, info)
    case Reap(ok, info) => SetAnalysis(st, ok && an.ticker.child.code != 0, an.ticker.tid, ANALYSIS_FAILED, info)
    case _ => st
  }

  ghost function AnalysisNext(st: Store, an: Analysis, step: AnalysisStep): Analysis
    requires AnalysisEnabled(st, an, step)
  {
    match step
    case Tick(snapshot) => an.(ticker := Working(snapshot))
    case SkipTask => an.(ticker := Working(an.ticker.todo[1..]))
    case Spawn(_, starts, _) =>
      var tid := an.ticker.todo[0].tid;
      if starts then Analysis(Analysing(tid, Busy, an.ticker.todo[1..]), an.spawned + [tid])
      else an.(ticker := Working(an.ticker.todo[1..]))
    case ChildMark(_) => an
    case ChildSucceed(_) => an.(ticker := an.ticker.(child := Exited(0)))
    case ChildFail(_, code, _) => an.(ticker := an.ticker.(child := Exited(code)))
    case Reap(_, _) => an.(ticker := Working(an.ticker.todo))
    case TickEnd => an.(ticker := Waiting)
  }

  // ----- The whole system -----

  ghost predicate Enabled(s: State, step: Step) {
    match step
    case ApiAct(a) => ApiEnabled(s.store, s.api, a)
    case ServerAct(b) => ServerEnabled(s.store, s.api, s.server, b)
    case AgentAct(c) => AgentEnabled(s.server, s.agents, c)
    case AnalysisAct(d) => AnalysisEnabled(s.store, s.analysis, d)
  }

  ghost function Apply(s: State, step: Step): State
    requires Enabled(s, step)
  {
    match step
    case ApiAct(a) => s.(store := ApiStore(s.store, a), api := ApiNext(s.api, a))
    case ServerAct(b) =>
      s.(store := ServerStore(s.store, b), api := ServerApi(s.api, b),
         server := ServerNext(s.store, s.api, s.server, b))
    case AgentAct(c) =>
      s.(store := AgentStore(s.store, c), server := AgentServer(s.server, c), agents := AgentNext(s.server, s.agents, c))
    case AnalysisAct(d) =>
      s.(store := AnalysisStore(s.store, s.analysis, d), analysis := AnalysisNext(s.store, s.analysis, d))
  }

  /** The state an interleaving leads to from the empty system, or None when some step was not possible. */
  ghost function Exec(steps: seq<Step>): Option<State> {
    if steps == [] then Some(Start())
    else
      var before := Exec(steps[..|steps| - 1]);
      if before.Some? && Enabled(before.value, steps[|steps| - 1])
      then Some(Apply(before.value, steps[|steps| - 1])) else None
  }
}
