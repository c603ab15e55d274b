/**
 Selective capture as one concurrent system. A state is what its tasks share (database, router, channel) plus
 where each task stands between two atomic steps; an action is one atomic step. Creating and ending a debug
 session each take two steps, a database commit and then a router update, and every step may fall between any
 two others.
 */
module Pipeline {
  import opened Seqs
  import opened Types
  import opened Database
  import PeerRouter
  import opened WriteBuffer
  import Otlp

  /** Exports are numbered in the order they start. */
  type TaskId = nat

  datatype Config = Config(limits: Limits, idKey: string)

  /** An export in flight: its units, the decisions read so far, and the sends still due for the last one. */
  datatype Task = Task(units: seq<Otlp.Unit>, orders: seq<seq<SessionId>>, pending: seq<WriteRecord>)

  /** One finished `try_send`. */
  datatype Attempt = Attempt(task: TaskId, record: WriteRecord, accepted: bool)

  datatype State = State(
    tables: Tables,
    routes: PeerRouter.Routes,
    queue: seq<WriteRecord>,
    batch: seq<WriteRecord>,
    /** The flush loop is about to run its transaction. */
    flushing: bool,
    /** Creates that have committed but not yet routed, with the peers each handler still holds. */
    creating: map<SessionId, seq<PeerId>>,
    /** Ends that have committed but not yet unrouted. */
    ending: set<SessionId>,
    tasks: seq<Task>,
    // Histories: every session ever committed with its peers; the successful ends; the sessions unrouted, and
    // those of them unrouted before their create had routed them; the attempts; the flushes.
    claims: map<SessionId, seq<PeerId>>,
    ended: seq<SessionId>,
    removed: set<SessionId>,
    overtaken: set<SessionId>,
    attempts: seq<Attempt>,
    flushes: seq<Flush>)

  ghost const INIT := State(EMPTY, {}, [], [], false, map[], {}, [], map[], [], {}, {}, [], [])

  datatype Action =
    | Create(id: SessionId, peers: seq<PeerId>, fault: Fault)
    | CreateRoute(id: SessionId)
    | End(id: SessionId, now: string, fault: Fault)
    | EndRoute(id: SessionId)
    | Cleanup(cutoff: string, fault: Fault)
    | Start(request: Otlp.Request)
    | Route(task: TaskId, order: seq<SessionId>)
    | Offer(task: TaskId)
    | Receive
    | Tick
    | RunFlush(fault: Fault)

  /** Identifiers are fresh UUIDs; everything else may happen whenever its task stands at that step. */
  ghost predicate Enabled(c: Config, st: State, a: Action) {
    match a
    case Create(id, _, _) => id !in st.claims
    case CreateRoute(id) => id in st.creating
    case End(_, _, _) => true
    case EndRoute(id) => id in st.ending
    case Cleanup(_, _) => true
    case Start(_) => true
    case Route(task, order) =>
      && task < |st.tasks| && st.tasks[task].pending == [] && |st.tasks[task].orders| < |st.tasks[task].units|
      && Enumerates(order, PeerRouter.Claimers(st.routes, st.tasks[task].units[|st.tasks[task].orders|].peer))
    case Offer(task) => task < |st.tasks| && st.tasks[task].pending != []
    case Receive => !st.flushing && st.queue != []
    case Tick => !st.flushing
    case RunFlush(_) => st.flushing
  }

  ghost function Apply(c: Config, st: State, a: Action): State
    requires Enabled(c, st, a)
  {
    match a
    case Create(id, peers, fault) => AfterCreate(st, id, peers, fault)
    case CreateRoute(id) => AfterCreateRoute(st, id)
    case End(id, now, fault) => AfterEnd(st, id, now, fault)
    case EndRoute(id) => AfterEndRoute(st, id)
    case Cleanup(cutoff, fault) => AfterCleanup(st, cutoff, fault)
    case Start(request) => st.(tasks := st.tasks + [Task(Otlp.UnitsOf(request, c.idKey), [], [])])
    case Route(task, order) => AfterRoute(st, task, order)
    case Offer(task) => AfterOffer(c, st, task)
    case Receive => AfterReceive(c, st)
    case Tick => st.(flushing := st.batch != [])
    case RunFlush(fault) => AfterFlush(st, fault)
  }

  ghost function AfterCreate(st: State, id: SessionId, peers: seq<PeerId>, fault: Fault): State {
    if CreateAllowed(st.tables, id, peers) && !Strikes(fault, |peers| + 3) then
      st.(tables := Created(st.tables, id, peers),
          creating := st.creating[id := peers],
          claims := st.claims[id := peers])
    else st
  }

  ghost function AfterCreateRoute(st: State, id: SessionId): State
    requires id in st.creating
  {
    st.(routes := PeerRouter.AddRoutes(st.routes, id, st.creating[id]), creating := st.creating - {id})
  }

  ghost function AfterEnd(st: State, id: SessionId, now: string, fault: Fault): State {
    if EndMatches(st.tables, id) && !Strikes(fault, 1) then
      st.(tables := Ended(st.tables, id, now), ending := st.ending + {id}, ended := st.ended + [id])
    else st
  }

  ghost function AfterEndRoute(st: State, id: SessionId): State {
    st.(routes := PeerRouter.RemoveRoutes(st.routes, id),
        ending := st.ending - {id},
        removed := st.removed + {id},
        overtaken := st.overtaken + if id in st.creating then {id} else {})
  }

  ghost function AfterCleanup(st: State, cutoff: string, fault: Fault): State {
    if Strikes(fault, 1) then st else st.(tables := Purged(st.tables, cutoff))
  }

  ghost function AfterRoute(st: State, task: TaskId, order: seq<SessionId>): State
    requires task < |st.tasks| && |st.tasks[task].orders| < |st.tasks[task].units|
  {
    var t := st.tasks[task];
    st.(tasks := st.tasks[task := t.(orders := t.orders + [order], pending := Otlp.Fanout(t.units[|t.orders|], order))])
  }

  ghost function AfterOffer(c: Config, st: State, task: TaskId): State
    requires task < |st.tasks| && st.tasks[task].pending != []
  {
    var t := st.tasks[task];
    var r, room := t.pending[0], |st.queue| < c.limits.bufferSize;
    st.(tasks := st.tasks[task := t.(pending := t.pending[1..])],
        queue := st.queue + if room then [r] else [],
        attempts := st.attempts + [Attempt(task, r, room)])
  }

  ghost function AfterReceive(c: Config, st: State): State
    requires st.queue != []
  {
    st.(batch := st.batch + [st.queue[0]],
        queue := st.queue[1..],
        flushing := |st.batch| + 1 >= c.limits.batchSize)
  }

  ghost function AfterFlush(st: State, fault: Fault): State {
    var f := FlushOf(st.tables, st.batch, fault);
    st.(tables := AfterWrite(st.tables, f), batch := [], flushing := false, flushes := st.flushes + [f])
  }

  /** The state a run of actions leads to, if every action was enabled in its turn. */
  ghost function Exec(c: Config, st: State, run: seq<Action>): Option<State> {
    if run == [] then Some(st)
    else
      var before := Exec(c, st, run[..|run| - 1]);
      if before.Some? && Enabled(c, before.value, run[|run| - 1]) then Some(Apply(c, before.value, run[|run| - 1]))
      else None
  }

  lemma {:induction false} ExecConcat(c: Config, st: State, a: seq<Action>, b: seq<Action>)
    ensures Exec(c, st, a + b) == if Exec(c, st, a).Some? then Exec(c, Exec(c, st, a).value, b) else None
  {
    if b == [] {
      assert a + b == a;
    } else {
      assert (a + b)[..|a + b| - 1] == a + b[..|b| - 1];
      ExecConcat(c, st, a, b[..|b| - 1]);
    }
  }

  lemma {:induction false} ExecOneMore(c: Config, st: State, run: seq<Action>, mid: State, a: Action)
    requires Exec(c, st, run) == Some(mid) && Enabled(c, mid, a)
    ensures Exec(c, st, run + [a]) == Some(Apply(c, mid, a))
  {
  }

  lemma {:induction false} ExecOne(c: Config, st: State, a: Action)
    requires Enabled(c, st, a)
    ensures Exec(c, st, [a]) == Some(Apply(c, st, a))
  {
    ExecOneMore(c, st, [], st, a);
    assert [] + [a] == [a];
  }

  // ---- Projections of the attempt log ----

  function AcceptedRecords(log: seq<Attempt>): seq<WriteRecord> {
    if log == [] then []
    else AcceptedRecords(log[..|log| - 1]) + if log[|log| - 1].accepted then [log[|log| - 1].record] else []
  }

  /** The records one export has tried to enqueue, in order. */
  function AttemptsOf(log: seq<Attempt>, task: TaskId): seq<WriteRecord> {
    if log == [] then []
    else AttemptsOf(log[..|log| - 1], task) + if log[|log| - 1].task == task then [log[|log| - 1].record] else []
  }

  lemma LogOne(log: seq<Attempt>, x: Attempt)
    ensures AcceptedRecords(log + [x]) == AcceptedRecords(log) + if x.accepted then [x.record] else []
    ensures forall task ::
              AttemptsOf(log + [x], task) == AttemptsOf(log, task) + if x.task == task then [x.record] else []
  {
  }

  lemma {:induction false} AcceptedWereAttempted(log: seq<Attempt>, r: WriteRecord)
    requires r in AcceptedRecords(log)
    ensures exists x :: x in log && x.record == r && x.accepted
  {
    var n := |log| - 1;
    if r in AcceptedRecords(log[..n]) {
      AcceptedWereAttempted(log[..n], r);
    }
  }

  /** Everything accepted, flushed or committed in a state. */
  ghost function Accepted(st: State): seq<WriteRecord> {
    AcceptedRecords(st.attempts)
  }

  ghost function Committed(st: State): seq<WriteRecord> {
    CommittedRecords(st.flushes)
  }
}
