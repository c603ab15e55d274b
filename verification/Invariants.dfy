/**
 What every reachable state of the pipeline satisfies, one predicate per concern, each shown to survive every
 action. `Inv` is their conjunction.
 */
module Invariants {
  import opened Seqs
  import opened Types
  import opened Database
  import PeerRouter
  import WriteBuffer
  import Otlp
  import opened Pipeline

  /** The tables obey their declared keys, and the stored peer list is the one the create was given. */
  ghost predicate TablesInv(st: State) {
    && ForeignKeys(st.tables)
    && (forall s :: s in st.tables.sessions ==> s in st.claims)
    && (forall s, p :: (s, p) in st.tables.peers <==> s in st.tables.sessions && p in st.claims[s])
  }

  /** An end is recorded in the row, in `ended`, and either in `ending` or in `removed`; only ended sessions vanish. */
  ghost predicate LifecycleInv(st: State) {
    && NoDuplicates(st.ended)
    && (forall s :: s in st.tables.sessions ==> (st.tables.sessions[s].status == Completed <==> s in st.ended))
    && (forall s :: s in st.tables.sessions ==> (st.tables.sessions[s].endedAt.Some? <==> s in st.ended))
    && (forall s :: s in st.claims && s !in st.tables.sessions ==> s in st.ended)
    && (forall s :: s in st.ended <==> s in st.ending || s in st.removed)
    && (forall s :: s in st.ending ==> s !in st.removed)
    && (forall s :: s in st.ended ==> s in st.claims)
  }

  /** The create has returned, and the last router step of the session was its add. */
  ghost predicate Routed(st: State, s: SessionId) {
    s in st.claims && s !in st.creating && (s !in st.removed || s in st.overtaken)
  }

  ghost predicate RouterInv(st: State) {
    && (forall s :: s in st.creating ==> s in st.claims && st.creating[s] == st.claims[s])
    && (forall s :: s in st.overtaken ==> s in st.removed)
    && (forall s :: s in st.creating && s in st.removed ==> s in st.overtaken)
    && (forall s, p :: (p, s) in st.routes <==> Routed(st, s) && p in st.claims[s])
  }

  /** The record is for a session that was created with the record's peer. */
  ghost predicate Claimed(claims: map<SessionId, seq<PeerId>>, r: WriteRecord) {
    r.session in claims && r.peer in claims[r.session]
  }

  ghost predicate AllClaimed(claims: map<SessionId, seq<PeerId>>, rs: seq<WriteRecord>) {
    forall r :: r in rs ==> Claimed(claims, r)
  }

  ghost predicate RecordsInv(st: State) {
    && (forall x :: x in st.attempts ==> Claimed(st.claims, x.record))
    && (forall task :: 0 <= task < |st.tasks| ==> AllClaimed(st.claims, st.tasks[task].pending))
  }

  ghost predicate ConservationInv(st: State) {
    Accepted(st) == WriteBuffer.Flushed(st.flushes) + (st.batch + st.queue)
  }

  ghost predicate BoundsInv(c: Config, st: State) {
    && |st.queue| <= c.limits.bufferSize
    && |st.batch| <= c.limits.BatchBound()
    && (if st.flushing then st.batch != [] else |st.batch| < c.limits.BatchBound())
    && (forall f :: f in st.flushes ==> 0 < |f.records| <= c.limits.BatchBound())
  }

  /** The records of one kind whose session is in `ss`. */
  function LiveOfKind(ss: set<SessionId>, k: RecordType): WriteRecord -> bool {
    (r: WriteRecord) => r.session in ss && r.kind == k
  }

  ghost predicate RowsInv(st: State) {
    forall k :: Rows(st.tables, k) == Filter(Committed(st), LiveOfKind(st.tables.sessions.Keys, k))
  }

  /** The pending sends are what is left of the fan-out of the unit routed last. */
  ghost predicate PendingIsTail(t: Task) {
    t.pending == [] ||
    (&& t.orders != [] && |t.orders| <= |t.units|
     && var last := Otlp.Fanout(t.units[|t.orders| - 1], t.orders[|t.orders| - 1]);
        |t.pending| <= |last| && t.pending == last[|last| - |t.pending|..])
  }

  ghost predicate TaskInv(st: State, id: TaskId, t: Task) {
    && |t.orders| <= |t.units|
    && (forall order :: order in t.orders ==> NoDuplicates(order))
    && (forall u :: u in t.units && u.kind == Span ==> |u.items| == 1)
    && PendingIsTail(t)
    && AttemptsOf(st.attempts, id) + t.pending == Otlp.FanoutAll(t.units, t.orders)
  }

  ghost predicate TasksInv(st: State) {
    && (forall x :: x in st.attempts ==> x.task < |st.tasks|)
    && (forall id :: 0 <= id < |st.tasks| ==> TaskInv(st, id, st.tasks[id]))
  }

  ghost predicate Inv(c: Config, st: State) {
    && TablesInv(st) && LifecycleInv(st) && RouterInv(st) && RecordsInv(st)
    && ConservationInv(st) && BoundsInv(c, st) && RowsInv(st) && TasksInv(st)
  }

  // ---- Each concern survives every action ----

  lemma {:induction false} TablesKept(c: Config, st: State, a: Action)
    requires Enabled(c, st, a) && TablesInv(st)
    ensures TablesInv(Apply(c, st, a))
  {
    var after := Apply(c, st, a);
    match a
    case Create(id, peers, fault) =>
      CreateKeepsForeignKeys(st.tables, id, peers);
    case End(id, now, fault) =>
      assert forall k :: Rows(after.tables, k) == Rows(st.tables, k);
    case Cleanup(cutoff, fault) =>
      PurgeKeepsForeignKeys(st.tables, cutoff);
    case RunFlush(fault) =>
      if Insertable(st.tables, st.batch) {
        InsertKeepsForeignKeys(st.tables, st.batch);
      }
    case _ =>
  }

  lemma {:induction false} EndKeepsLifecycle(st: State, id: SessionId, now: string, fault: Fault)
    requires TablesInv(st) && LifecycleInv(st)
    ensures LifecycleInv(AfterEnd(st, id, now, fault))
  {
  }

  lemma {:induction false} CleanupKeepsLifecycle(st: State, cutoff: string, fault: Fault)
    requires TablesInv(st) && LifecycleInv(st)
    ensures LifecycleInv(AfterCleanup(st, cutoff, fault))
  {
  }

  lemma {:induction false} LifecycleKept(c: Config, st: State, a: Action)
    requires Enabled(c, st, a) && TablesInv(st) && LifecycleInv(st)
    ensures LifecycleInv(Apply(c, st, a))
  {
    match a
    case Create(id, peers, fault) =>
    case CreateRoute(id) =>
    case End(id, now, fault) => EndKeepsLifecycle(st, id, now, fault);
    case EndRoute(id) =>
    case Cleanup(cutoff, fault) => CleanupKeepsLifecycle(st, cutoff, fault);
    case Start(_) =>
    case Route(_, _) =>
    case Offer(_) =>
    case Receive =>
    case Tick =>
    case RunFlush(_) =>
  }

  lemma {:induction false} CreateRouteKeepsRouter(st: State, id: SessionId)
    requires RouterInv(st) && id in st.creating
    ensures RouterInv(AfterCreateRoute(st, id))
  {
  }

  lemma {:induction false} EndRouteKeepsRouter(st: State, id: SessionId)
    requires LifecycleInv(st) && RouterInv(st) && id in st.ending
    ensures RouterInv(AfterEndRoute(st, id))
  {
  }

  lemma {:induction false} CreateKeepsRouter(st: State, id: SessionId, peers: seq<PeerId>, fault: Fault)
    requires LifecycleInv(st) && RouterInv(st) && id !in st.claims
    ensures RouterInv(AfterCreate(st, id, peers, fault))
  {
  }

  lemma {:induction false} RouterKept(c: Config, st: State, a: Action)
    requires Enabled(c, st, a) && LifecycleInv(st) && RouterInv(st)
    ensures RouterInv(Apply(c, st, a))
  {
    match a
    case Create(id, peers, fault) => CreateKeepsRouter(st, id, peers, fault);
    case CreateRoute(id) => CreateRouteKeepsRouter(st, id);
    case EndRoute(id) => EndRouteKeepsRouter(st, id);
    case _ => UntouchedRouter(c, st, a);
  }

  lemma {:induction false} UntouchedRouter(c: Config, st: State, a: Action)
    requires Enabled(c, st, a) && RouterInv(st) && !a.Create? && !a.CreateRoute? && !a.EndRoute?
    ensures RouterInv(Apply(c, st, a))
  {
    var after := Apply(c, st, a);
    assert after.routes == st.routes && after.claims == st.claims && after.creating == st.creating;
    assert after.removed == st.removed && after.overtaken == st.overtaken;
    assert forall s :: Routed(after, s) <==> Routed(st, s);
  }

  lemma {:induction false} RouteKeepsRecords(st: State, task: TaskId, order: seq<SessionId>)
    requires RouterInv(st) && RecordsInv(st) && task < |st.tasks| && |st.tasks[task].orders| < |st.tasks[task].units|
    requires Enumerates(order, PeerRouter.Claimers(st.routes, st.tasks[task].units[|st.tasks[task].orders|].peer))
    ensures RecordsInv(AfterRoute(st, task, order))
  {
    var u := st.tasks[task].units[|st.tasks[task].orders|];
    Otlp.FanoutMembers(u, u.items, order);
    forall r | r in Otlp.Fanout(u, order) ensures Claimed(st.claims, r) {
      assert r.session in order && r.peer == u.peer;
      PeerRouter.ClaimersMeaning(st.routes, u.peer, r.session);
      assert (u.peer, r.session) in st.routes;
      assert Routed(st, r.session);
    }
    assert AllClaimed(st.claims, Otlp.Fanout(u, order));
  }

  lemma {:induction false} OfferKeepsRecords(c: Config, st: State, task: TaskId)
    requires RecordsInv(st) && task < |st.tasks| && st.tasks[task].pending != []
    ensures RecordsInv(AfterOffer(c, st, task))
  {
  }

  lemma {:induction false} RecordsKept(c: Config, st: State, a: Action)
    requires Enabled(c, st, a) && RouterInv(st) && RecordsInv(st)
    ensures RecordsInv(Apply(c, st, a))
  {
    match a
    case Route(task, order) => RouteKeepsRecords(st, task, order);
    case Offer(task) => OfferKeepsRecords(c, st, task);
    case Create(id, peers, fault) =>
      assert forall r :: Claimed(st.claims, r) ==> Claimed(AfterCreate(st, id, peers, fault).claims, r);
    case CreateRoute(_) =>
    case End(_, _, _) =>
    case EndRoute(_) =>
    case Cleanup(_, _) =>
    case Start(_) =>
    case Receive =>
    case Tick =>
    case RunFlush(_) =>
  }

  lemma {:induction false} OfferConserves(c: Config, st: State, task: TaskId)
    requires Enabled(c, st, Offer(task)) && ConservationInv(st)
    ensures ConservationInv(AfterOffer(c, st, task))
  {
  }

  lemma {:induction false} FlushConserves(st: State, fault: Fault)
    requires ConservationInv(st)
    ensures ConservationInv(AfterFlush(st, fault))
  {
    var after := AfterFlush(st, fault);
    WriteBuffer.FlushedOne(st.flushes, after.flushes[|st.flushes|]);
    assert [] + st.queue == st.queue;
    var flushed := WriteBuffer.Flushed(st.flushes);
    assert flushed + (st.batch + st.queue) == (flushed + st.batch) + st.queue;
  }

  lemma {:induction false} ConservationKept(c: Config, st: State, a: Action)
    requires Enabled(c, st, a) && ConservationInv(st)
    ensures ConservationInv(Apply(c, st, a))
  {
    match a
    case Offer(task) => OfferConserves(c, st, task);
    case Receive =>
      assert (st.batch + [st.queue[0]]) + st.queue[1..] == st.batch + st.queue;
    case RunFlush(fault) => FlushConserves(st, fault);
    case Create(_, _, _) =>
    case CreateRoute(_) =>
    case End(_, _, _) =>
    case EndRoute(_) =>
    case Cleanup(_, _) =>
    case Start(_) =>
    case Route(_, _) =>
    case Tick =>
  }

  lemma {:induction false} BoundsKept(c: Config, st: State, a: Action)
    requires Enabled(c, st, a) && BoundsInv(c, st)
    ensures BoundsInv(c, Apply(c, st, a))
  {
  }

  /** Whatever was committed was accepted, so it belongs to a session that was once created. */
  lemma {:induction false} CommittedClaimed(st: State)
    requires RecordsInv(st) && ConservationInv(st)
    ensures forall r :: r in Committed(st) || r in st.batch || r in st.queue ==> Claimed(st.claims, r)
  {
    WriteBuffer.CommittedWereFlushed(st.flushes);
    forall r | r in Committed(st) || r in st.batch || r in st.queue ensures Claimed(st.claims, r) {
      assert r in Accepted(st);
      AcceptedWereAttempted(st.attempts, r);
    }
  }

  lemma {:induction false} CreateKeepsRows(st: State, id: SessionId, peers: seq<PeerId>, fault: Fault)
    requires id !in st.claims && RecordsInv(st) && ConservationInv(st) && RowsInv(st)
    ensures RowsInv(AfterCreate(st, id, peers, fault))
  {
    var after := AfterCreate(st, id, peers, fault);
    CommittedClaimed(st);
    forall k ensures Rows(after.tables, k) == Filter(Committed(after), LiveOfKind(after.tables.sessions.Keys, k)) {
      assert Rows(after.tables, k) == Rows(st.tables, k);
      FilterAgree(Committed(st), LiveOfKind(st.tables.sessions.Keys, k), LiveOfKind(after.tables.sessions.Keys, k));
    }
  }

  lemma {:induction false} EndKeepsRows(st: State, id: SessionId, now: string, fault: Fault)
    requires RowsInv(st)
    ensures RowsInv(AfterEnd(st, id, now, fault))
  {
    var after := AfterEnd(st, id, now, fault);
    assert after.tables.sessions.Keys == st.tables.sessions.Keys;
    assert forall k :: Rows(after.tables, k) == Rows(st.tables, k);
  }

  lemma {:induction false} CleanupKeepsRows(st: State, cutoff: string, fault: Fault)
    requires RowsInv(st)
    ensures RowsInv(AfterCleanup(st, cutoff, fault))
  {
    var after, live, kept := AfterCleanup(st, cutoff, fault), st.tables.sessions.Keys, Kept(st.tables, cutoff);
    if !Strikes(fault, 1) {
      assert after.tables.sessions.Keys == kept;
      forall k ensures Rows(after.tables, k) == Filter(Committed(after), LiveOfKind(kept, k)) {
        assert Rows(after.tables, k) == Filter(Rows(st.tables, k), InSessions(kept));
        FilterTwice(Committed(st), LiveOfKind(live, k), InSessions(kept), LiveOfKind(kept, k));
      }
    }
  }

  lemma {:induction false} FlushKeepsRows(st: State, fault: Fault)
    requires RowsInv(st)
    ensures RowsInv(AfterFlush(st, fault))
  {
    var after, live := AfterFlush(st, fault), st.tables.sessions.Keys;
    var f := after.flushes[|st.flushes|];
    WriteBuffer.FlushedOne(st.flushes, f);
    assert Committed(st) + [] == Committed(st);
    forall k ensures Rows(after.tables, k) == Filter(Committed(after), LiveOfKind(live, k)) {
      if f.committed {
        FilterConcat(Committed(st), st.batch, LiveOfKind(live, k));
        FilterAgree(st.batch, LiveOfKind(live, k), OfKind(k));
        assert Rows(after.tables, k) == Rows(st.tables, k) + Filter(st.batch, OfKind(k));
      }
    }
  }

  lemma {:induction false} RowsKept(c: Config, st: State, a: Action)
    requires Enabled(c, st, a) && RecordsInv(st) && ConservationInv(st) && RowsInv(st)
    ensures RowsInv(Apply(c, st, a))
  {
    match a
    case Create(id, peers, fault) => CreateKeepsRows(st, id, peers, fault);
    case End(id, now, fault) => EndKeepsRows(st, id, now, fault);
    case Cleanup(cutoff, fault) => CleanupKeepsRows(st, cutoff, fault);
    case RunFlush(fault) => FlushKeepsRows(st, fault);
    case CreateRoute(_) =>
    case EndRoute(_) =>
    case Start(_) =>
    case Route(_, _) =>
    case Offer(_) =>
    case Receive =>
    case Tick =>
  }

  lemma {:induction false} StartKeepsTasks(c: Config, st: State, request: Otlp.Request)
    requires TasksInv(st)
    ensures TasksInv(Apply(c, st, Start(request)))
  {
    var after, task := Apply(c, st, Start(request)), |st.tasks|;
    Otlp.SpanUnitsAreSingle(request, c.idKey);
    NeverAttempted(st.attempts, task);
    assert TaskInv(after, task, after.tasks[task]);
    OthersKept(st, after, task);
  }

  /** A task that a step does not touch keeps its invariant. */
  lemma {:induction false} OthersKept(st: State, after: State, task: TaskId)
    requires TasksInv(st)
    requires forall id :: 0 <= id < |after.tasks| && id != task ==>
               id < |st.tasks| && after.tasks[id] == st.tasks[id]
               && AttemptsOf(after.attempts, id) == AttemptsOf(st.attempts, id)
    ensures forall id :: 0 <= id < |after.tasks| && id != task ==> TaskInv(after, id, after.tasks[id])
  {
  }

  lemma {:induction false} RouteKeepsTasks(st: State, task: TaskId, order: seq<SessionId>)
    requires TasksInv(st) && task < |st.tasks| && NoDuplicates(order)
    requires st.tasks[task].pending == [] && |st.tasks[task].orders| < |st.tasks[task].units|
    ensures TasksInv(AfterRoute(st, task, order))
  {
    var t, after := st.tasks[task], AfterRoute(st, task, order);
    assert TaskInv(st, task, t);
    assert (t.orders + [order])[..|t.orders|] == t.orders;
    assert AttemptsOf(st.attempts, task) + [] == AttemptsOf(st.attempts, task);
    assert TaskInv(after, task, after.tasks[task]);
    OthersKept(st, after, task);
  }

  lemma {:induction false} OfferKeepsTask(st: State, after: State, id: TaskId, x: Attempt)
    requires id < |st.tasks| && TaskInv(st, id, st.tasks[id]) && st.tasks[id].pending != []
    requires x.task == id && x.record == st.tasks[id].pending[0] && after.attempts == st.attempts + [x]
    ensures TaskInv(after, id, st.tasks[id].(pending := st.tasks[id].pending[1..]))
  {
  }

  lemma {:induction false} OfferKeepsTasks(c: Config, st: State, task: TaskId)
    requires TasksInv(st) && task < |st.tasks| && st.tasks[task].pending != []
    ensures TasksInv(AfterOffer(c, st, task))
  {
    var after := AfterOffer(c, st, task);
    var x := after.attempts[|st.attempts|];
    OfferKeepsTask(st, after, task, x);
    forall id | id != task ensures AttemptsOf(after.attempts, id) == AttemptsOf(st.attempts, id) {
      LogOne(st.attempts, x);
    }
    OthersKept(st, after, task);
  }

  lemma {:induction false} TasksKept(c: Config, st: State, a: Action)
    requires Enabled(c, st, a) && TasksInv(st)
    ensures TasksInv(Apply(c, st, a))
  {
    match a
    case Start(request) => StartKeepsTasks(c, st, request);
    case Route(task, order) => RouteKeepsTasks(st, task, order);
    case Offer(task) => OfferKeepsTasks(c, st, task);
    case _ => UntouchedTasks(c, st, a);
  }

  lemma {:induction false} UntouchedTasks(c: Config, st: State, a: Action)
    requires Enabled(c, st, a) && TasksInv(st) && !a.Start? && !a.Route? && !a.Offer?
    ensures TasksInv(Apply(c, st, a))
  {
  }

  lemma {:induction false} NeverAttempted(log: seq<Attempt>, task: TaskId)
    requires forall x :: x in log ==> x.task != task
    ensures AttemptsOf(log, task) == []
  {
    if log != [] {
      NeverAttempted(log[..|log| - 1], task);
      assert log[|log| - 1] in log;
    }
  }

  // ---- Every run ----

  lemma {:induction false} InvKept(c: Config, st: State, a: Action)
    requires Enabled(c, st, a) && Inv(c, st)
    ensures Inv(c, Apply(c, st, a))
  {
    TablesKept(c, st, a);
    LifecycleKept(c, st, a);
    RouterKept(c, st, a);
    RecordsKept(c, st, a);
    ConservationKept(c, st, a);
    BoundsKept(c, st, a);
    RowsKept(c, st, a);
    TasksKept(c, st, a);
  }

  lemma {:induction false} RunKeepsInv(c: Config, st: State, run: seq<Action>)
    requires Inv(c, st) && Exec(c, st, run).Some?
    ensures Inv(c, Exec(c, st, run).value)
  {
    if run != [] {
      var n := |run| - 1;
      RunKeepsInv(c, st, run[..n]);
      InvKept(c, Exec(c, st, run[..n]).value, run[n]);
    }
  }

  lemma {:induction false} InitInv(c: Config)
    ensures Inv(c, INIT)
  {
    assert TablesInv(INIT) && LifecycleInv(INIT) && RouterInv(INIT) && RecordsInv(INIT);
    assert WriteBuffer.Contents([]) == [];
    assert ConservationInv(INIT) && BoundsInv(c, INIT) && RowsInv(INIT) && TasksInv(INIT);
  }

  /** Every interleaving, from the empty system on, keeps all of it. */
  lemma {:induction false} ReachableInv(c: Config, run: seq<Action>)
    requires Exec(c, INIT, run).Some?
    ensures Inv(c, Exec(c, INIT, run).value)
  {
    InitInv(c);
    RunKeepsInv(c, INIT, run);
  }
}
