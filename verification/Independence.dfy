/**
 Debug sessions do not disturb one another. Erasing every create and end of other sessions from a run leaves a
 run that ends in the projection of the original final state onto the one session, although the batches of the
 two runs are cut at different places.
 */
module Independence {
  import opened Seqs
  import opened Types
  import opened Database
  import PeerRouter
  import opened WriteBuffer
  import opened Otlp
  import opened Pipeline
  import Invariants
  import Capture

  // ---- The projection of a state onto one session ----

  function Only<T>(m: map<SessionId, T>, s: SessionId): map<SessionId, T> {
    if s in m then map[s := m[s]] else map[]
  }

  function OnlyTables(t: Tables, s: SessionId): Tables {
    Tables(Only(t.sessions, s), (set x | x in t.peers && x.0 == s),
           Filter(t.spans, ForSession(s)), Filter(t.metrics, ForSession(s)), Filter(t.logs, ForSession(s)))
  }

  function OnlyRoutes(routes: PeerRouter.Routes, s: SessionId): PeerRouter.Routes {
    set x | x in routes && x.1 == s
  }

  function OnlyOrder(order: seq<SessionId>, s: SessionId): seq<SessionId> {
    if s in order then [s] else []
  }

  function OnlyTask(t: Task, s: SessionId): Task {
    Task(t.units,
         seq(|t.orders|, i requires 0 <= i < |t.orders| => OnlyOrder(t.orders[i], s)),
         Filter(t.pending, ForSession(s)))
  }

  function OnlyTasks(tasks: seq<Task>, s: SessionId): seq<Task> {
    seq(|tasks|, i requires 0 <= i < |tasks| => OnlyTask(tasks[i], s))
  }

  function AttemptFor(s: SessionId): Attempt -> bool {
    (x: Attempt) => x.record.session == s
  }

  function Is(s: SessionId): SessionId -> bool {
    (x: SessionId) => x == s
  }

  /** Flushes that held nothing of the session do not happen in the projection. */
  function OnlyFlushes(flushes: seq<Flush>, s: SessionId): seq<Flush> {
    if flushes == [] then []
    else
      var f := flushes[|flushes| - 1];
      OnlyFlushes(flushes[..|flushes| - 1], s) + OnlyFlush(f, s)
  }

  function OnlyFlush(f: Flush, s: SessionId): seq<Flush> {
    if Filter(f.records, ForSession(s)) == [] then []
    else [f.(records := Filter(f.records, ForSession(s)))]
  }

  ghost function Project(st: State, s: SessionId): State {
    State(OnlyTables(st.tables, s), OnlyRoutes(st.routes, s),
          Filter(st.queue, ForSession(s)), Filter(st.batch, ForSession(s)),
          st.flushing && Filter(st.batch, ForSession(s)) != [],
          Only(st.creating, s), st.ending * {s}, OnlyTasks(st.tasks, s),
          Only(st.claims, s), Filter(st.ended, Is(s)), st.removed * {s}, st.overtaken * {s},
          Filter(st.attempts, AttemptFor(s)), OnlyFlushes(st.flushes, s))
  }

  // ---- The erased run ----

  /** What remains of one step. A flush of a smaller batch is brought about by the timer instead of the size. */
  ghost function Erase(c: Config, st: State, a: Action, s: SessionId): seq<Action>
    requires Enabled(c, st, a)
  {
    match a
    case Create(id, _, _) => if id == s then [a] else []
    case CreateRoute(id) => if id == s then [a] else []
    case End(id, _, _) => if id == s then [a] else []
    case EndRoute(id) => if id == s then [a] else []
    case Cleanup(_, _) => [a]
    case Start(_) => [a]
    case Route(task, order) => [Route(task, OnlyOrder(order, s))]
    case Offer(task) => if st.tasks[task].pending[0].session == s then [a] else []
    case Receive =>
      var own := st.queue[0].session == s;
      var held := Filter(st.batch, ForSession(s));
      var flush := |st.batch| + 1 >= c.limits.batchSize;
      (if own then [Receive] else [])
      + if flush && (if own then |held| + 1 < c.limits.batchSize else held != []) then [Tick] else []
    case Tick => [Tick]
    case RunFlush(fault) => if Filter(st.batch, ForSession(s)) == [] then [] else [RunFlush(None)]
  }

  ghost function EraseRun(c: Config, st: State, run: seq<Action>, s: SessionId): seq<Action>
    requires Exec(c, st, run).Some?
  {
    if run == [] then []
    else
      var n := |run| - 1;
      EraseRun(c, st, run[..n], s) + Erase(c, Exec(c, st, run[..n]).value, run[n], s)
  }

  ghost predicate Clean(st: State) {
    Capture.NothingRefused(st) && Capture.NothingLost(st)
  }

  // ---- Each step commutes with the projection ----

  lemma {:induction false} ProjectCreated(t: Tables, s: SessionId, id: SessionId, peers: seq<PeerId>)
    ensures OnlyTables(Created(t, id, peers), s)
         == if id == s then Created(OnlyTables(t, s), s, peers) else OnlyTables(t, s)
  {
  }

  lemma {:induction false} OwnCreateCommutes(st: State, s: SessionId, peers: seq<PeerId>, fault: Fault)
    requires s !in st.claims && Invariants.TablesInv(st)
    ensures Project(AfterCreate(st, s, peers, fault), s) == AfterCreate(Project(st, s), s, peers, fault)
  {
    assert s !in st.tables.sessions && s !in OnlyTables(st.tables, s).sessions;
    if CreateAllowed(st.tables, s, peers) && !Strikes(fault, |peers| + 3) {
      ProjectCreated(st.tables, s, s, peers);
      assert Only(st.creating, s)[s := peers] == Only(st.creating[s := peers], s);
      assert Only(st.claims, s)[s := peers] == Only(st.claims[s := peers], s);
    }
  }

  lemma {:induction false} OtherCreateCommutes(st: State, s: SessionId, id: SessionId, peers: seq<PeerId>, fault: Fault)
    requires id != s
    ensures Project(AfterCreate(st, id, peers, fault), s) == Project(st, s)
  {
    ProjectCreated(st.tables, s, id, peers);
    assert Only(st.creating[id := peers], s) == Only(st.creating, s);
    assert Only(st.claims[id := peers], s) == Only(st.claims, s);
  }

  lemma {:induction false} CreateRouteCommutes(st: State, s: SessionId, id: SessionId)
    requires id in st.creating
    ensures Project(AfterCreateRoute(st, id), s)
         == if id == s then AfterCreateRoute(Project(st, s), s) else Project(st, s)
  {
  }

  lemma {:induction false} ProjectEnded(t: Tables, s: SessionId, id: SessionId, now: string)
    ensures OnlyTables(Ended(t, id, now), s)
         == if id == s then Ended(OnlyTables(t, s), s, now) else OnlyTables(t, s)
    ensures EndMatches(OnlyTables(t, s), s) <==> EndMatches(t, s)
  {
  }

  lemma {:induction false} EndCommutes(st: State, s: SessionId, id: SessionId, now: string, fault: Fault)
    ensures Project(AfterEnd(st, id, now, fault), s)
         == if id == s then AfterEnd(Project(st, s), s, now, fault) else Project(st, s)
  {
    ProjectEnded(st.tables, s, id, now);
    if EndMatches(st.tables, id) && !Strikes(fault, 1) {
      FilterOne(st.ended, id, Is(s));
      if id == s {
        assert (st.ending + {s}) * {s} == st.ending * {s} + {s};
      } else {
        assert (st.ending + {id}) * {s} == st.ending * {s};
        assert Filter(st.ended, Is(s)) + [] == Filter(st.ended, Is(s));
      }
    }
  }

  lemma {:induction false} EndRouteCommutes(st: State, s: SessionId, id: SessionId)
    ensures Project(AfterEndRoute(st, id), s)
         == if id == s then AfterEndRoute(Project(st, s), s) else Project(st, s)
  {
  }

  /** Selecting by session and by survival commute. */
  lemma {:induction false} SelectKept(rows: seq<WriteRecord>, s: SessionId, kept: set<SessionId>, kept': set<SessionId>)
    requires s in kept <==> s in kept'
    ensures Filter(Filter(rows, InSessions(kept)), ForSession(s))
         == Filter(Filter(rows, ForSession(s)), InSessions(kept'))
  {
    if rows != [] {
      SelectKept(rows[1..], s, kept, kept');
    }
  }

  lemma {:induction false} CleanupCommutes(st: State, s: SessionId, cutoff: string, fault: Fault)
    ensures Project(AfterCleanup(st, cutoff, fault), s) == AfterCleanup(Project(st, s), cutoff, fault)
  {
    ProjectPurged(st.tables, s, cutoff);
  }

  lemma {:induction false} KeptOnly(t: Tables, s: SessionId, cutoff: string)
    ensures s in Kept(t, cutoff) <==> s in Kept(OnlyTables(t, s), cutoff)
    ensures Only(t.sessions - (t.sessions.Keys - Kept(t, cutoff)), s)
         == Only(t.sessions, s) - (Only(t.sessions, s).Keys - Kept(OnlyTables(t, s), cutoff))
  {
  }

  lemma {:induction false} ProjectPurged(t: Tables, s: SessionId, cutoff: string)
    ensures OnlyTables(Purged(t, cutoff), s) == Purged(OnlyTables(t, s), cutoff)
  {
    var t' := OnlyTables(t, s);
    var kept, kept' := Kept(t, cutoff), Kept(t', cutoff);
    KeptOnly(t, s, cutoff);
    SelectKept(t.spans, s, kept, kept');
    SelectKept(t.metrics, s, kept, kept');
    SelectKept(t.logs, s, kept, kept');
    assert OnlyTables(Purged(t, cutoff), s).peers == Purged(t', cutoff).peers;
  }

  lemma {:induction false} StartCommutes(c: Config, st: State, s: SessionId, request: Request)
    ensures Project(Apply(c, st, Start(request)), s) == Apply(c, Project(st, s), Start(request))
  {
    var t := Task(UnitsOf(request, c.idKey), [], []);
    assert OnlyTask(t, s) == t;
    assert OnlyTasks(st.tasks + [t], s) == OnlyTasks(st.tasks, s) + [t];
  }

  lemma {:induction false} CopiesOnly(u: Unit, item: Payload, order: seq<SessionId>, s: SessionId)
    requires NoDuplicates(order)
    ensures Filter(Copies(u, item, order), ForSession(s)) == Copies(u, item, OnlyOrder(order, s))
  {
    CopiesForSession(u, item, order, s, u.kind);
    FilterAgree(Copies(u, item, order), ForSession(s), Selecting(s, u.kind));
  }

  lemma {:induction false} FanoutOnly(u: Unit, items: seq<Payload>, order: seq<SessionId>, s: SessionId)
    requires NoDuplicates(order)
    ensures Filter(FanoutItems(u, items, order), ForSession(s)) == FanoutItems(u, items, OnlyOrder(order, s))
  {
    if items != [] {
      var n := |items| - 1;
      FanoutOnly(u, items[..n], order, s);
      CopiesOnly(u, items[n], order, s);
      FilterConcat(FanoutItems(u, items[..n], order), Copies(u, items[n], order), ForSession(s));
    }
  }

  lemma {:induction false} OnlyClaimers(routes: PeerRouter.Routes, p: PeerId, s: SessionId)
    ensures PeerRouter.Claimers(OnlyRoutes(routes, s), p) == if s in PeerRouter.Claimers(routes, p) then {s} else {}
  {
  }

  lemma {:induction false} RouteCommutes(c: Config, st: State, s: SessionId, task: TaskId, order: seq<SessionId>)
    requires Enabled(c, st, Route(task, order))
    ensures Enabled(c, Project(st, s), Route(task, OnlyOrder(order, s)))
    ensures Project(AfterRoute(st, task, order), s) == AfterRoute(Project(st, s), task, OnlyOrder(order, s))
  {
    var t := st.tasks[task];
    var u := t.units[|t.orders|];
    OnlyClaimers(st.routes, u.peer, s);
    FanoutOnly(u, u.items, order, s);
    var routed := t.(orders := t.orders + [order], pending := Fanout(u, order));
    assert OnlyTask(routed, s).orders == OnlyTask(t, s).orders + [OnlyOrder(order, s)];
    assert OnlyTasks(st.tasks[task := routed], s) == OnlyTasks(st.tasks, s)[task := OnlyTask(routed, s)];
  }

  lemma {:induction false} OfferCommutes(c: Config, st: State, s: SessionId, task: TaskId)
    requires Enabled(c, st, Offer(task)) && Clean(AfterOffer(c, st, task))
    ensures st.tasks[task].pending[0].session == s ==> Enabled(c, Project(st, s), Offer(task))
    ensures Project(AfterOffer(c, st, task), s)
         == if st.tasks[task].pending[0].session == s then AfterOffer(c, Project(st, s), task) else Project(st, s)
  {
    var t, after := st.tasks[task], AfterOffer(c, st, task);
    var r, x := t.pending[0], after.attempts[|st.attempts|];
    assert x in after.attempts;
    FilterMembers(st.queue, ForSession(s));
    FilterOne(st.queue, r, ForSession(s));
    FilterOne(st.attempts, x, AttemptFor(s));
    var sent := t.(pending := t.pending[1..]);
    assert OnlyTasks(st.tasks[task := sent], s) == OnlyTasks(st.tasks, s)[task := OnlyTask(sent, s)];
    if r.session == s {
      assert Filter(t.pending, ForSession(s)) == [r] + Filter(t.pending[1..], ForSession(s));
      assert ([r] + Filter(t.pending[1..], ForSession(s)))[1..] == Filter(t.pending[1..], ForSession(s));
    } else {
      assert OnlyTasks(st.tasks, s)[task := OnlyTask(sent, s)] == OnlyTasks(st.tasks, s);
      assert Filter(st.queue, ForSession(s)) + [] == Filter(st.queue, ForSession(s));
      assert Filter(st.attempts, AttemptFor(s)) + [] == Filter(st.attempts, AttemptFor(s));
    }
  }

  lemma {:induction false} ReceiveCommutes(c: Config, st: State, s: SessionId)
    requires Enabled(c, st, Receive)
    ensures Exec(c, Project(st, s), Erase(c, st, Receive, s)) == Some(Project(AfterReceive(c, st), s))
  {
    var p, r := Project(st, s), st.queue[0];
    FilterOne(st.batch, r, ForSession(s));
    FilterMembers(st.batch, ForSession(s));
    if r.session == s {
      assert p.queue == [r] + Filter(st.queue[1..], ForSession(s));
      ExecOne(c, p, Receive);
      var q := AfterReceive(c, p);
      assert q.queue == Filter(st.queue[1..], ForSession(s));
      if !q.flushing && |st.batch| + 1 >= c.limits.batchSize {
        ExecOne(c, q, Tick);
        ExecConcat(c, p, [Receive], [Tick]);
      } else {
        assert [Receive] + [] == [Receive];
      }
    } else {
      assert Filter(st.batch, ForSession(s)) + [] == Filter(st.batch, ForSession(s));
      if |st.batch| + 1 >= c.limits.batchSize && p.batch != [] {
        ExecOne(c, p, Tick);
        assert [] + [Tick] == [Tick];
      }
    }
  }

  lemma {:induction false} ProjectInserted(t: Tables, s: SessionId, batch: seq<WriteRecord>)
    ensures OnlyTables(Inserted(t, batch), s) == Inserted(OnlyTables(t, s), Filter(batch, ForSession(s)))
  {
    forall k
      ensures Filter(Filter(batch, OfKind(k)), ForSession(s)) == Filter(Filter(batch, ForSession(s)), OfKind(k))
    {
      FilterTwice(batch, OfKind(k), ForSession(s), Selecting(s, k));
      FilterTwice(batch, ForSession(s), OfKind(k), Selecting(s, k));
    }
    FilterConcat(t.spans, Filter(batch, OfKind(Span)), ForSession(s));
    FilterConcat(t.metrics, Filter(batch, OfKind(Metric)), ForSession(s));
    FilterConcat(t.logs, Filter(batch, OfKind(Log)), ForSession(s));
  }

  lemma {:induction false} OnlyFlushesOne(flushes: seq<Flush>, f: Flush, s: SessionId)
    ensures OnlyFlushes(flushes + [f], s) == OnlyFlushes(flushes, s) + OnlyFlush(f, s)
  {
  }

  /** A committed batch that holds something of the session. */
  lemma {:induction false} OwnFlushCommutes(st: State, s: SessionId, fault: Fault)
    requires st.flushing && Filter(st.batch, ForSession(s)) != []
    requires Insertable(st.tables, st.batch) && !Strikes(fault, |st.batch| + 2)
    ensures AfterFlush(Project(st, s), None) == Project(AfterFlush(st, fault), s)
  {
    FilterMembers(st.batch, ForSession(s));
    assert Insertable(OnlyTables(st.tables, s), Filter(st.batch, ForSession(s)));
    ProjectInserted(st.tables, s, st.batch);
    OnlyFlushesOne(st.flushes, Flush(st.batch, false, true), s);
    assert AfterFlush(st, fault).flushes == st.flushes + [Flush(st.batch, false, true)];
  }

  /** A committed batch that holds nothing of the session does not show in its projection. */
  lemma {:induction false} OtherFlushCommutes(st: State, s: SessionId, fault: Fault)
    requires Filter(st.batch, ForSession(s)) == []
    requires Insertable(st.tables, st.batch) && !Strikes(fault, |st.batch| + 2)
    ensures Project(AfterFlush(st, fault), s) == Project(st, s)
  {
    ProjectInserted(st.tables, s, st.batch);
    InsertedNothing(OnlyTables(st.tables, s));
    OnlyFlushesOne(st.flushes, Flush(st.batch, false, true), s);
    assert OnlyFlushes(st.flushes, s) + [] == OnlyFlushes(st.flushes, s);
  }

  lemma {:induction false} InsertedNothing(t: Tables)
    ensures Inserted(t, []) == t
  {
    assert t.spans + [] == t.spans && t.metrics + [] == t.metrics && t.logs + [] == t.logs;
  }

  lemma {:induction false} FlushCommutes(c: Config, st: State, s: SessionId, fault: Fault)
    requires Enabled(c, st, RunFlush(fault)) && Clean(AfterFlush(st, fault))
    ensures Exec(c, Project(st, s), Erase(c, st, RunFlush(fault), s)) == Some(Project(AfterFlush(st, fault), s))
  {
    assert AfterFlush(st, fault).flushes[|st.flushes|].committed;
    if Filter(st.batch, ForSession(s)) == [] {
      OtherFlushCommutes(st, s, fault);
    } else {
      OwnFlushCommutes(st, s, fault);
      ExecOne(c, Project(st, s), RunFlush(None));
    }
  }

  lemma {:induction false} StepCommutes(c: Config, st: State, a: Action, s: SessionId)
    requires Enabled(c, st, a) && Invariants.Inv(c, st) && Clean(Apply(c, st, a))
    ensures Exec(c, Project(st, s), Erase(c, st, a, s)) == Some(Project(Apply(c, st, a), s))
  {
    var p := Project(st, s);
    match a
    case Create(id, peers, fault) =>
      if id == s {
        OwnCreateCommutes(st, s, peers, fault);
        ExecOne(c, p, a);
      } else {
        OtherCreateCommutes(st, s, id, peers, fault);
      }
    case CreateRoute(id) =>
      CreateRouteCommutes(st, s, id);
      if id == s { ExecOne(c, p, a); }
    case End(id, now, fault) =>
      EndCommutes(st, s, id, now, fault);
      if id == s { ExecOne(c, p, a); }
    case EndRoute(id) =>
      EndRouteCommutes(st, s, id);
      if id == s { ExecOne(c, p, a); }
    case Cleanup(cutoff, fault) =>
      CleanupCommutes(st, s, cutoff, fault);
      ExecOne(c, p, a);
    case Start(request) =>
      StartCommutes(c, st, s, request);
      ExecOne(c, p, a);
    case Route(task, order) =>
      RouteCommutes(c, st, s, task, order);
      ExecOne(c, p, Route(task, OnlyOrder(order, s)));
    case Offer(task) =>
      OfferCommutes(c, st, s, task);
      if st.tasks[task].pending[0].session == s { ExecOne(c, p, a); }
    case Receive => ReceiveCommutes(c, st, s);
    case Tick => ExecOne(c, p, Tick);
    case RunFlush(fault) => FlushCommutes(c, st, s, fault);
  }

  // ---- Whole runs ----

  lemma {:induction false} CleanBefore(c: Config, st: State, a: Action)
    requires Enabled(c, st, a) && Clean(Apply(c, st, a))
    ensures Clean(st)
  {
  }

  lemma {:induction false} ProjectInit(s: SessionId)
    ensures Project(INIT, s) == INIT
  {
  }

  lemma {:induction false} ErasedRunProjects(c: Config, run: seq<Action>, st: State, s: SessionId)
    requires Exec(c, INIT, run) == Some(st) && Clean(st)
    ensures Exec(c, INIT, EraseRun(c, INIT, run, s)) == Some(Project(st, s))
  {
    ProjectInit(s);
    if run != [] {
      var n := |run| - 1;
      var mid := Exec(c, INIT, run[..n]).value;
      CleanBefore(c, mid, run[n]);
      ErasedRunProjects(c, run[..n], mid, s);
      Invariants.ReachableInv(c, run[..n]);
      StepCommutes(c, mid, run[n], s);
      ExecConcat(c, INIT, EraseRun(c, INIT, run[..n], s), Erase(c, mid, run[n], s));
    }
  }

  /** The erased run creates and ends no session but `s`. */
  ghost predicate Concerns(a: Action, s: SessionId) {
    match a
    case Create(id, _, _) => id == s
    case CreateRoute(id) => id == s
    case End(id, _, _) => id == s
    case EndRoute(id) => id == s
    case _ => true
  }

  lemma {:induction false} ErasedRunConcerns(c: Config, st: State, run: seq<Action>, s: SessionId)
    requires Exec(c, st, run).Some?
    ensures forall a :: a in EraseRun(c, st, run, s) ==> Concerns(a, s)
  {
    if run != [] {
      var n := |run| - 1;
      ErasedRunConcerns(c, st, run[..n], s);
      EraseConcerns(c, Exec(c, st, run[..n]).value, run[n], s);
    }
  }

  lemma {:induction false} EraseConcerns(c: Config, st: State, a: Action, s: SessionId)
    requires Enabled(c, st, a)
    ensures forall x :: x in Erase(c, st, a, s) ==> Concerns(x, s)
  {
  }

  /** What erasing leaves in place: the handlers' steps for `s`, every cleanup and every request. */
  function Essential(s: SessionId): Action -> bool {
    (a: Action) =>
      match a
      case Create(id, _, _) => id == s
      case CreateRoute(id) => id == s
      case End(id, _, _) => id == s
      case EndRoute(id) => id == s
      case Cleanup(_, _) => true
      case Start(_) => true
      case _ => false
  }

  lemma {:induction false} EraseKeepsEssentials(c: Config, st: State, a: Action, s: SessionId)
    requires Enabled(c, st, a)
    ensures Filter(Erase(c, st, a, s), Essential(s)) == if Essential(s)(a) then [a] else []
  {
    if Essential(s)(a) {
      assert Erase(c, st, a, s) == [a];
      FilterAll([a], Essential(s));
    } else {
      FilterNone(Erase(c, st, a, s), Essential(s));
    }
  }

  lemma {:induction false} ErasedRunKeepsEssentials(c: Config, st: State, run: seq<Action>, s: SessionId)
    requires Exec(c, st, run).Some?
    ensures Filter(EraseRun(c, st, run, s), Essential(s)) == Filter(run, Essential(s))
  {
    if run != [] {
      var n := |run| - 1;
      var mid := Exec(c, st, run[..n]).value;
      ErasedRunKeepsEssentials(c, st, run[..n], s);
      EraseKeepsEssentials(c, mid, run[n], s);
      FilterConcat(EraseRun(c, st, run[..n], s), Erase(c, mid, run[n], s), Essential(s));
      FilterLast(run, Essential(s));
    }
  }

  lemma {:induction false} RequestsAreEssential(run: seq<Action>, s: SessionId)
    ensures Capture.Requests(Filter(run, Essential(s))) == Capture.Requests(run)
  {
    if run != [] {
      var n := |run| - 1;
      RequestsAreEssential(run[..n], s);
      FilterLast(run, Essential(s));
      var before := Filter(run[..n], Essential(s));
      if Essential(s)(run[n]) {
        assert (before + [run[n]])[..|before|] == before;
      } else {
        assert before + [] == before;
      }
    }
  }

  /**
   Session independence: after any run with no refusal and no lost batch, the rows of `s` are those of a run in
   which no other session was ever created or ended. That run has the same requests, the same cleanups, and every
   create and end of `s`, in the same order.
   */
  lemma {:induction false} SessionIndependence(c: Config, run: seq<Action>, st: State, s: SessionId)
    requires Exec(c, INIT, run) == Some(st) && Clean(st)
    ensures var alone := EraseRun(c, INIT, run, s);
            && (forall a :: a in alone ==> Concerns(a, s))
            && Filter(alone, Essential(s)) == Filter(run, Essential(s))
            && Capture.Requests(alone) == Capture.Requests(run)
            && Exec(c, INIT, alone).Some?
            && (s in Exec(c, INIT, alone).value.tables.sessions <==> s in st.tables.sessions)
            && forall k :: Capture.SessionRows(Exec(c, INIT, alone).value.tables, s, k)
                           == Capture.SessionRows(st.tables, s, k)
  {
    ErasedRunConcerns(c, INIT, run, s);
    ErasedRunKeepsEssentials(c, INIT, run, s);
    RequestsAreEssential(run, s);
    RequestsAreEssential(EraseRun(c, INIT, run, s), s);
    ErasedRunProjects(c, run, st, s);
    forall k ensures Capture.SessionRows(OnlyTables(st.tables, s), s, k) == Capture.SessionRows(st.tables, s, k) {
      FilterTwice(Rows(st.tables, k), ForSession(s), ForSession(s), ForSession(s));
    }
  }
}
