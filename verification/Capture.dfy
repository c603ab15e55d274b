/** What the pipeline promises over every run: keys, rows, losses, exact capture, and the tail after teardown. */
module Capture {
  import opened Seqs
  import opened Types
  import opened Database
  import PeerRouter
  import opened WriteBuffer
  import opened Otlp
  import opened Pipeline
  import opened Invariants

  // ---- The key the schema does not declare ----

  /** Every telemetry row's (session, peer) pair is a row of debug_session_peers. */
  lemma {:induction false} UndeclaredForeignKey(c: Config, run: seq<Action>, st: State, k: RecordType, r: WriteRecord)
    requires Exec(c, INIT, run) == Some(st) && r in Rows(st.tables, k)
    ensures (r.session, r.peer) in st.tables.peers
  {
    ReachableInv(c, run);
    FilterMembers(Committed(st), LiveOfKind(st.tables.sessions.Keys, k));
    CommittedClaimed(st);
  }

  // ---- Conservation, and rows as committed history ----

  function SessionRows(t: Tables, s: SessionId, k: RecordType): seq<WriteRecord> {
    Filter(Rows(t, k), ForSession(s))
  }

  /** Accepted records are, in order, the flushed batches, then the batch, then the queue. */
  lemma {:induction false} Conservation(c: Config, run: seq<Action>, st: State)
    requires Exec(c, INIT, run) == Some(st)
    ensures Accepted(st) == Flatten(Contents(st.flushes)) + st.batch + st.queue
  {
    assert ConservationInv(st) by {
      ReachableInv(c, run);
    }
    ConcatAssociates(Flushed(st.flushes), st.batch, st.queue);
  }

  /** A stored session's rows are its committed records of that kind, in order; an absent session has none. */
  lemma {:induction false} RowsAreCommittedHistory(c: Config, run: seq<Action>, st: State, s: SessionId, k: RecordType)
    requires Exec(c, INIT, run) == Some(st)
    ensures SessionRows(st.tables, s, k)
         == if s in st.tables.sessions then Filter(Committed(st), Selecting(s, k)) else []
  {
    ReachableInv(c, run);
    var live := st.tables.sessions.Keys;
    if s in live {
      FilterTwice(Committed(st), LiveOfKind(live, k), ForSession(s), Selecting(s, k));
    } else {
      FilterMembers(Committed(st), LiveOfKind(live, k));
      FilterNone(Rows(st.tables, k), ForSession(s));
    }
  }

  /** The three tables by name: spans, metrics and logs each hold the committed records of that kind, and no others. */
  lemma {:induction false} TablesByName(c: Config, run: seq<Action>, st: State, r: WriteRecord)
    requires Exec(c, INIT, run) == Some(st)
    ensures r in st.tables.spans <==> r in Committed(st) && r.session in st.tables.sessions && r.kind == Span
    ensures r in st.tables.metrics <==> r in Committed(st) && r.session in st.tables.sessions && r.kind == Metric
    ensures r in st.tables.logs <==> r in Committed(st) && r.session in st.tables.sessions && r.kind == Log
  {
    assert RowsInv(st) by {
      ReachableInv(c, run);
    }
    var live := st.tables.sessions.Keys;
    FilterMembers(Committed(st), LiveOfKind(live, Span));
    FilterMembers(Committed(st), LiveOfKind(live, Metric));
    FilterMembers(Committed(st), LiveOfKind(live, Log));
    assert Rows(st.tables, Span) == st.tables.spans && Rows(st.tables, Metric) == st.tables.metrics;
    assert Rows(st.tables, Log) == st.tables.logs;
  }

  // ---- Loss ----

  /** A flush fails exactly when storage fails or some record's session has been deleted. */
  lemma {:induction false} LossAtOneFlush(c: Config, run: seq<Action>, st: State, fault: Fault)
    requires Exec(c, INIT, run) == Some(st) && st.flushing
    ensures var f := AfterFlush(st, fault).flushes[|st.flushes|];
            f.records == st.batch &&
            (!f.committed <==>
              Strikes(fault, |st.batch| + 2)
              || exists r :: r in st.batch && r.session in st.claims && r.session !in st.tables.sessions)
  {
    ReachableInv(c, run);
    CommittedClaimed(st);
    if !Insertable(st.tables, st.batch) {
      var r :| r in st.batch && r.session !in st.tables.sessions;
      assert Claimed(st.claims, r);
    }
  }

  /** The cleanup deletes no session that some task could still write for. */
  ghost predicate Safe(st: State, cutoff: string) {
    forall s :: s in st.tables.sessions && s !in Kept(st.tables, cutoff) ==>
      && s !in st.creating
      && (forall p :: (p, s) !in st.routes)
      && (forall r :: r in st.queue || r in st.batch ==> r.session != s)
      && (forall task, r :: 0 <= task < |st.tasks| && r in st.tasks[task].pending ==> r.session != s)
  }

  /** No storage fault strikes a flush, and every cleanup that runs is safe. */
  ghost predicate Undisturbed(st: State, a: Action) {
    match a
    case Cleanup(cutoff, _) => Safe(st, cutoff)
    case RunFlush(fault) => !Strikes(fault, |st.batch| + 2)
    case _ => true
  }

  ghost predicate UndisturbedRun(c: Config, st: State, run: seq<Action>)
    requires Exec(c, st, run).Some?
  {
    run == [] ||
    (UndisturbedRun(c, st, run[..|run| - 1])
     && Undisturbed(Exec(c, st, run[..|run| - 1]).value, run[|run| - 1]))
  }

  ghost predicate AllLive(t: Tables, rs: seq<WriteRecord>) {
    forall r :: r in rs ==> r.session in t.sessions
  }

  /** Every session that something may still be written for is stored. */
  ghost predicate LiveInv(st: State) {
    && (forall s :: s in st.creating ==> s in st.tables.sessions)
    && (forall s, p :: (p, s) in st.routes ==> s in st.tables.sessions)
    && AllLive(st.tables, st.queue) && AllLive(st.tables, st.batch)
    && (forall task :: 0 <= task < |st.tasks| ==> AllLive(st.tables, st.tasks[task].pending))
    && (forall f :: f in st.flushes ==> f.committed)
  }

  lemma {:induction false} SafeCleanupKeepsLive(st: State, cutoff: string, fault: Fault)
    requires LiveInv(st) && Safe(st, cutoff)
    ensures LiveInv(AfterCleanup(st, cutoff, fault))
  {
  }

  lemma {:induction false} GrowthKeepsLive(st: State, after: State)
    requires LiveInv(st) && st.tables.sessions.Keys <= after.tables.sessions.Keys
    requires after.queue == st.queue && after.batch == st.batch && after.tasks == st.tasks
    requires after.routes == st.routes && after.flushes == st.flushes
    requires forall s :: s in after.creating ==> s in after.tables.sessions
    ensures LiveInv(after)
  {
  }

  lemma {:induction false} RouterKeepsLive(st: State, after: State)
    requires LiveInv(st) && after.tables == st.tables && after.tasks == st.tasks
    requires after.queue == st.queue && after.batch == st.batch && after.flushes == st.flushes
    requires forall s :: s in after.creating ==> s in st.creating
    requires forall s, p :: (p, s) in after.routes ==> (p, s) in st.routes || s in st.creating
    ensures LiveInv(after)
  {
  }

  lemma {:induction false} RouteKeepsLive(st: State, task: TaskId, order: seq<SessionId>)
    requires LiveInv(st) && task < |st.tasks| && |st.tasks[task].orders| < |st.tasks[task].units|
    requires Enumerates(order, PeerRouter.Claimers(st.routes, st.tasks[task].units[|st.tasks[task].orders|].peer))
    ensures LiveInv(AfterRoute(st, task, order))
  {
    var u := st.tasks[task].units[|st.tasks[task].orders|];
    FanoutMembers(u, u.items, order);
    forall r | r in Fanout(u, order) ensures r.session in st.tables.sessions {
      PeerRouter.ClaimersMeaning(st.routes, u.peer, r.session);
    }
    assert AllLive(st.tables, Fanout(u, order));
  }

  lemma {:induction false} OfferKeepsLive(c: Config, st: State, task: TaskId)
    requires LiveInv(st) && task < |st.tasks| && st.tasks[task].pending != []
    ensures LiveInv(AfterOffer(c, st, task))
  {
  }

  lemma {:induction false} FlushKeepsLive(st: State, fault: Fault)
    requires LiveInv(st) && !Strikes(fault, |st.batch| + 2)
    ensures LiveInv(AfterFlush(st, fault))
  {
  }

  lemma {:induction false} LiveKept(c: Config, st: State, a: Action)
    requires Enabled(c, st, a) && RouterInv(st) && LiveInv(st) && Undisturbed(st, a)
    ensures LiveInv(Apply(c, st, a))
  {
    match a
    case Create(id, peers, fault) => GrowthKeepsLive(st, AfterCreate(st, id, peers, fault));
    case CreateRoute(id) =>
      RouterKeepsLive(st, AfterCreateRoute(st, id));
    case End(id, now, fault) => GrowthKeepsLive(st, AfterEnd(st, id, now, fault));
    case EndRoute(id) =>
      RouterKeepsLive(st, AfterEndRoute(st, id));
    case Cleanup(cutoff, fault) => SafeCleanupKeepsLive(st, cutoff, fault);
    case Route(task, order) => RouteKeepsLive(st, task, order);
    case Offer(task) => OfferKeepsLive(c, st, task);
    case RunFlush(fault) => FlushKeepsLive(st, fault);
    case Start(_) =>
    case Receive =>
    case Tick =>
  }

  lemma {:induction false} LiveRun(c: Config, run: seq<Action>)
    requires Exec(c, INIT, run).Some? && UndisturbedRun(c, INIT, run)
    ensures LiveInv(Exec(c, INIT, run).value)
  {
    if run != [] {
      var n := |run| - 1;
      LiveRun(c, run[..n]);
      ReachableInv(c, run[..n]);
      LiveKept(c, Exec(c, INIT, run[..n]).value, run[n]);
    }
  }

  /** With safe cleanups and no fault nothing accepted is ever lost. */
  lemma {:induction false} SafeRunsLoseNothing(c: Config, run: seq<Action>, st: State)
    requires Exec(c, INIT, run) == Some(st) && UndisturbedRun(c, INIT, run)
    ensures Committed(st) + st.batch + st.queue == Accepted(st)
  {
    LiveRun(c, run);
    Conservation(c, run, st);
    AllCommitted(st.flushes);
  }

  ghost predicate NoneCommitted(flushes: seq<Flush>, s: SessionId) {
    forall f, r :: f in flushes && r in f.records && r.session == s ==> !f.committed
  }

  lemma {:induction false} DeletedStep(c: Config, st: State, a: Action, s: SessionId)
    requires Enabled(c, st, a) && s in st.claims && s !in st.tables.sessions
    ensures var after := Apply(c, st, a);
            && s in after.claims && s !in after.tables.sessions
            && st.flushes <= after.flushes && NoneCommitted(after.flushes[|st.flushes|..], s)
  {
    match a
    case Create(_, _, _) =>
    case CreateRoute(_) =>
    case End(_, _, _) =>
    case EndRoute(_) =>
    case Cleanup(_, _) =>
    case Start(_) =>
    case Route(_, _) =>
    case Offer(_) =>
    case Receive =>
    case Tick =>
    case RunFlush(fault) =>
      assert AfterFlush(st, fault).flushes[|st.flushes|..] == [AfterFlush(st, fault).flushes[|st.flushes|]];
  }

  /** Flushes only accumulate, and a deleted session never comes back, so its records never commit. */
  lemma {:induction false} DeletedNeverCommits(c: Config, st: State, run: seq<Action>, st': State, s: SessionId)
    requires Exec(c, st, run) == Some(st') && s in st.claims && s !in st.tables.sessions
    ensures s in st'.claims && s !in st'.tables.sessions
    ensures st.flushes <= st'.flushes && NoneCommitted(st'.flushes[|st.flushes|..], s)
  {
    if run != [] {
      var n := |run| - 1;
      var mid := Exec(c, st, run[..n]).value;
      DeletedNeverCommits(c, st, run[..n], mid, s);
      DeletedStep(c, mid, run[n], s);
      assert st'.flushes[|st.flushes|..] == mid.flushes[|st.flushes|..] + st'.flushes[|mid.flushes|..];
    }
  }

  lemma {:induction false} FlushesGrow(c: Config, st: State, run: seq<Action>, st': State)
    requires Exec(c, st, run) == Some(st')
    ensures st.flushes <= st'.flushes
  {
    if run != [] {
      var n := |run| - 1;
      var mid := Exec(c, st, run[..n]).value;
      FlushesGrow(c, st, run[..n], mid);
      StepGrowsFlushes(c, mid, run[n]);
    }
  }

  lemma {:induction false} StepGrowsFlushes(c: Config, st: State, a: Action)
    requires Enabled(c, st, a)
    ensures st.flushes <= Apply(c, st, a).flushes
  {
  }

  /**
   Of the records accepted by a drained state, those not yet flushed at an earlier state are in flushes finished
   since: what was queued or batched there, and what was accepted later.
   */
  lemma {:induction false} InFlightGetsFlushed(c: Config, before: seq<Action>, st: State, run: seq<Action>,
                                               st': State, r: WriteRecord)
    requires Exec(c, INIT, before) == Some(st) && Exec(c, st, run) == Some(st') && Drained(st')
    ensures st.flushes <= st'.flushes
    ensures |Flushed(st.flushes)| <= |Accepted(st')|
    ensures r in Accepted(st')[|Flushed(st.flushes)|..] ==>
              exists f :: f in st'.flushes[|st.flushes|..] && r in f.records
  {
    FlushesGrow(c, st, run, st');
    var later := st'.flushes[|st.flushes|..];
    assert Flushed(st'.flushes) == Accepted(st') by {
      ReachableInv(c, before);
      RunKeepsInv(c, st, run);
      assert Flushed(st'.flushes) + ([] + []) == Flushed(st'.flushes);
    }
    assert st'.flushes == st.flushes + later;
    FlushedConcat(st.flushes, later);
    assert Accepted(st')[|Flushed(st.flushes)|..] == Flushed(later);
    if r in Flushed(later) {
      FlushedMember(later, r);
    }
  }

  /**
   The converse: once a session is deleted, every record of it that is not yet flushed and is accepted in the end
   costs the batch that holds it. That covers what was queued or batched at the deletion, what an export still had
   to send, and what a route left over brings in later.
   */
  lemma {:induction false} UnsafeCleanupCostsABatch(c: Config, before: seq<Action>, st: State, run: seq<Action>,
                                                    st': State, r: WriteRecord)
    requires Exec(c, INIT, before) == Some(st) && r.session in st.claims && r.session !in st.tables.sessions
    requires Exec(c, st, run) == Some(st') && Drained(st')
    ensures st.flushes <= st'.flushes && |Flushed(st.flushes)| <= |Accepted(st')|
    ensures r in Accepted(st')[|Flushed(st.flushes)|..] ==>
              exists f :: f in st'.flushes[|st.flushes|..] && r in f.records && !f.committed
  {
    DeletedNeverCommits(c, st, run, st', r.session);
    InFlightGetsFlushed(c, before, st, run, st', r);
  }

  // ---- Exact capture ----

  ghost predicate NothingRefused(st: State) {
    forall x :: x in st.attempts ==> x.accepted
  }

  ghost predicate NothingLost(st: State) {
    forall f :: f in st.flushes ==> f.committed
  }

  ghost predicate Drained(st: State) {
    st.queue == [] && st.batch == []
  }

  /** A decision names exactly the routed sessions created for the unit's peer. */
  lemma {:induction false} DecisionMeaning(c: Config, run: seq<Action>, st: State, task: TaskId,
                                           order: seq<SessionId>, s: SessionId)
    requires Exec(c, INIT, run) == Some(st) && Enabled(c, st, Route(task, order))
    ensures var peer := st.tasks[task].units[|st.tasks[task].orders|].peer;
            s in order <==> Routed(st, s) && peer in st.claims[s]
  {
    ReachableInv(c, run);
    var peer := st.tasks[task].units[|st.tasks[task].orders|].peer;
    PeerRouter.ClaimersMeaning(st.routes, peer, s);
    assert (peer, s) in st.routes <==> Routed(st, s) && peer in st.claims[s];
  }

  /** The rows whose tag is `task`, in order. */
  function Tagged(rows: seq<WriteRecord>, tags: seq<TaskId>, task: TaskId): seq<WriteRecord>
    requires |tags| == |rows|
  {
    if rows == [] then []
    else
      var n := |rows| - 1;
      Tagged(rows[..n], tags[..n], task) + if tags[n] == task then [rows[n]] else []
  }

  /** `rows` interleaves what session `s` is owed by each export, each export's share kept in its order. */
  ghost predicate InterleavesWhatIsOwed(rows: seq<WriteRecord>, tasks: seq<Task>, s: SessionId, k: RecordType)
    requires forall id :: 0 <= id < |tasks| ==> |tasks[id].orders| <= |tasks[id].units|
  {
    exists tags: seq<TaskId> ::
      && |tags| == |rows|
      && (forall i :: 0 <= i < |tags| ==> tags[i] < |tasks|)
      && forall id :: 0 <= id < |tasks| ==>
           Tagged(rows, tags, id) + Filter(tasks[id].pending, Selecting(s, k))
           == Captured(tasks[id].units, tasks[id].orders, s, k)
  }

  function TagsOf(log: seq<Attempt>, s: SessionId, k: RecordType): seq<TaskId> {
    if log == [] then []
    else
      var x := log[|log| - 1];
      TagsOf(log[..|log| - 1], s, k) + if x.record.session == s && x.record.kind == k then [x.task] else []
  }

  lemma {:induction false} TaggedOne(rows: seq<WriteRecord>, tags: seq<TaskId>, r: WriteRecord, tag: TaskId,
                                     task: TaskId)
    requires |tags| == |rows|
    ensures Tagged(rows + [r], tags + [tag], task) == Tagged(rows, tags, task) + if tag == task then [r] else []
  {
  }

  lemma {:induction false} TagsAreTasks(log: seq<Attempt>, s: SessionId, k: RecordType, bound: nat)
    requires forall x :: x in log ==> x.accepted && x.task < bound
    ensures |TagsOf(log, s, k)| == |Filter(AcceptedRecords(log), Selecting(s, k))|
    ensures forall i :: 0 <= i < |TagsOf(log, s, k)| ==> TagsOf(log, s, k)[i] < bound
  {
    if log != [] {
      var n := |log| - 1;
      assert log[n] in log;
      TagsAreTasks(log[..n], s, k, bound);
      FilterOne(AcceptedRecords(log[..n]), log[n].record, Selecting(s, k));
    }
  }

  lemma {:induction false} TagsSelect(log: seq<Attempt>, s: SessionId, k: RecordType, id: TaskId)
    requires forall x :: x in log ==> x.accepted
    ensures |TagsOf(log, s, k)| == |Filter(AcceptedRecords(log), Selecting(s, k))|
    ensures Tagged(Filter(AcceptedRecords(log), Selecting(s, k)), TagsOf(log, s, k), id)
         == Filter(AttemptsOf(log, id), Selecting(s, k))
  {
    if log != [] {
      var n := |log| - 1;
      var x, rows, tags := log[n], Filter(AcceptedRecords(log[..n]), Selecting(s, k)), TagsOf(log[..n], s, k);
      assert x in log;
      TagsSelect(log[..n], s, k, id);
      FilterOne(AcceptedRecords(log[..n]), x.record, Selecting(s, k));
      FilterOne(AttemptsOf(log[..n], id), x.record, Selecting(s, k));
      assert AttemptsOf(log[..n], id) + [] == AttemptsOf(log[..n], id);
      if Selecting(s, k)(x.record) {
        TaggedOne(rows, tags, x.record, x.task, id);
      } else {
        assert rows + [] == rows && tags + [] == tags;
      }
    }
  }

  /** The export requests of a run, in the order they start. */
  function Requests(run: seq<Action>): seq<Request> {
    if run == [] then []
    else
      var last := run[|run| - 1];
      Requests(run[..|run| - 1]) + if last.Start? then [last.request] else []
  }

  /** The decisions a run makes for one export, in order. */
  function DecisionsOf(run: seq<Action>, id: TaskId): seq<seq<SessionId>> {
    if run == [] then []
    else
      var last := run[|run| - 1];
      DecisionsOf(run[..|run| - 1], id) + if last.Route? && last.task == id then [last.order] else []
  }

  /** The export's entry is for its own request and holds its own decisions. */
  ghost predicate TaskOf(c: Config, run: seq<Action>, st: State, id: TaskId)
    requires id < |st.tasks| == |Requests(run)|
  {
    && st.tasks[id].units == UnitsOf(Requests(run)[id], c.idKey)
    && st.tasks[id].orders == DecisionsOf(run, id)
  }

  lemma {:induction false} NoTaskNoDecision(c: Config, run: seq<Action>, st: State, id: TaskId)
    requires Exec(c, INIT, run) == Some(st) && id >= |st.tasks|
    ensures DecisionsOf(run, id) == []
  {
    if run != [] {
      var n := |run| - 1;
      var mid := Exec(c, INIT, run[..n]).value;
      TasksGrow(c, mid, run[n]);
      NoTaskNoDecision(c, run[..n], mid, id);
    }
  }

  lemma {:induction false} TasksAreRequests(c: Config, run: seq<Action>, st: State)
    requires Exec(c, INIT, run) == Some(st)
    ensures |st.tasks| == |Requests(run)|
    ensures forall id :: 0 <= id < |st.tasks| ==> TaskOf(c, run, st, id)
  {
    if run != [] {
      var n := |run| - 1;
      var mid := Exec(c, INIT, run[..n]).value;
      TasksAreRequests(c, run[..n], mid);
      TasksGrow(c, mid, run[n]);
      forall id | 0 <= id < |st.tasks| ensures TaskOf(c, run, st, id) {
        if id < |mid.tasks| {
          assert TaskOf(c, run[..n], mid, id);
        } else {
          NoTaskNoDecision(c, run[..n], mid, id);
        }
      }
    }
  }

  /** What one step does to the entries of the exports. */
  lemma {:induction false} TasksGrow(c: Config, st: State, a: Action)
    requires Enabled(c, st, a)
    ensures var after := Apply(c, st, a);
            && |after.tasks| == |st.tasks| + (if a.Start? then 1 else 0)
            && (a.Start? ==> after.tasks[|st.tasks|] == Task(UnitsOf(a.request, c.idKey), [], []))
            && forall id :: 0 <= id < |st.tasks| ==>
                 && after.tasks[id].units == st.tasks[id].units
                 && after.tasks[id].orders == st.tasks[id].orders + if a.Route? && a.task == id then [a.order] else []
  {
    if !a.Start? && !a.Route? && !a.Offer? {
      assert Apply(c, st, a).tasks == st.tasks;
    }
  }

  /**
   When nothing was refused, nothing was lost and the buffer has drained, the rows of a stored session are
   exactly what the routing decisions owed it, in the order of their enqueueing, whatever order each decision was
   iterated in. The entries are those of the run's own requests and decisions.
   */
  lemma {:induction false} ExactCapture(c: Config, run: seq<Action>, st: State, s: SessionId, k: RecordType)
    requires Exec(c, INIT, run) == Some(st)
    requires NothingRefused(st) && NothingLost(st) && Drained(st) && s in st.tables.sessions
    ensures |st.tasks| == |Requests(run)| && forall id :: 0 <= id < |st.tasks| ==> TaskOf(c, run, st, id)
    ensures forall id :: 0 <= id < |st.tasks| ==> |st.tasks[id].orders| <= |st.tasks[id].units|
    ensures SessionRows(st.tables, s, k) == Filter(Accepted(st), Selecting(s, k))
    ensures InterleavesWhatIsOwed(SessionRows(st.tables, s, k), st.tasks, s, k)
  {
    assert TasksInv(st) by {
      ReachableInv(c, run);
    }
    TasksAreRequests(c, run, st);
    RowsAreAccepted(c, run, st, s, k);
    var tags := TagsOf(st.attempts, s, k);
    TagsAreTasks(st.attempts, s, k, |st.tasks|);
    forall id | 0 <= id < |st.tasks|
      ensures |st.tasks[id].orders| <= |st.tasks[id].units|
      ensures Tagged(SessionRows(st.tables, s, k), tags, id) + Filter(st.tasks[id].pending, Selecting(s, k))
           == Captured(st.tasks[id].units, st.tasks[id].orders, s, k)
    {
      TagsSelect(st.attempts, s, k, id);
      AttemptedAndDue(st, id, s, k);
    }
  }

  /** With nothing lost and nothing in flight, the rows are the accepted records. */
  lemma {:induction false} RowsAreAccepted(c: Config, run: seq<Action>, st: State, s: SessionId, k: RecordType)
    requires Exec(c, INIT, run) == Some(st) && NothingLost(st) && Drained(st) && s in st.tables.sessions
    ensures SessionRows(st.tables, s, k) == Filter(Accepted(st), Selecting(s, k))
  {
    Conservation(c, run, st);
    RowsAreCommittedHistory(c, run, st, s, k);
    AllCommitted(st.flushes);
    assert Accepted(st) == Committed(st) + [] + [] == Committed(st);
  }

  /** What an export has sent for a session and what it still has to send is what its decisions owe. */
  lemma {:induction false} AttemptedAndDue(st: State, id: TaskId, s: SessionId, k: RecordType)
    requires TasksInv(st) && id < |st.tasks|
    ensures var t := st.tasks[id];
            && |t.orders| <= |t.units|
            && Filter(AttemptsOf(st.attempts, id), Selecting(s, k)) + Filter(t.pending, Selecting(s, k))
               == Captured(t.units, t.orders, s, k)
  {
    var t := st.tasks[id];
    assert TaskInv(st, id, t);
    FilterConcat(AttemptsOf(st.attempts, id), t.pending, Selecting(s, k));
    FanoutForSession(t.units, t.orders, s, k);
  }

  // ---- The tail after teardown ----

  /** `remove_session` has run, after the create had routed the session. */
  ghost predicate TornDown(st: State, s: SessionId) {
    s in st.claims && s !in st.creating && s in st.removed && s !in st.overtaken
  }

  function PendingOf(tasks: seq<Task>, id: TaskId): seq<WriteRecord> {
    if id < |tasks| then tasks[id].pending else []
  }

  /** The records of `s` the export has tried to enqueue, then those it still will for its current decision. */
  ghost function Tail(st: State, id: TaskId, s: SessionId): seq<WriteRecord> {
    Filter(AttemptsOf(st.attempts, id), ForSession(s)) + Filter(PendingOf(st.tasks, id), ForSession(s))
  }

  lemma {:induction false} RouteKeepsTail(st: State, task: TaskId, order: seq<SessionId>, s: SessionId, id: TaskId)
    requires RouterInv(st) && TornDown(st, s)
    requires task < |st.tasks| && st.tasks[task].pending == [] && |st.tasks[task].orders| < |st.tasks[task].units|
    requires Enumerates(order, PeerRouter.Claimers(st.routes, st.tasks[task].units[|st.tasks[task].orders|].peer))
    ensures Tail(AfterRoute(st, task, order), id, s) == Tail(st, id, s)
  {
    if task == id {
      var u := st.tasks[id].units[|st.tasks[id].orders|];
      PeerRouter.ClaimersMeaning(st.routes, u.peer, s);
      assert (u.peer, s) !in st.routes;
      FanoutMembers(u, u.items, order);
      FilterNone(Fanout(u, order), ForSession(s));
    }
  }

  lemma {:induction false} MoveOne(done: seq<WriteRecord>, due: seq<WriteRecord>, s: SessionId)
    requires due != []
    ensures Filter(done + [due[0]], ForSession(s)) + Filter(due[1..], ForSession(s))
         == Filter(done, ForSession(s)) + Filter(due, ForSession(s))
  {
    FilterOne(done, due[0], ForSession(s));
  }

  lemma {:induction false} OfferKeepsTail(c: Config, st: State, task: TaskId, s: SessionId, id: TaskId)
    requires task < |st.tasks| && st.tasks[task].pending != []
    ensures Tail(AfterOffer(c, st, task), id, s) == Tail(st, id, s)
  {
    var x, done := AfterOffer(c, st, task).attempts[|st.attempts|], AttemptsOf(st.attempts, id);
    LogOne(st.attempts, x);
    if task == id {
      MoveOne(done, st.tasks[id].pending, s);
    } else {
      assert done + [] == done;
    }
  }

  lemma {:induction false} TailStep(c: Config, st: State, a: Action, s: SessionId, id: TaskId)
    requires Enabled(c, st, a) && LifecycleInv(st) && RouterInv(st) && TornDown(st, s)
    ensures TornDown(Apply(c, st, a), s)
    ensures Tail(Apply(c, st, a), id, s) == Tail(st, id, s)
  {
    match a
    case Route(task, order) => RouteKeepsTail(st, task, order, s, id);
    case Offer(task) => OfferKeepsTail(c, st, task, s, id);
    case Start(request) =>
      assert PendingOf(Apply(c, st, a).tasks, id) == PendingOf(st.tasks, id);
    case _ => UntouchedTail(c, st, a, s);
  }

  lemma {:induction false} UntouchedTail(c: Config, st: State, a: Action, s: SessionId)
    requires Enabled(c, st, a) && LifecycleInv(st) && TornDown(st, s) && !a.Route? && !a.Offer? && !a.Start?
    ensures TornDown(Apply(c, st, a), s)
    ensures Apply(c, st, a).attempts == st.attempts && Apply(c, st, a).tasks == st.tasks
  {
  }

  /** After teardown no run adds to an export's tail: it only moves from pending to attempted. */
  lemma {:induction false} TailIsFixed(c: Config, st: State, run: seq<Action>, st': State, s: SessionId, id: TaskId)
    requires Inv(c, st) && TornDown(st, s) && Exec(c, st, run) == Some(st')
    ensures TornDown(st', s) && Tail(st', id, s) == Tail(st, id, s)
  {
    if run != [] {
      var n := |run| - 1;
      var mid := Exec(c, st, run[..n]).value;
      TailIsFixed(c, st, run[..n], mid, s, id);
      RunKeepsInv(c, st, run[..n]);
      TailStep(c, mid, run[n], s, id);
    }
  }

  /** How many items the last `copies` copies of a fan-out to `sessions` sessions belong to. */
  function ItemsSpanned(copies: nat, sessions: nat): nat
    requires sessions > 0
  {
    if copies == 0 then 0
    else if copies <= sessions then 1
    else 1 + ItemsSpanned(copies - sessions, sessions)
  }

  lemma {:induction false} SpannedAtMost(items: nat, copies: nat, sessions: nat)
    requires sessions > 0 && copies <= items * sessions
    ensures ItemsSpanned(copies, sessions) <= items
  {
    if copies > sessions {
      assert copies - sessions <= (items - 1) * sessions;
      SpannedAtMost(items - 1, copies - sessions, sessions);
    }
  }

  lemma {:induction false} CopiesOnce(u: Unit, item: Payload, order: seq<SessionId>, s: SessionId)
    requires NoDuplicates(order)
    ensures |Filter(Copies(u, item, order), ForSession(s))| <= 1
  {
    CopiesForSession(u, item, order, s, u.kind);
    FilterAgree(Copies(u, item, order), ForSession(s), Selecting(s, u.kind));
  }

  /** The last `n` elements of a sequence. */
  function Last<T>(xs: seq<T>, n: nat): seq<T>
    requires n <= |xs|
  {
    xs[|xs| - n..]
  }

  lemma {:induction false} LastOfTwo<T>(front: seq<T>, last: seq<T>, n: nat)
    requires n <= |front| + |last|
    ensures Last(front + last, n) == if n <= |last| then Last(last, n) else Last(front, n - |last|) + last
  {
  }

  lemma {:induction false} LastHasFewer(xs: seq<WriteRecord>, n: nat, s: SessionId)
    requires n <= |xs|
    ensures |Filter(Last(xs, n), ForSession(s))| <= |Filter(xs, ForSession(s))|
  {
    assert xs == xs[..|xs| - n] + Last(xs, n);
    FilterConcat(xs[..|xs| - n], Last(xs, n), ForSession(s));
  }

  /** A session has at most one copy of each item among the last copies of a fan-out. */
  lemma {:induction false} LastCopies(u: Unit, items: seq<Payload>, order: seq<SessionId>, n: nat, s: SessionId)
    requires NoDuplicates(order) && order != [] && n <= |FanoutItems(u, items, order)|
    ensures |Filter(Last(FanoutItems(u, items, order), n), ForSession(s))| <= ItemsSpanned(n, |order|)
  {
    if n > 0 {
      var front, last := FanoutItems(u, items[..|items| - 1], order), Copies(u, items[|items| - 1], order);
      CopiesOnce(u, items[|items| - 1], order, s);
      LastOfTwo(front, last, n);
      if n <= |order| {
        LastHasFewer(last, n, s);
      } else {
        LastCopies(u, items[..|items| - 1], order, n - |order|, s);
        FilterConcat(Last(front, n - |order|), last, ForSession(s));
      }
    }
  }

  lemma {:induction false} RestOfFanout(u: Unit, order: seq<SessionId>, pending: seq<WriteRecord>, s: SessionId)
    requires NoDuplicates(order) && pending != [] && |pending| <= |Fanout(u, order)|
    requires pending == Last(Fanout(u, order), |pending|)
    ensures order != [] && |Filter(pending, ForSession(s))| <= ItemsSpanned(|pending|, |order|) <= |u.items|
  {
    FanoutMembers(u, u.items, order);
    assert order == [] ==> |u.items| * |order| == 0;
    LastCopies(u, u.items, order, |pending|, s);
    SpannedAtMost(|u.items|, |pending|, |order|);
  }

  /** The items of the unit routed last that have not yet been offered to all the sessions named. */
  ghost function ItemsLeft(st: State, id: TaskId): nat {
    if PendingOf(st.tasks, id) == [] || st.tasks[id].orders == [] then 0
    else
      var order := st.tasks[id].orders[|st.tasks[id].orders| - 1];
      if order == [] then 0 else ItemsSpanned(|PendingOf(st.tasks, id)|, |order|)
  }

  /** What one decision can still owe a session: at most one copy of each item left of its unit. */
  lemma {:induction false} PendingBound(st: State, id: TaskId, s: SessionId)
    requires id < |st.tasks| && TaskInv(st, id, st.tasks[id]) && st.tasks[id].pending != []
    ensures |Filter(st.tasks[id].pending, ForSession(s))| <= ItemsLeft(st, id)
    ensures ItemsLeft(st, id) <= |st.tasks[id].units[|st.tasks[id].orders| - 1].items|
  {
    var t := st.tasks[id];
    var u, order := t.units[|t.orders| - 1], t.orders[|t.orders| - 1];
    assert order in t.orders;
    RestOfFanout(u, order, t.pending, s);
  }

  /**
   Once a session has been torn down, what an export enqueues for it in any run, together with what it then still
   has to send, is exactly what it had to send at the teardown: at most one copy of each item left of the unit it
   had routed, which is one span, or the rest of one resource.
   */
  lemma {:induction false} BoundedTail(c: Config, before: seq<Action>, st: State, run: seq<Action>, st': State,
                                       s: SessionId, id: TaskId)
    requires Exec(c, INIT, before) == Some(st) && TornDown(st, s) && Exec(c, st, run) == Some(st')
    ensures Filter(AttemptsOf(st'.attempts, id), ForSession(s)) + Filter(PendingOf(st'.tasks, id), ForSession(s))
         == Filter(AttemptsOf(st.attempts, id), ForSession(s)) + Filter(PendingOf(st.tasks, id), ForSession(s))
    ensures |Filter(PendingOf(st.tasks, id), ForSession(s))| <= ItemsLeft(st, id)
    ensures PendingOf(st.tasks, id) != [] ==>
              && 0 < |st.tasks[id].orders| <= |st.tasks[id].units|
              && var u := st.tasks[id].units[|st.tasks[id].orders| - 1];
                 ItemsLeft(st, id) <= |u.items| && (u.kind == Span ==> ItemsLeft(st, id) <= 1)
  {
    ReachableInv(c, before);
    TailIsFixed(c, st, run, st', s, id);
    if PendingOf(st.tasks, id) != [] {
      assert TaskInv(st, id, st.tasks[id]);
      PendingBound(st, id, s);
    }
  }
}
