/**
 Rows written for a session after its teardown. They are possible, and exactly when something of the session still
 waits for its transaction: in the queue, among the sends an export still owes, or in a batch that can be stored.
 */
module LateRows {
  import opened Seqs
  import opened Types
  import opened Database
  import opened Pipeline
  import opened Capture
  import Invariants
  import Otlp
  import PeerRouter
  import WriteBuffer

  ghost predicate Holds(rs: seq<WriteRecord>, s: SessionId, k: RecordType) {
    exists r :: r in rs && r.session == s && r.kind == k
  }

  /** Some record of the session and kind can still reach its table. */
  ghost predicate Waiting(st: State, s: SessionId, k: RecordType) {
    || Holds(st.queue, s, k)
    || (exists task :: 0 <= task < |st.tasks| && Holds(st.tasks[task].pending, s, k))
    || (Holds(st.batch, s, k) && Insertable(st.tables, st.batch))
  }

  function RowCount(st: State, s: SessionId, k: RecordType): nat {
    |SessionRows(st.tables, s, k)|
  }

  lemma {:induction false} HoldsFilter(rs: seq<WriteRecord>, s: SessionId, k: RecordType)
    ensures Holds(rs, s, k) <==> Filter(rs, Otlp.Selecting(s, k)) != []
  {
    FilterMembers(rs, Otlp.Selecting(s, k));
    if Holds(rs, s, k) {
      var r :| r in rs && r.session == s && r.kind == k;
      assert r in Filter(rs, Otlp.Selecting(s, k));
    } else {
      FilterNone(rs, Otlp.Selecting(s, k));
    }
  }

  // ---- Nothing waits, nothing comes ----

  /** What a torn-down session is still owed does not change by a step, if nothing waits. */
  ghost predicate Unwritten(st: State, after: State, s: SessionId, k: RecordType) {
    && !Waiting(after, s, k)
    && Filter(Committed(after), Otlp.Selecting(s, k)) == Filter(Committed(st), Otlp.Selecting(s, k))
  }

  lemma {:induction false} RouteBringsNothing(st: State, task: TaskId, order: seq<SessionId>, s: SessionId,
                                              k: RecordType)
    requires Invariants.RouterInv(st) && TornDown(st, s) && !Waiting(st, s, k)
    requires task < |st.tasks| && |st.tasks[task].orders| < |st.tasks[task].units|
    requires Enumerates(order, PeerRouter.Claimers(st.routes, st.tasks[task].units[|st.tasks[task].orders|].peer))
    ensures Unwritten(st, AfterRoute(st, task, order), s, k)
  {
    var u := st.tasks[task].units[|st.tasks[task].orders|];
    PeerRouter.ClaimersMeaning(st.routes, u.peer, s);
    assert (u.peer, s) !in st.routes;
    Otlp.FanoutMembers(u, u.items, order);
    assert !Holds(Otlp.Fanout(u, order), s, k);
  }

  lemma {:induction false} OfferBringsNothing(c: Config, st: State, task: TaskId, s: SessionId, k: RecordType)
    requires task < |st.tasks| && st.tasks[task].pending != [] && !Waiting(st, s, k)
    ensures Unwritten(st, AfterOffer(c, st, task), s, k)
  {
    var pending := st.tasks[task].pending;
    assert !Holds(pending, s, k) && pending[0] in pending;
    assert !Holds(pending[1..], s, k);
  }

  lemma {:induction false} ReceiveBringsNothing(c: Config, st: State, s: SessionId, k: RecordType)
    requires st.queue != [] && !Waiting(st, s, k)
    ensures Unwritten(st, AfterReceive(c, st), s, k)
  {
    var after := AfterReceive(c, st);
    assert st.queue[0] in st.queue;
    assert forall r :: r in st.batch ==> r in after.batch;
  }

  lemma {:induction false} FlushBringsNothing(st: State, fault: Fault, s: SessionId, k: RecordType)
    requires !Waiting(st, s, k)
    ensures Unwritten(st, AfterFlush(st, fault), s, k)
  {
    var f := WriteBuffer.FlushOf(st.tables, st.batch, fault);
    WriteBuffer.FlushedOne(st.flushes, f);
    assert Committed(st) + [] == Committed(st);
    if f.committed {
      HoldsFilter(st.batch, s, k);
      FilterConcat(Committed(st), st.batch, Otlp.Selecting(s, k));
    }
    assert AfterFlush(st, fault).tasks == st.tasks && !Holds([], s, k);
  }

  /** A create brings back no session that a batch waits for in vain. */
  lemma {:induction false} CreateSavesNoBatch(st: State, id: SessionId, peers: seq<PeerId>, fault: Fault)
    requires id !in st.claims && Invariants.RecordsInv(st) && Invariants.ConservationInv(st)
    ensures Insertable(AfterCreate(st, id, peers, fault).tables, st.batch) ==> Insertable(st.tables, st.batch)
  {
    Invariants.CommittedClaimed(st);
  }

  lemma {:induction false} StartBringsNothing(c: Config, st: State, request: Otlp.Request, s: SessionId, k: RecordType)
    requires !Waiting(st, s, k)
    ensures Unwritten(st, Apply(c, st, Start(request)), s, k)
  {
    var after := Apply(c, st, Start(request));
    forall task | 0 <= task < |after.tasks| ensures !Holds(after.tasks[task].pending, s, k) {
      assert task < |st.tasks| ==> !Holds(st.tasks[task].pending, s, k);
    }
  }

  /** The steps of handlers and timer touch neither what waits nor what was flushed; a purge only dooms batches. */
  lemma {:induction false} OthersBringNothing(c: Config, st: State, a: Action, s: SessionId, k: RecordType)
    requires Enabled(c, st, a) && !Waiting(st, s, k)
    requires a.CreateRoute? || a.End? || a.EndRoute? || a.Cleanup? || a.Tick?
    ensures Unwritten(st, Apply(c, st, a), s, k)
  {
    var after := Apply(c, st, a);
    assert after.queue == st.queue && after.batch == st.batch && after.tasks == st.tasks && after.flushes == st.flushes;
    assert after.tables.sessions.Keys <= st.tables.sessions.Keys;
  }

  lemma {:induction false} IdleStep(c: Config, st: State, a: Action, s: SessionId, k: RecordType)
    requires Enabled(c, st, a) && Invariants.Inv(c, st) && TornDown(st, s) && !Waiting(st, s, k)
    ensures Unwritten(st, Apply(c, st, a), s, k)
  {
    match a
    case Create(id, peers, fault) => CreateSavesNoBatch(st, id, peers, fault);
    case Route(task, order) => RouteBringsNothing(st, task, order, s, k);
    case Offer(task) => OfferBringsNothing(c, st, task, s, k);
    case Receive => ReceiveBringsNothing(c, st, s, k);
    case RunFlush(fault) => FlushBringsNothing(st, fault, s, k);
    case Start(request) => StartBringsNothing(c, st, request, s, k);
    case _ => OthersBringNothing(c, st, a, s, k);
  }

  lemma {:induction false} IdleRun(c: Config, st: State, run: seq<Action>, st': State, s: SessionId, k: RecordType)
    requires Invariants.Inv(c, st) && TornDown(st, s) && !Waiting(st, s, k) && Exec(c, st, run) == Some(st')
    ensures Unwritten(st, st', s, k)
  {
    if run != [] {
      var n := |run| - 1;
      var mid := Exec(c, st, run[..n]).value;
      IdleRun(c, st, run[..n], mid, s, k);
      Invariants.RunKeepsInv(c, st, run[..n]);
      TailIsFixed(c, st, run[..n], mid, s, 0);
      IdleStep(c, mid, run[n], s, k);
    }
  }

  // ---- Something waits, something can come ----

  /** A run that keeps the session stored and takes no row away. */
  ghost predicate Leads(c: Config, st: State, run: seq<Action>, st': State, s: SessionId, k: RecordType) {
    && Exec(c, st, run) == Some(st') && Invariants.Inv(c, st')
    && s in st'.tables.sessions && RowCount(st, s, k) <= RowCount(st', s, k)
  }

  ghost predicate AtRest(st: State) {
    st.batch == [] && !st.flushing
  }

  lemma {:induction false} LeadsOn(c: Config, st: State, run1: seq<Action>, mid: State, run2: seq<Action>, st': State,
                                   s: SessionId, k: RecordType)
    ensures Leads(c, st, run1, mid, s, k) && Leads(c, mid, run2, st', s, k) ==> Leads(c, st, run1 + run2, st', s, k)
  {
    ExecConcat(c, st, run1, run2);
  }

  /** A step that leaves the tables alone. */
  lemma {:induction false} LeadsOne(c: Config, st: State, a: Action, s: SessionId, k: RecordType)
    requires Enabled(c, st, a) && Invariants.Inv(c, st) && s in st.tables.sessions
    requires Apply(c, st, a).tables == st.tables
    ensures Leads(c, st, [a], Apply(c, st, a), s, k)
  {
    ExecOne(c, st, a);
    Invariants.InvKept(c, st, a);
  }

  /** A transaction without a fault adds the session's records of the batch, if the batch can be stored. */
  lemma {:induction false} FlushCounts(st: State, s: SessionId, k: RecordType)
    ensures RowCount(AfterFlush(st, None), s, k)
         == RowCount(st, s, k)
            + if Insertable(st.tables, st.batch) then |Filter(st.batch, Otlp.Selecting(s, k))| else 0
  {
    if Insertable(st.tables, st.batch) {
      assert Rows(Inserted(st.tables, st.batch), k) == Rows(st.tables, k) + Filter(st.batch, OfKind(k));
      FilterConcat(Rows(st.tables, k), Filter(st.batch, OfKind(k)), ForSession(s));
      FilterTwice(st.batch, OfKind(k), ForSession(s), Otlp.Selecting(s, k));
    }
  }

  lemma {:induction false} FlushNow(c: Config, st: State, s: SessionId, k: RecordType) returns (st': State)
    requires Invariants.Inv(c, st) && s in st.tables.sessions && st.flushing
    ensures st' == AfterFlush(st, None) && Leads(c, st, [RunFlush(None)], st', s, k)
    ensures Holds(st.batch, s, k) && Insertable(st.tables, st.batch) ==> RowCount(st, s, k) < RowCount(st', s, k)
  {
    st' := AfterFlush(st, None);
    ExecOne(c, st, RunFlush(None));
    Invariants.InvKept(c, st, RunFlush(None));
    FlushCounts(st, s, k);
    HoldsFilter(st.batch, s, k);
  }

  /** Whatever is batched gets its transaction. */
  lemma {:induction false} Settle(c: Config, st: State, s: SessionId, k: RecordType)
    returns (run: seq<Action>, st': State)
    requires Invariants.Inv(c, st) && s in st.tables.sessions
    ensures Leads(c, st, run, st', s, k) && AtRest(st') && st'.queue == st.queue && st'.tasks == st.tasks
    ensures Holds(st.batch, s, k) && Insertable(st.tables, st.batch) ==> RowCount(st, s, k) < RowCount(st', s, k)
  {
    if st.batch == [] {
      run, st' := [], st;
    } else if st.flushing {
      run := [RunFlush(None)];
      st' := FlushNow(c, st, s, k);
    } else {
      var mid := st.(flushing := true);
      LeadsOne(c, st, Tick, s, k);
      st' := FlushNow(c, mid, s, k);
      run := [Tick] + [RunFlush(None)];
      LeadsOn(c, st, [Tick], mid, [RunFlush(None)], st', s, k);
    }
  }

  lemma {:induction false} ReceiveOne(c: Config, st: State, s: SessionId, k: RecordType) returns (st': State)
    requires Invariants.Inv(c, st) && s in st.tables.sessions && AtRest(st) && st.queue != []
    ensures Leads(c, st, [Receive], st', s, k) && st'.tables == st.tables
    ensures st'.batch == [st.queue[0]] && st'.queue == st.queue[1..] && st'.tasks == st.tasks
  {
    st' := AfterReceive(c, st);
    LeadsOne(c, st, Receive, s, k);
  }

  /** The oldest queued record gets a transaction of its own. */
  lemma {:induction false} WriteOldest(c: Config, st: State, s: SessionId, k: RecordType)
    returns (run: seq<Action>, st': State)
    requires Invariants.Inv(c, st) && s in st.tables.sessions && AtRest(st) && st.queue != []
    ensures Leads(c, st, run, st', s, k) && AtRest(st') && st'.queue == st.queue[1..] && st'.tasks == st.tasks
    ensures st.queue[0].session == s && st.queue[0].kind == k ==> RowCount(st, s, k) < RowCount(st', s, k)
  {
    var mid := ReceiveOne(c, st, s, k);
    if st.queue[0].session == s && st.queue[0].kind == k {
      assert st.queue[0] in mid.batch;
      assert Holds(mid.batch, s, k) && Insertable(mid.tables, mid.batch);
    }
    var rest;
    rest, st' := Settle(c, mid, s, k);
    run := [Receive] + rest;
    LeadsOn(c, st, [Receive], mid, rest, st', s, k);
  }

  lemma {:induction false} WriteQueue(c: Config, st: State, s: SessionId, k: RecordType)
    returns (run: seq<Action>, st': State)
    requires Invariants.Inv(c, st) && s in st.tables.sessions && AtRest(st)
    ensures Leads(c, st, run, st', s, k) && AtRest(st') && st'.queue == [] && st'.tasks == st.tasks
    ensures Holds(st.queue, s, k) ==> RowCount(st, s, k) < RowCount(st', s, k)
    decreases |st.queue|
  {
    if st.queue == [] {
      run, st' := [], st;
    } else {
      var first, mid := WriteOldest(c, st, s, k);
      var rest;
      rest, st' := WriteQueue(c, mid, s, k);
      run := first + rest;
      LeadsOn(c, st, first, mid, rest, st', s, k);
      assert forall r :: r in st.queue <==> r == st.queue[0] || r in st.queue[1..];
    }
  }

  lemma {:induction false} OfferOne(c: Config, st: State, task: TaskId, s: SessionId, k: RecordType)
    returns (st': State)
    requires Invariants.Inv(c, st) && s in st.tables.sessions && AtRest(st) && st.queue == []
    requires c.limits.bufferSize >= 1 && task < |st.tasks| && st.tasks[task].pending != []
    ensures Leads(c, st, [Offer(task)], st', s, k) && AtRest(st') && st'.queue == [st.tasks[task].pending[0]]
    ensures |st'.tasks| == |st.tasks| && st'.tasks[task].pending == st.tasks[task].pending[1..]
  {
    st' := AfterOffer(c, st, task);
    LeadsOne(c, st, Offer(task), s, k);
  }

  /** The sends an export still owes, one at a time through an empty queue. */
  lemma {:induction false} WritePending(c: Config, st: State, task: TaskId, s: SessionId, k: RecordType)
    returns (run: seq<Action>, st': State)
    requires Invariants.Inv(c, st) && s in st.tables.sessions && AtRest(st) && st.queue == []
    requires c.limits.bufferSize >= 1 && task < |st.tasks|
    ensures Leads(c, st, run, st', s, k)
    ensures Holds(st.tasks[task].pending, s, k) ==> RowCount(st, s, k) < RowCount(st', s, k)
    decreases |st.tasks[task].pending|
  {
    var pending := st.tasks[task].pending;
    if pending == [] {
      run, st' := [], st;
    } else {
      var sent := OfferOne(c, st, task, s, k);
      var first, mid := WriteOldest(c, sent, s, k);
      var rest;
      rest, st' := WritePending(c, mid, task, s, k);
      LeadsOn(c, st, [Offer(task)], sent, first, mid, s, k);
      run := [Offer(task)] + first + rest;
      LeadsOn(c, st, [Offer(task)] + first, mid, rest, st', s, k);
      assert forall r :: r in pending <==> r == pending[0] || r in pending[1..];
    }
  }

  lemma {:induction false} WaitingGetsWritten(c: Config, st: State, s: SessionId, k: RecordType)
    returns (run: seq<Action>, st': State)
    requires Invariants.Inv(c, st) && s in st.tables.sessions && c.limits.bufferSize >= 1 && Waiting(st, s, k)
    ensures Leads(c, st, run, st', s, k) && RowCount(st, s, k) < RowCount(st', s, k)
  {
    var run1, st1 := Settle(c, st, s, k);
    var run2, st2 := WriteQueue(c, st1, s, k);
    LeadsOn(c, st, run1, st1, run2, st2, s, k);
    run, st' := run1 + run2, st2;
    if !Holds(st.queue, s, k) && !(Holds(st.batch, s, k) && Insertable(st.tables, st.batch)) {
      var task :| 0 <= task < |st.tasks| && Holds(st.tasks[task].pending, s, k);
      var run3, st3 := WritePending(c, st2, task, s, k);
      LeadsOn(c, st, run, st2, run3, st3, s, k);
      run, st' := run + run3, st3;
    }
  }

  // ---- Exactly when ----

  /** Some run from here ends with more rows of the session than there are now. */
  ghost predicate CanGainRows(c: Config, st: State, s: SessionId, k: RecordType) {
    exists run, st' :: Exec(c, st, run) == Some(st') && RowCount(st, s, k) < RowCount(st', s, k)
  }

  /**
   Once a stored session has been torn down, rows of a kind can still be written for it if and only if a record of
   that kind waits for it at the teardown.
   */
  lemma {:induction false} LateRowsIff(c: Config, before: seq<Action>, st: State, s: SessionId, k: RecordType)
    requires Exec(c, INIT, before) == Some(st) && c.limits.bufferSize >= 1
    requires TornDown(st, s) && s in st.tables.sessions
    ensures CanGainRows(c, st, s, k) <==> Waiting(st, s, k)
  {
    Invariants.ReachableInv(c, before);
    if Waiting(st, s, k) {
      var run, st' := WaitingGetsWritten(c, st, s, k);
    } else {
      forall run, st' | Exec(c, st, run) == Some(st') ensures RowCount(st', s, k) <= RowCount(st, s, k) {
        NoLateRows(c, before, st, run, st', s, k);
      }
    }
  }

  lemma {:induction false} NoLateRows(c: Config, before: seq<Action>, st: State, run: seq<Action>, st': State,
                                      s: SessionId, k: RecordType)
    requires Exec(c, INIT, before) == Some(st) && TornDown(st, s) && s in st.tables.sessions && !Waiting(st, s, k)
    requires Exec(c, st, run) == Some(st')
    ensures SessionRows(st'.tables, s, k) == if s in st'.tables.sessions then SessionRows(st.tables, s, k) else []
  {
    Invariants.ReachableInv(c, before);
    IdleRun(c, st, run, st', s, k);
    ExecConcat(c, INIT, before, run);
    RowsAreCommittedHistory(c, before, st, s, k);
    RowsAreCommittedHistory(c, before + run, st', s, k);
  }
}
