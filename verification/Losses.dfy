/**
 When records are lost, and whose. The theorems speak of all runs; the scenarios at the end are runs that reach the
 states the theorems warn of.
 */
module Losses {
  import opened Seqs
  import opened Types
  import opened Database
  import opened PeerRouter
  import opened WriteBuffer
  import opened Otlp
  import opened Pipeline
  import Invariants
  import opened Capture
  import Receivers
  import Timestamps

  // ---- Nothing is lost exactly when nothing is flushed too late ----

  /** No storage fault strikes a flush. */
  ghost predicate FaultFree(st: State, a: Action) {
    a.RunFlush? ==> !Strikes(a.fault, |st.batch| + 2)
  }

  /** No transaction is given a record whose session has been purged. */
  ghost predicate InTime(st: State, a: Action) {
    a.RunFlush? ==> forall r :: r in st.batch ==> !Deleted(st, r.session)
  }

  ghost predicate Deleted(st: State, s: SessionId) {
    s in st.claims && s !in st.tables.sessions
  }

  ghost predicate EveryStep(c: Config, st: State, run: seq<Action>, ok: (State, Action) -> bool)
    requires Exec(c, st, run).Some?
  {
    run == [] ||
    (EveryStep(c, st, run[..|run| - 1], ok) && ok(Exec(c, st, run[..|run| - 1]).value, run[|run| - 1]))
  }

  lemma {:induction false} StepLosesNothing(c: Config, before: seq<Action>, st: State, a: Action)
    requires Exec(c, INIT, before) == Some(st) && Enabled(c, st, a) && FaultFree(st, a)
    ensures NothingLost(Apply(c, st, a)) <==> NothingLost(st) && InTime(st, a)
  {
    if a.RunFlush? {
      var f := AfterFlush(st, a.fault).flushes[|st.flushes|];
      LossAtOneFlush(c, before, st, a.fault);
      assert AfterFlush(st, a.fault).flushes == st.flushes + [f];
    } else {
      assert Apply(c, st, a).flushes == st.flushes;
    }
  }

  lemma {:induction false} LossesAreLate(c: Config, run: seq<Action>, st: State)
    requires Exec(c, INIT, run) == Some(st) && EveryStep(c, INIT, run, FaultFree)
    ensures NothingLost(st) <==> EveryStep(c, INIT, run, InTime)
  {
    if run != [] {
      var n := |run| - 1;
      var mid := Exec(c, INIT, run[..n]).value;
      LossesAreLate(c, run[..n], mid);
      StepLosesNothing(c, run[..n], mid, run[n]);
    }
  }

  /** A lost flush is missing from the committed records. */
  lemma {:induction false} LossShows(flushes: seq<Flush>)
    requires forall f :: f in flushes ==> f.records != []
    ensures |CommittedRecords(flushes)| <= |Flushed(flushes)|
    ensures |CommittedRecords(flushes)| == |Flushed(flushes)| ==> forall f :: f in flushes ==> f.committed
  {
    if flushes != [] {
      var n := |flushes| - 1;
      LossShows(flushes[..n]);
      assert flushes == flushes[..n] + [flushes[n]];
      FlushedOne(flushes[..n], flushes[n]);
    }
  }

  /**
   In a run without storage faults, the committed records, the batch and the queue are all that was accepted, if
   and only if no record was flushed after its session's purge.
   */
  lemma {:induction false} LosesNothingIff(c: Config, run: seq<Action>, st: State)
    requires Exec(c, INIT, run) == Some(st) && EveryStep(c, INIT, run, FaultFree)
    ensures Committed(st) + st.batch + st.queue == Accepted(st) <==> EveryStep(c, INIT, run, InTime)
  {
    LossesAreLate(c, run, st);
    Conservation(c, run, st);
    Invariants.ReachableInv(c, run);
    LossShows(st.flushes);
    if NothingLost(st) {
      AllCommitted(st.flushes);
    }
  }

  // ---- Whose records a lost flush held ----

  /** Every flush lost without a fault holds a record of a purged session. */
  ghost predicate Blamed(st: State) {
    forall f :: f in st.flushes && !f.committed && !f.faulted ==> exists r :: r in f.records && Deleted(st, r.session)
  }

  lemma {:induction false} DeletedStays(c: Config, st: State, a: Action, s: SessionId)
    requires Enabled(c, st, a) && Deleted(st, s)
    ensures Deleted(Apply(c, st, a), s)
  {
    DeletedStep(c, st, a, s);
  }

  lemma {:induction false} BlamedKept(c: Config, before: seq<Action>, st: State, a: Action)
    requires Exec(c, INIT, before) == Some(st) && Enabled(c, st, a) && Blamed(st)
    ensures Blamed(Apply(c, st, a))
  {
    var after := Apply(c, st, a);
    forall f | f in after.flushes && !f.committed && !f.faulted
      ensures exists r :: r in f.records && Deleted(after, r.session)
    {
      if f in st.flushes {
        var r :| r in f.records && Deleted(st, r.session);
        DeletedStays(c, st, a, r.session);
      } else {
        assert a.RunFlush?;
        LossAtOneFlush(c, before, st, a.fault);
        assert f == after.flushes[|st.flushes|];
      }
    }
  }

  lemma {:induction false} LossBlamesAPurge(c: Config, run: seq<Action>, st: State)
    requires Exec(c, INIT, run) == Some(st)
    ensures Blamed(st)
  {
    if run != [] {
      var n := |run| - 1;
      var mid := Exec(c, INIT, run[..n]).value;
      LossBlamesAPurge(c, run[..n], mid);
      BlamedKept(c, run[..n], mid, run[n]);
    }
  }

  /** A record of a session that is still stored has been lost without any fault of storage. */
  ghost predicate BystanderLost(st: State) {
    exists f, r :: f in st.flushes && r in f.records && !f.committed && !f.faulted && r.session in st.tables.sessions
  }

  /** A purge can cost another session its records, if and only if a batch can hold two records. */
  lemma {:induction false} BystanderLossIff(c: Config)
    requires c.limits.bufferSize >= 1
    ensures (exists run, st :: Exec(c, INIT, run) == Some(st) && BystanderLost(st)) <==> c.limits.batchSize >= 2
  {
    if c.limits.batchSize >= 2 {
      var run, st := PurgeCostsAnother(c, 0, 1, "p", "", "A", "");
    } else {
      forall run, st | Exec(c, INIT, run) == Some(st) ensures !BystanderLost(st) {
        SingleRecordsSpareOthers(c, run, st);
      }
    }
  }

  lemma {:induction false} SingleRecordsSpareOthers(c: Config, run: seq<Action>, st: State)
    requires Exec(c, INIT, run) == Some(st) && c.limits.batchSize <= 1
    ensures !BystanderLost(st)
  {
    Invariants.ReachableInv(c, run);
    LossBlamesAPurge(c, run, st);
  }

  // ---- Scenarios ----

  /** A metric export of one resource with one record. */
  function OneMetric(idKey: string, peer: PeerId, item: Payload): Request {
    Metrics([ResourceRecords(Some([KeyValue(idKey, Some(StringValue(peer)))]), [[item]])])
  }

  lemma {:induction false} OneMetricUnits(idKey: string, peer: PeerId, item: Payload)
    requires peer != ""
    ensures UnitsOf(OneMetric(idKey, peer, item), idKey) == [Unit(peer, Metric, [item])]
  {
    var rs := OneMetric(idKey, peer, item).metrics;
    var r := rs[0];
    assert ExtractPeerId(r.resource, idKey) == Some(peer);
    assert r.scopes[1..] == [] && Flatten(r.scopes) == [item];
    assert rs[..|rs| - 1] == [] && ResourceRecordUnits(Metric, r, idKey) == [Unit(peer, Metric, [item])];
    assert RecordUnits(Metric, [], idKey) + [Unit(peer, Metric, [item])] == [Unit(peer, Metric, [item])];
  }

  /** `run` led from the start to `st`; the step leads on. */
  lemma {:induction false} Then(c: Config, run: seq<Action>, st: State, a: Action)
    returns (run': seq<Action>, st': State)
    requires Exec(c, INIT, run) == Some(st) && Enabled(c, st, a)
    ensures run' == run + [a] && st' == Apply(c, st, a) && Exec(c, INIT, run') == Some(st')
  {
    ExecOneMore(c, INIT, run, st, a);
    run', st' := run + [a], Apply(c, st, a);
  }

  /** A session for one peer, stored and routed. */
  lemma {:induction false} Opened(c: Config, run: seq<Action>, st: State, id: SessionId, peer: PeerId)
    returns (run': seq<Action>, st': State)
    requires Exec(c, INIT, run) == Some(st) && id !in st.claims && id !in st.creating
    ensures Exec(c, INIT, run') == Some(st')
    ensures id !in st.tables.sessions
    ensures st' == st.(tables := Created(st.tables, id, [peer]), routes := AddRoutes(st.routes, id, [peer]),
                       claims := st.claims[id := [peer]])
  {
    assert id !in st.tables.sessions by {
      Invariants.ReachableInv(c, run);
    }
    var run1, st1 := Then(c, run, st, Create(id, [peer], None));
    assert st1 == st.(tables := Created(st.tables, id, [peer]), creating := st.creating[id := [peer]],
                      claims := st.claims[id := [peer]]);
    run', st' := Then(c, run1, st1, CreateRoute(id));
    assert st.creating[id := [peer]] - {id} == st.creating;
  }

  /** An active session ended and unrouted. */
  lemma {:induction false} Closed(c: Config, run: seq<Action>, st: State, id: SessionId, now: string)
    returns (run': seq<Action>, st': State)
    requires Exec(c, INIT, run) == Some(st) && EndMatches(st.tables, id)
    ensures Exec(c, INIT, run') == Some(st')
    ensures st'.tables == Ended(st.tables, id, now) && st'.tasks == st.tasks && st'.attempts == st.attempts
    ensures st'.queue == st.queue && st'.batch == st.batch && st'.flushing == st.flushing && st'.flushes == st.flushes
    ensures id in st'.removed && run <= run'
  {
    var run1, st1 := Then(c, run, st, End(id, now, None));
    run', st' := Then(c, run1, st1, EndRoute(id));
  }

  /** Whatever is batched gets its transaction: by size if it is full, by the timer if not. */
  lemma {:induction false} BatchRuns(c: Config, run: seq<Action>, st: State)
    returns (run': seq<Action>, st': State)
    requires Exec(c, INIT, run) == Some(st) && st.batch != []
    ensures Exec(c, INIT, run') == Some(st') && st'.flushes == st.flushes + [FlushOf(st.tables, st.batch, None)]
    ensures st'.tables == AfterWrite(st.tables, FlushOf(st.tables, st.batch, None)) && st'.attempts == st.attempts
    ensures run <= run'
  {
    run', st' := run, st;
    if !st.flushing {
      run', st' := Then(c, run, st, Tick);
    }
    run', st' := Then(c, run', st', RunFlush(None));
  }

  /** A metric for `peer` with a copy for each of `order` due, from a system with nothing in flight. */
  lemma {:induction false} MetricDue(c: Config, run: seq<Action>, st: State, peer: PeerId, item: Payload,
                                     order: seq<SessionId>)
    returns (run': seq<Action>, st': State)
    requires Exec(c, INIT, run) == Some(st) && st.tasks == [] && peer != ""
    requires Enumerates(order, Claimers(st.routes, peer))
    ensures Exec(c, INIT, run') == Some(st')
    ensures var u := Unit(peer, Metric, [item]);
            st' == st.(tasks := [Task([u], [order], Copies(u, item, order))])
  {
    OneMetricUnits(c.idKey, peer, item);
    var u := Unit(peer, Metric, [item]);
    var run1, st1 := Then(c, run, st, Start(OneMetric(c.idKey, peer, item)));
    assert st1.tasks == [Task([u], [], [])];
    run', st' := Then(c, run1, st1, Route(0, order));
    Receivers.OneItem(u, order);
    assert [] + [order] == [order] && st'.tasks == [Task([u], [order], Copies(u, item, order))];
  }

  /** The first due copy offered to an empty queue and received at once. */
  lemma {:induction false} FirstCopyReceived(c: Config, run: seq<Action>, st: State)
    returns (run': seq<Action>, st': State)
    requires Exec(c, INIT, run) == Some(st) && |st.tasks| == 1 && st.tasks[0].pending != []
    requires st.queue == [] && !st.flushing && c.limits.bufferSize >= 1
    ensures Exec(c, INIT, run') == Some(st')
    ensures var t := st.tasks[0];
            st' == st.(tasks := [t.(pending := t.pending[1..])],
                       batch := st.batch + [t.pending[0]],
                       flushing := |st.batch| + 1 >= c.limits.batchSize,
                       attempts := st.attempts + [Attempt(0, t.pending[0], true)])
  {
    var t := st.tasks[0];
    var run1, st1 := Then(c, run, st, Offer(0));
    assert st.tasks[0 := t.(pending := t.pending[1..])] == [t.(pending := t.pending[1..])];
    assert st1 == st.(tasks := [t.(pending := t.pending[1..])], queue := [t.pending[0]],
                      attempts := st.attempts + [Attempt(0, t.pending[0], true)]);
    run', st' := Then(c, run1, st1, Receive);
  }

  /** Sessions `a` and `b` share a peer; `a` is purged between the two copies of a metric, and `b` loses its own. */
  lemma {:induction false} PurgeCostsAnother(c: Config, a: SessionId, b: SessionId, peer: PeerId, now: string,
                                             cutoff: string, item: Payload)
    returns (run: seq<Action>, st: State)
    requires a != b && peer != "" && Timestamps.TextLess(now, cutoff)
    requires c.limits.bufferSize >= 1 && c.limits.batchSize >= 2
    ensures Exec(c, INIT, run) == Some(st) && BystanderLost(st)
    ensures EndMatches(st.tables, b) && WriteRecord(b, peer, Metric, item) in Accepted(st) && Committed(st) == []
  {
    var ra, rb := WriteRecord(a, peer, Metric, item), WriteRecord(b, peer, Metric, item);
    var run1, st1 := HalfSent(c, a, b, peer, item);
    var run2, st2 := PurgedBetween(c, run1, st1, a, b, now, cutoff);
    var run3, st3 := FirstCopyReceived(c, run2, st2);
    assert st3.batch == [ra, rb];
    run, st := BatchRuns(c, run3, st3);
    var f := FlushOf(st3.tables, st3.batch, None);
    assert ra in f.records && rb in f.records && !f.committed;
    assert st.flushes == [f] && f in st.flushes && CommittedRecords([f][..0]) == [];
    LogOne(st3.attempts[..1], Attempt(0, rb, true));
  }

  /** Both sessions opened, a metric routed to both, the copy for `a` in the batch and the one for `b` still due. */
  lemma {:induction false} HalfSent(c: Config, a: SessionId, b: SessionId, peer: PeerId, item: Payload)
    returns (run: seq<Action>, st: State)
    requires a != b && peer != "" && c.limits.bufferSize >= 1 && c.limits.batchSize >= 2
    ensures Exec(c, INIT, run) == Some(st) && EndMatches(st.tables, a) && EndMatches(st.tables, b)
    ensures st.queue == [] && !st.flushing && st.flushes == [] && st.batch == [WriteRecord(a, peer, Metric, item)]
    ensures |st.tasks| == 1 && st.tasks[0].pending == [WriteRecord(b, peer, Metric, item)]
    ensures st.attempts == [Attempt(0, WriteRecord(a, peer, Metric, item), true)]
  {
    var run1, st1 := Opened(c, [], INIT, a, peer);
    var run2, st2 := Opened(c, run1, st1, b, peer);
    TwoClaimers(a, b, peer);
    var run3, st3 := MetricDue(c, run2, st2, peer, item, [a, b]);
    assert Copies(Unit(peer, Metric, [item]), item, [a, b])
        == [WriteRecord(a, peer, Metric, item), WriteRecord(b, peer, Metric, item)];
    run, st := FirstCopyReceived(c, run3, st3);
  }

  lemma {:induction false} PurgedBetween(c: Config, run: seq<Action>, st: State, a: SessionId, b: SessionId,
                                         now: string, cutoff: string)
    returns (run': seq<Action>, st': State)
    requires Exec(c, INIT, run) == Some(st) && a != b && Timestamps.TextLess(now, cutoff)
    requires EndMatches(st.tables, a) && EndMatches(st.tables, b)
    ensures Exec(c, INIT, run') == Some(st') && a !in st'.tables.sessions && EndMatches(st'.tables, b)
    ensures st'.tasks == st.tasks && st'.attempts == st.attempts && st'.flushing == st.flushing
    ensures st'.queue == st.queue && st'.batch == st.batch && st'.flushes == st.flushes
  {
    var run1, st1 := Closed(c, run, st, a, now);
    run', st' := Then(c, run1, st1, Cleanup(cutoff, None));
    assert Expired(st1.tables.sessions[a], cutoff) && !Expired(st1.tables.sessions[b], cutoff);
  }

  lemma {:induction false} TwoClaimers(a: SessionId, b: SessionId, peer: PeerId)
    ensures Claimers(AddRoutes(AddRoutes({}, a, [peer]), b, [peer]), peer) == {a, b}
  {
    var routes := AddRoutes(AddRoutes({}, a, [peer]), b, [peer]);
    forall s ensures s in Claimers(routes, peer) <==> s in {a, b} {
      ClaimersMeaning(routes, peer, s);
    }
  }

  /** A record accepted while its session was active is written after the session has ended and been unrouted. */
  lemma {:induction false} RowsAfterTheEnd(c: Config, id: SessionId, peer: PeerId, now: string, item: Payload)
    returns (before: seq<Action>, mid: State, run: seq<Action>, st: State)
    requires peer != "" && c.limits.bufferSize >= 1
    ensures Exec(c, INIT, before) == Some(mid) && before <= run && Exec(c, INIT, run) == Some(st)
    ensures id in mid.tables.sessions && mid.tables.sessions[id].status == Completed && id in mid.removed
    ensures Rows(mid.tables, Metric) == [] && Rows(st.tables, Metric) == [WriteRecord(id, peer, Metric, item)]
  {
    var run1, st1 := Opened(c, [], INIT, id, peer);
    var run2, st2 := CopyQueued(c, run1, st1, id, peer, item);
    before, mid := Closed(c, run2, st2, id, now);
    var run3, st3 := Then(c, before, mid, Receive);
    run, st := BatchRuns(c, run3, st3);
    assert st3.batch == [WriteRecord(id, peer, Metric, item)];
    WrittenAlone(st3.tables, WriteRecord(id, peer, Metric, item));
    assert Rows(st3.tables, Metric) == [] && Rows(mid.tables, Metric) == [];
  }

  lemma {:induction false} WrittenAlone(t: Tables, r: WriteRecord)
    requires r.session in t.sessions
    ensures FlushOf(t, [r], None) == Flush([r], false, true)
    ensures Rows(Inserted(t, [r]), r.kind) == Rows(t, r.kind) + [r]
  {
    FilterOne([], r, OfKind(r.kind));
    assert [] + [r] == [r];
  }

  lemma {:induction false} CopyQueued(c: Config, run: seq<Action>, st: State, id: SessionId, peer: PeerId,
                                      item: Payload)
    returns (run': seq<Action>, st': State)
    requires Exec(c, INIT, run) == Some(st) && st.tasks == [] && st.routes == AddRoutes({}, id, [peer])
    requires peer != "" && c.limits.bufferSize >= 1 && st.queue == []
    ensures Exec(c, INIT, run') == Some(st') && st'.queue == [WriteRecord(id, peer, Metric, item)]
    ensures st'.tables == st.tables && st'.batch == st.batch && st'.flushing == st.flushing
  {
    OneClaimer(id, peer);
    var run1, st1 := MetricDue(c, run, st, peer, item, [id]);
    assert Copies(Unit(peer, Metric, [item]), item, [id]) == [WriteRecord(id, peer, Metric, item)];
    run', st' := Then(c, run1, st1, Offer(0));
  }

  lemma {:induction false} OneClaimer(id: SessionId, peer: PeerId)
    ensures Claimers(AddRoutes({}, id, [peer]), peer) == {id}
  {
    forall s ensures s in Claimers(AddRoutes({}, id, [peer]), peer) <==> s in {id} {
      ClaimersMeaning(AddRoutes({}, id, [peer]), peer, s);
    }
  }
}
