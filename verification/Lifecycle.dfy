/**
 Debug sessions over whole runs: how the router follows the session table, when it fails to, which transitions
 a session can make, and why the buffer always drains.
 */
module Lifecycle {
  import opened Seqs
  import opened Types
  import opened Database
  import PeerRouter
  import opened Pipeline
  import opened Invariants

  // ---- The router against the session table ----

  predicate IsActive(t: Tables, s: SessionId) {
    s in t.sessions && t.sessions[s].status == Active
  }

  /** The index the active sessions call for: each peer row of an active session, and nothing else. */
  ghost predicate InverseOfActive(routes: PeerRouter.Routes, t: Tables) {
    forall s: SessionId, p: PeerId :: (p, s) in routes <==> IsActive(t, s) && (s, p) in t.peers
  }

  /**
   In every reachable state a routed pair is a stored claim of a session that is active, or ended and not yet
   unrouted, or was overtaken by its own end; and an active session whose create returned is routed for all
   its peers.
   */
  lemma {:induction false} RouterFollowsTable(c: Config, run: seq<Action>, st: State, s: SessionId, p: PeerId)
    requires Exec(c, INIT, run) == Some(st)
    ensures (p, s) in st.routes <==>
            && s in st.claims && p in st.claims[s] && s !in st.creating
            && (IsActive(st.tables, s) || s in st.ending || s in st.overtaken)
    ensures IsActive(st.tables, s) && s !in st.creating && (s, p) in st.tables.peers ==> (p, s) in st.routes
  {
    ReachableInv(c, run);
    assert (p, s) in st.routes <==> Routed(st, s) && p in st.claims[s];
    if s in st.claims && s !in st.tables.sessions {
      assert s in st.ended;
    }
  }

  /** No create or end is between its two steps. */
  ghost predicate Quiescent(st: State) {
    st.creating == map[] && st.ending == {}
  }

  lemma EmptyOrInhabited<T>(xs: seq<T>)
    ensures xs == [] || exists x :: x in xs
  {
    if xs != [] {
      assert xs[0] in xs;
    }
  }

  /** The session's router removal came before its router add, if that came at all. */
  ghost predicate Overtook(run: seq<Action>, s: SessionId) {
    exists i :: 0 <= i < |run| && run[i] == EndRoute(s) && CreateRoute(s) !in run[..i]
  }

  lemma {:induction false} OvertookOne(run: seq<Action>, a: Action, s: SessionId)
    ensures Overtook(run + [a], s) <==> Overtook(run, s) || (a == EndRoute(s) && CreateRoute(s) !in run)
  {
    var more := run + [a];
    assert forall i :: 0 <= i <= |run| ==> more[..i] == run[..i];
    assert more[|run|] == a && run[..|run|] == run;
    assert forall i :: 0 <= i < |run| ==> more[i] == run[i];
  }

  /** A create that committed still holds its peers exactly until its router step. */
  lemma {:induction false} CreatingInRun(c: Config, run: seq<Action>, st: State, s: SessionId)
    requires Exec(c, INIT, run) == Some(st)
    ensures s in st.creating <==> s in st.claims && CreateRoute(s) !in run
    ensures s !in st.claims ==> CreateRoute(s) !in run
  {
    if run != [] {
      var n := |run| - 1;
      var mid := Exec(c, INIT, run[..n]).value;
      CreatingInRun(c, run[..n], mid, s);
      CreatingStep(c, mid, run[n], s);
      assert run == run[..n] + [run[n]];
    }
  }

  lemma {:induction false} CreatingStep(c: Config, st: State, a: Action, s: SessionId)
    requires Enabled(c, st, a)
    ensures var after := Apply(c, st, a);
            && (s in st.claims ==>
                  s in after.claims && (s in after.creating <==> s in st.creating && a != CreateRoute(s)))
            && (s !in st.claims && s !in st.creating ==>
                  a != CreateRoute(s) && (s in after.creating <==> s in after.claims))
  {
  }

  lemma {:induction false} OvertakenStep(c: Config, st: State, a: Action, s: SessionId)
    requires Enabled(c, st, a)
    ensures s in Apply(c, st, a).overtaken <==> s in st.overtaken || (a == EndRoute(s) && s in st.creating)
    ensures a == EndRoute(s) ==> s in st.ending
  {
  }

  /** What the state remembers as overtaken is what the run did. */
  lemma {:induction false} OvertakenInRun(c: Config, run: seq<Action>, st: State, s: SessionId)
    requires Exec(c, INIT, run) == Some(st)
    ensures s in st.overtaken <==> Overtook(run, s)
  {
    if run != [] {
      var n := |run| - 1;
      var mid := Exec(c, INIT, run[..n]).value;
      OvertakenInRun(c, run[..n], mid, s);
      CreatingInRun(c, run[..n], mid, s);
      OvertookOne(run[..n], run[n], s);
      assert s in mid.ending ==> s in mid.claims by {
        ReachableInv(c, run[..n]);
      }
      OvertakenStep(c, mid, run[n], s);
      assert run == run[..n] + [run[n]];
    }
  }

  /** With no request in flight, the router is right exactly when no end of a session with peers overtook its create. */
  lemma {:induction false} QuiescentRouter(c: Config, run: seq<Action>, st: State)
    requires Exec(c, INIT, run) == Some(st) && Quiescent(st)
    ensures InverseOfActive(st.routes, st.tables) <==>
            forall s :: Overtook(run, s) && s in st.claims ==> st.claims[s] == []
  {
    ReachableInv(c, run);
    if InverseOfActive(st.routes, st.tables) {
      forall s | Overtook(run, s) && s in st.claims ensures st.claims[s] == [] {
        OvertakenInRun(c, run, st, s);
        assert s in st.removed && s in st.ended && Routed(st, s);
        assert !IsActive(st.tables, s);
        forall p ensures p !in st.claims[s] {
          assert (p, s) !in st.routes;
        }
        EmptyOrInhabited(st.claims[s]);
      }
    }
    if forall s :: Overtook(run, s) && s in st.claims ==> st.claims[s] == [] {
      forall s: SessionId, p: PeerId
        ensures (p, s) in st.routes <==> IsActive(st.tables, s) && (s, p) in st.tables.peers
      {
        OvertakenInRun(c, run, st, s);
        RouterFollowsTable(c, run, st, s, p);
      }
    }
  }

  /** Each end starts only after the create it refers to has returned. */
  ghost predicate OrderedRun(c: Config, st: State, run: seq<Action>)
    requires Exec(c, st, run).Some?
  {
    run == [] ||
    (OrderedRun(c, st, run[..|run| - 1])
     && (run[|run| - 1].End? ==> run[|run| - 1].id !in Exec(c, st, run[..|run| - 1]).value.creating))
  }

  lemma {:induction false} OrderedStep(c: Config, st: State, a: Action)
    requires Enabled(c, st, a) && Inv(c, st) && (a.End? ==> a.id !in st.creating)
    requires st.overtaken == {} && forall s :: s in st.ending ==> s !in st.creating
    ensures Apply(c, st, a).overtaken == {}
    ensures forall s :: s in Apply(c, st, a).ending ==> s !in Apply(c, st, a).creating
  {
    assert forall s :: s in st.ending ==> s in st.claims;
  }

  lemma {:induction false} OrderedRunsNeverOvertake(c: Config, run: seq<Action>)
    requires Exec(c, INIT, run).Some? && OrderedRun(c, INIT, run)
    ensures var st := Exec(c, INIT, run).value;
            st.overtaken == {} && forall s :: s in st.ending ==> s !in st.creating
  {
    if run != [] {
      var n := |run| - 1;
      OrderedRunsNeverOvertake(c, run[..n]);
      ReachableInv(c, run[..n]);
      OrderedStep(c, Exec(c, INIT, run[..n]).value, run[n]);
    }
  }

  /** In ordered runs the router equals the table's claims whenever no create or end is in flight. */
  lemma {:induction false} OrderedRouter(c: Config, run: seq<Action>, st: State)
    requires Exec(c, INIT, run) == Some(st) && OrderedRun(c, INIT, run) && Quiescent(st)
    ensures InverseOfActive(st.routes, st.tables)
  {
    OrderedRunsNeverOvertake(c, run);
    forall s ensures !Overtook(run, s) {
      OvertakenInRun(c, run, st, s);
    }
    QuiescentRouter(c, run, st);
  }

  /** The run that breaks it: an end that fits between the two steps of its create. */
  ghost function OvertakingRun(id: SessionId, peer: PeerId): seq<Action> {
    [Create(id, [peer], None), End(id, "", None), EndRoute(id), CreateRoute(id)]
  }

  lemma {:induction false} EndCanOvertakeCreate(c: Config, id: SessionId, peer: PeerId)
    ensures Exec(c, INIT, OvertakingRun(id, peer)).Some?
    ensures var st := Exec(c, INIT, OvertakingRun(id, peer)).value;
            Quiescent(st) && !IsActive(st.tables, id) && (peer, id) in st.routes
  {
    var st1 := AfterCreate(INIT, id, [peer], None);
    var st2 := AfterEnd(st1, id, "", None);
    var st3 := AfterEndRoute(st2, id);
    var run1 := [Create(id, [peer], None)];
    var run2 := run1 + [End(id, "", None)];
    assert [] + run1 == run1;
    ExecOneMore(c, INIT, [], INIT, Create(id, [peer], None));
    ExecOneMore(c, INIT, run1, st1, End(id, "", None));
    ExecOneMore(c, INIT, run2, st2, EndRoute(id));
    ExecOneMore(c, INIT, run2 + [EndRoute(id)], st3, CreateRoute(id));
    assert run2 + [EndRoute(id)] + [CreateRoute(id)] == OvertakingRun(id, peer);
  }

  // ---- The life of a session ----

  /** What any run may do to the sessions: absent, active, completed, deleted, and never back. */
  ghost predicate Evolves(st: State, later: State) {
    && (forall s :: s in st.claims ==> s in later.claims && later.claims[s] == st.claims[s])
    && st.ended <= later.ended
    && (forall s :: s in st.claims && s !in st.tables.sessions ==> s !in later.tables.sessions)
    && (forall s :: s in st.tables.sessions && s in later.tables.sessions
                    && st.tables.sessions[s].status == Completed ==>
          later.tables.sessions[s] == st.tables.sessions[s])
    && (forall s :: s in st.tables.sessions && s !in later.tables.sessions ==> s in later.ended)
  }

  lemma {:induction false} EndEvolves(st: State, id: SessionId, now: string, fault: Fault)
    requires TablesInv(st) && LifecycleInv(st)
    ensures Evolves(st, AfterEnd(st, id, now, fault))
  {
  }

  lemma {:induction false} CleanupEvolves(st: State, cutoff: string, fault: Fault)
    requires TablesInv(st) && LifecycleInv(st)
    ensures Evolves(st, AfterCleanup(st, cutoff, fault))
    ensures forall s :: IsActive(st.tables, s) ==> s in AfterCleanup(st, cutoff, fault).tables.sessions
  {
  }

  lemma {:induction false} SameSessionsEvolve(st: State, after: State)
    requires after.tables.sessions == st.tables.sessions && after.claims == st.claims && after.ended == st.ended
    ensures Evolves(st, after)
  {
  }

  /** Every step moves sessions forward only, and no step deletes an active one. */
  lemma {:induction false} StepEvolves(c: Config, st: State, a: Action)
    requires Enabled(c, st, a) && TablesInv(st) && LifecycleInv(st)
    ensures Evolves(st, Apply(c, st, a))
    ensures forall s :: IsActive(st.tables, s) ==> s in Apply(c, st, a).tables.sessions
  {
    match a
    case Create(_, _, _) =>
    case End(id, now, fault) => EndEvolves(st, id, now, fault);
    case Cleanup(cutoff, fault) => CleanupEvolves(st, cutoff, fault);
    case CreateRoute(id) => SameSessionsEvolve(st, AfterCreateRoute(st, id));
    case EndRoute(id) => SameSessionsEvolve(st, AfterEndRoute(st, id));
    case Start(_) => SameSessionsEvolve(st, Apply(c, st, a));
    case Route(task, order) => SameSessionsEvolve(st, AfterRoute(st, task, order));
    case Offer(task) => SameSessionsEvolve(st, AfterOffer(c, st, task));
    case Receive => SameSessionsEvolve(st, AfterReceive(c, st));
    case Tick => SameSessionsEvolve(st, Apply(c, st, a));
    case RunFlush(fault) => SameSessionsEvolve(st, AfterFlush(st, fault));
  }

  lemma {:induction false} EvolvesTransitive(a: State, b: State, d: State)
    requires Evolves(a, b) && Evolves(b, d)
    requires TablesInv(a)
    ensures Evolves(a, d)
  {
  }

  lemma {:induction false} RunsEvolve(c: Config, st: State, run: seq<Action>, later: State)
    requires Inv(c, st) && Exec(c, st, run) == Some(later)
    ensures Evolves(st, later)
  {
    if run != [] {
      var n := |run| - 1;
      var mid := Exec(c, st, run[..n]).value;
      RunsEvolve(c, st, run[..n], mid);
      RunKeepsInv(c, st, run[..n]);
      StepEvolves(c, mid, run[n]);
      EvolvesTransitive(st, mid, later);
    }
  }

  /** A session is completed exactly when its end time is set; a deleted one had been completed. */
  lemma {:induction false} EndTimeIffCompleted(c: Config, run: seq<Action>, st: State, s: SessionId)
    requires Exec(c, INIT, run) == Some(st) && s in st.claims
    ensures s in st.tables.sessions ==>
              (st.tables.sessions[s].status == Completed <==> st.tables.sessions[s].endedAt.Some?)
    ensures s !in st.tables.sessions ==> s in st.ended
  {
    ReachableInv(c, run);
  }

  lemma {:induction false} EndedForGood(c: Config, st: State, s: SessionId, run: seq<Action>, later: State)
    requires Inv(c, st) && s in st.ended && Exec(c, st, run) == Some(later)
    ensures LifecycleInv(later) && !EndMatches(later.tables, s) && s in later.ended
  {
    RunKeepsInv(c, st, run);
    RunsEvolve(c, st, run, later);
    var i :| 0 <= i < |st.ended| && st.ended[i] == s;
    assert later.ended[i] == s;
  }

  /** However many ends are issued for a session, at most one of them succeeds. */
  lemma {:induction false} OneEndSucceeds(c: Config, before: seq<Action>, st: State, now: string, s: SessionId,
                                          run: seq<Action>, later: State)
    requires Exec(c, INIT, before) == Some(st) && EndMatches(st.tables, s)
    requires Exec(c, AfterEnd(st, s, now, None), run) == Some(later)
    ensures !EndMatches(later.tables, s)
    ensures s in later.ended && NoDuplicates(later.ended)
  {
    var after := AfterEnd(st, s, now, None);
    ReachableInv(c, before);
    assert Enabled(c, st, End(s, now, None)) && Apply(c, st, End(s, now, None)) == after;
    InvKept(c, st, End(s, now, None));
    assert after.ended[|st.ended|] == s;
    EndedForGood(c, after, s, run, later);
  }

  /**
   A create fails exactly on a repeated peer or a storage fault, and then it leaves no trace: whatever comes after
   it, the run ends as it would have without it.
   */
  lemma {:induction false} FailedCreateChangesNothing(c: Config, before: seq<Action>, st: State, id: SessionId,
                                                      peers: seq<PeerId>, fault: Fault, after: seq<Action>)
    requires Exec(c, INIT, before) == Some(st) && id !in st.claims
    ensures id !in AfterCreate(st, id, peers, fault).claims <==> !NoDuplicates(peers) || Strikes(fault, |peers| + 3)
    ensures id !in AfterCreate(st, id, peers, fault).claims ==>
              Exec(c, INIT, before + [Create(id, peers, fault)] + after) == Exec(c, INIT, before + after)
  {
    ReachableInv(c, before);
    var create := Create(id, peers, fault);
    ExecOneMore(c, INIT, before, st, create);
    ExecConcat(c, INIT, before + [create], after);
    ExecConcat(c, INIT, before, after);
  }

  // ---- Bounds and progress of the buffer ----

  /** Queue, batch and transactions stay within the configured sizes in every reachable state. */
  lemma {:induction false} InFlightBound(c: Config, run: seq<Action>, st: State)
    requires Exec(c, INIT, run) == Some(st)
    ensures |st.queue| <= c.limits.bufferSize
    ensures forall f :: f in st.flushes ==> |f.records| <= c.limits.BatchBound()
    ensures !st.flushing ==> |st.queue| + |st.batch| <= c.limits.bufferSize + c.limits.BatchBound() - 1
  {
    ReachableInv(c, run);
  }

  /** A turn of the flush loop that finds something to do. */
  ghost predicate Productive(st: State, a: Action) {
    a.Receive? || a.RunFlush? || (a.Tick? && st.batch != [])
  }

  ghost predicate Unflushed(st: State) {
    st.queue != [] || st.batch != []
  }

  /** (queue, batch, not flushing), compared lexicographically. */
  ghost predicate Smaller(a: State, b: State) {
    || |a.queue| < |b.queue|
    || (a.queue == b.queue && (|a.batch| < |b.batch| || (a.batch == b.batch && a.flushing && !b.flushing)))
  }

  ghost function NextTurn(st: State): Action {
    if st.flushing then RunFlush(None) else if st.queue != [] then Receive else Tick
  }

  lemma {:induction false} ProductiveShrinks(c: Config, st: State, a: Action)
    requires Enabled(c, st, a) && Productive(st, a) && BoundsInv(c, st)
    ensures Smaller(Apply(c, st, a), st)
  {
  }

  lemma {:induction false} ProductiveExists(c: Config, st: State)
    requires BoundsInv(c, st) && Unflushed(st)
    ensures Enabled(c, st, NextTurn(st)) && Productive(st, NextTurn(st))
    ensures st.queue == [] ==> NextTurn(st) in {Tick, RunFlush(None)}
  {
  }

  /**
   While anything is unflushed some turn is productive, even when only the tick arm is left, and each such turn
   shrinks the measure; once nothing is unflushed none is.
   */
  lemma {:induction false} BufferProgress(c: Config, run: seq<Action>, st: State)
    requires Exec(c, INIT, run) == Some(st)
    ensures Unflushed(st) ==> Enabled(c, st, NextTurn(st)) && Productive(st, NextTurn(st))
    ensures Unflushed(st) && st.queue == [] ==> NextTurn(st) in {Tick, RunFlush(None)}
    ensures forall a :: Enabled(c, st, a) && Productive(st, a) ==> Unflushed(st) && Smaller(Apply(c, st, a), st)
  {
    ReachableInv(c, run);
    if Unflushed(st) {
      ProductiveExists(c, st);
    }
    forall a | Enabled(c, st, a) && Productive(st, a) ensures Unflushed(st) && Smaller(Apply(c, st, a), st) {
      ProductiveShrinks(c, st, a);
    }
  }

  /** So every reachable state can be drained without any new send. */
  lemma {:induction false} CanDrain(c: Config, run: seq<Action>, st: State) returns (more: seq<Action>)
    requires Exec(c, INIT, run) == Some(st)
    ensures Exec(c, st, more).Some? && !Unflushed(Exec(c, st, more).value)
    ensures forall a :: a in more ==> a == Receive || a == Tick || a == RunFlush(None)
    decreases |st.queue|, |st.batch|, if st.flushing then 0 else 1
  {
    ReachableInv(c, run);
    if !Unflushed(st) {
      more := [];
    } else {
      var a := NextTurn(st);
      var next := Apply(c, st, a);
      assert (run + [a])[..|run|] == run;
      var rest := CanDrain(c, run + [a], next);
      more := [a] + rest;
      assert [a][..0] == [];
      assert Exec(c, st, [a]) == Some(next);
      ExecConcat(c, st, [a], rest);
    }
  }
}
