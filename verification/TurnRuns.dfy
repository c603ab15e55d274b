/**
 The other sequential methods are runs of the pipeline too: a turn of the flush loop, a debug-session handler and
 the cleanup, uninterrupted, do to the state exactly what the methods of `WriteBuffer` and `DebugSessions` do to
 their objects.
 */
module TurnRuns {
  import opened Seqs
  import opened Types
  import opened Database
  import PeerRouter
  import opened WriteBuffer
  import opened Pipeline

  /** The buffer of a state; in the pipeline the channel is always open. */
  ghost function BufferOf(st: State): LoopState {
    LoopState(st.queue, st.batch, false, Accepted(st), st.flushes, st.tables)
  }

  /** What a step outside an export leaves alone unless it says otherwise. */
  ghost predicate SameElsewhere(st: State, st': State) {
    st'.flushing == st.flushing && st'.attempts == st.attempts && st'.tasks == st.tasks
  }

  ghost function Finish(st: State, fault: Fault): State {
    if st.flushing then AfterFlush(st, fault) else st
  }

  lemma {:induction false} TurnEnds(c: Config, st: State, arm: Action, fault: Fault)
    requires Enabled(c, st, arm)
    ensures var mid := Apply(c, st, arm);
            Exec(c, st, [arm] + if mid.flushing then [RunFlush(fault)] else []) == Some(Finish(mid, fault))
  {
    var mid := Apply(c, st, arm);
    ExecOne(c, st, arm);
    if mid.flushing {
      ExecOneMore(c, st, [arm], mid, RunFlush(fault));
    } else {
      assert [arm] + [] == [arm];
    }
  }

  /** The receive arm: pop, and run the transaction at once if that filled the batch. */
  lemma {:induction false} ReceiveTurnIsARun(c: Config, st: State, fault: Fault)
    returns (run: seq<Action>, st': State)
    requires !st.flushing && st.queue != []
    ensures run == [Receive] + if |st.batch| + 1 >= c.limits.batchSize then [RunFlush(fault)] else []
    ensures Exec(c, st, run) == Some(st') && SameElsewhere(st, st')
    ensures BufferOf(st') == Received(c.limits, BufferOf(st), fault)
    ensures st'.routes == st.routes && st'.claims == st.claims
  {
    var mid := AfterReceive(c, st);
    TurnEnds(c, st, Receive, fault);
    run, st' := [Receive] + if mid.flushing then [RunFlush(fault)] else [], Finish(mid, fault);
  }

  lemma {:induction false} TickTurnIsARun(c: Config, st: State, fault: Fault) returns (run: seq<Action>, st': State)
    requires !st.flushing
    ensures run == [Tick] + if st.batch != [] then [RunFlush(fault)] else []
    ensures Exec(c, st, run) == Some(st') && SameElsewhere(st, st')
    ensures BufferOf(st') == Ticked(BufferOf(st), fault)
    ensures st'.routes == st.routes && st'.claims == st.claims
  {
    var mid := st.(flushing := st.batch != []);
    TurnEnds(c, st, Tick, fault);
    run, st' := [Tick] + if mid.flushing then [RunFlush(fault)] else [], Finish(mid, fault);
  }

  /** A create that commits goes on to its router step; one that fails stops there. */
  lemma {:induction false} CreateIsARun(c: Config, st: State, id: SessionId, peers: seq<PeerId>, fault: Fault)
    returns (run: seq<Action>, st': State)
    requires id !in st.claims
    ensures var made := CreateAllowed(st.tables, id, peers) && !Strikes(fault, |peers| + 3);
            var tables := if made then Created(st.tables, id, peers) else st.tables;
            && BufferOf(st') == BufferOf(st).(tables := tables)
            && st'.routes == (if made then PeerRouter.AddRoutes(st.routes, id, peers) else st.routes)
            && st'.claims == (if made then st.claims[id := peers] else st.claims)
            && run == [Create(id, peers, fault)] + if made then [CreateRoute(id)] else []
    ensures Exec(c, st, run) == Some(st') && SameElsewhere(st, st')
  {
    var create := Create(id, peers, fault);
    ExecOne(c, st, create);
    run, st' := [create], AfterCreate(st, id, peers, fault);
    if CreateAllowed(st.tables, id, peers) && !Strikes(fault, |peers| + 3) {
      ExecOneMore(c, st, run, st', CreateRoute(id));
      run, st' := run + [CreateRoute(id)], AfterCreateRoute(st', id);
    }
  }

  /** An end that affects a row goes on to its router step; any other leaves the router alone. */
  lemma {:induction false} EndIsARun(c: Config, st: State, id: SessionId, now: string, fault: Fault)
    returns (run: seq<Action>, st': State)
    ensures var done := EndMatches(st.tables, id) && !Strikes(fault, 1);
            var tables := if done then Ended(st.tables, id, now) else st.tables;
            && BufferOf(st') == BufferOf(st).(tables := tables)
            && st'.routes == (if done then PeerRouter.RemoveRoutes(st.routes, id) else st.routes)
            && run == [End(id, now, fault)] + if done then [EndRoute(id)] else []
    ensures Exec(c, st, run) == Some(st') && SameElsewhere(st, st') && st'.claims == st.claims
  {
    var end := End(id, now, fault);
    ExecOne(c, st, end);
    run, st' := [end], AfterEnd(st, id, now, fault);
    if EndMatches(st.tables, id) && !Strikes(fault, 1) {
      ExecOneMore(c, st, run, st', EndRoute(id));
      run, st' := run + [EndRoute(id)], AfterEndRoute(st', id);
    }
  }
}
