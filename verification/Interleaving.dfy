/**
 The shared objects step by step. Where `Assembly` runs each handler, export and turn to its end, here every atomic
 call on a shared object is a method of its own, and the calls of different tasks may follow one another in any
 order the pipeline allows. Each extends the run by one action and leaves the objects mirroring the state it leads
 to, so the objects take part in every interleaving that the theorems speak of.
 */
module Interleaving {
  import opened Seqs
  import opened Types
  import opened Database
  import opened Pipeline
  import Capture
  import Invariants
  import Otlp
  import PeerRouter
  import TurnRuns
  import WriteBuffer

  class Shared {
    const config: Config
    const store: Store
    const router: PeerRouter.Router
    const buffer: WriteBuffer.Buffer
    /** The run so far and the state it led to, which also knows where each task stands. */
    ghost var run: seq<Action>
    ghost var st: State

    ghost predicate Valid()
      reads this, store, router, buffer
    {
      && buffer.store == store && config.limits == buffer.limits
      && router.Valid() && buffer.Sound()
      && Exec(config, INIT, run) == Some(st)
      && TurnRuns.BufferOf(st) == buffer.Now() && st.routes == PeerRouter.Relation(router.index)
    }

    constructor (limits: WriteBuffer.Limits, idKey: string)
      requires limits.bufferSize >= 1
      ensures Valid() && config == Config(limits, idKey) && run == []
    {
      var store := new Store();
      var router := new PeerRouter.Router();
      this.config, this.store, this.router := Config(limits, idKey), store, router;
      this.buffer := new WriteBuffer.Buffer(limits, store);
      this.run, this.st := [], INIT;
    }

    /** The run is one action longer, and the state is where that action leads. */
    ghost predicate Did(run0: seq<Action>, st0: State, a: Action)
      reads this
    {
      Enabled(config, st0, a) && run == run0 + [a] && st == Apply(config, st0, a)
    }

    ghost method Extend(a: Action)
      requires Exec(config, INIT, run) == Some(st) && Enabled(config, st, a)
      modifies this`run, this`st
      ensures Exec(config, INIT, run) == Some(st) && Did(old(run), old(st), a)
    {
      ExecOneMore(config, INIT, run, st, a);
      run, st := run + [a], Apply(config, st, a);
    }

    // ---- The two steps of a create, and of an end ----

    method CommitCreate(id: SessionId, peers: seq<PeerId>, fault: Fault) returns (ok: bool)
      requires Valid() && id !in st.claims
      modifies this`run, this`st, store
      ensures Valid() && Did(old(run), old(st), Create(id, peers, fault))
      ensures ok <==> CreateAllowed(old(store.tables), id, peers) && !Strikes(fault, |peers| + 3)
    {
      Invariants.ReachableInv(config, run);
      ok := store.CreateDebugSession(id, peers, fault);
      Extend(Create(id, peers, fault));
    }

    /** The handler passes on the very peers it had stored. */
    method RouteCreate(id: SessionId, peers: seq<PeerId>)
      requires Valid() && id in st.creating && peers == st.creating[id]
      modifies this`run, this`st, router
      ensures Valid() && Did(old(run), old(st), CreateRoute(id))
    {
      router.AddSession(id, peers);
      Extend(CreateRoute(id));
    }

    method CommitEnd(id: SessionId, now: string, fault: Fault) returns (result: Option<bool>)
      requires Valid()
      modifies this`run, this`st, store
      ensures Valid() && Did(old(run), old(st), End(id, now, fault))
      ensures result == if Strikes(fault, 1) then None else Some(EndMatches(old(store.tables), id))
    {
      result := store.EndDebugSession(id, now, fault);
      Extend(End(id, now, fault));
    }

    method UnrouteEnd(id: SessionId)
      requires Valid() && id in st.ending
      modifies this`run, this`st, router
      ensures Valid() && Did(old(run), old(st), EndRoute(id))
    {
      router.RemoveSession(id);
      Extend(EndRoute(id));
    }

    method Purge(cutoff: string, fault: Fault)
      requires Valid()
      modifies this`run, this`st, store
      ensures Valid() && Did(old(run), old(st), Cleanup(cutoff, fault))
    {
      Invariants.ReachableInv(config, run);
      var deleted := store.DeleteExpiredSessions(cutoff, fault);
      Extend(Cleanup(cutoff, fault));
    }

    // ---- The steps of an export ----

    /** A request arrives; no shared object is touched. */
    ghost method Begin(request: Otlp.Request)
      requires Valid()
      modifies this`run, this`st
      ensures Valid() && Did(old(run), old(st), Start(request))
    {
      Extend(Start(request));
    }

    /** The export `task` asks for the peer of its next unit. */
    method Decide(ghost task: TaskId, peer: PeerId) returns (d: RoutingDecision)
      requires Valid() && task < |st.tasks| && st.tasks[task].pending == []
      requires |st.tasks[task].orders| < |st.tasks[task].units|
      requires st.tasks[task].units[|st.tasks[task].orders|].peer == peer
      modifies this`run, this`st
      ensures Valid() && Did(old(run), old(st), Route(task, Chosen(d)))
    {
      d := router.Route(peer);
      Extend(Route(task, Chosen(d)));
    }

    /** The export `task` offers its next copy, possibly while a transaction is due. */
    method Offer(ghost task: TaskId, r: WriteRecord) returns (sent: bool)
      requires Valid() && task < |st.tasks| && st.tasks[task].pending != [] && st.tasks[task].pending[0] == r
      modifies this`run, this`st, buffer`queue, buffer`accepted
      ensures Valid() && Did(old(run), old(st), Action.Offer(task))
      ensures sent <==> |old(buffer.queue)| < config.limits.bufferSize
    {
      sent := buffer.TrySend(r);
      LogOne(st.attempts, Attempt(task, r, sent));
      Extend(Action.Offer(task));
    }

    // ---- The steps of the flush loop ----

    /** The receive arm up to its transaction, if that is due. */
    method Pop() returns (due: bool)
      requires Valid() && !st.flushing && buffer.queue != []
      modifies this`run, this`st, buffer`queue, buffer`batch
      ensures Valid() && Did(old(run), old(st), Receive) && due == st.flushing
    {
      Invariants.ReachableInv(config, run);
      buffer.Pop();
      due := |buffer.batch| >= buffer.limits.batchSize;
      Extend(Receive);
    }

    /** The tick arm up to its transaction, if that is due. */
    method TimerTick() returns (due: bool)
      requires Valid() && !st.flushing
      modifies this`run, this`st
      ensures Valid() && Did(old(run), old(st), Tick) && due == st.flushing
    {
      due := buffer.batch != [];
      Extend(Tick);
    }

    method Transact(fault: Fault)
      requires Valid() && st.flushing
      modifies this`run, this`st, buffer`batch, buffer`flushes, store
      ensures Valid() && Did(old(run), old(st), RunFlush(fault))
    {
      Invariants.ReachableInv(config, run);
      buffer.FlushBatch(fault);
      Extend(RunFlush(fault));
    }

    // ---- What holds between any two calls ----

    /** The store never holds a row without its stored (session, peer) pair, however the calls interleave. */
    lemma {:induction false} RowsHaveTheirPeers(k: RecordType, r: WriteRecord)
      requires Valid() && r in Rows(store.tables, k)
      ensures (r.session, r.peer) in store.tables.peers
    {
      Capture.UndeclaredForeignKey(config, run, st, k, r);
    }
  }

  /** The states of such a run, from any state with a fresh identifier. */
  lemma {:induction false} OvertakenStates(st: State, id: SessionId, peer: PeerId)
    returns (st2: State, st3: State, st4: State)
    requires CreateAllowed(st.tables, id, [peer])
    ensures st2 == AfterEnd(AfterCreate(st, id, [peer], None), id, "", None) && id in st2.ending
    ensures st3 == AfterEndRoute(st2, id) && id in st3.creating && st3.creating[id] == [peer]
    ensures st4 == AfterCreateRoute(st3, id) && id !in st4.creating && id !in st4.ending
    ensures id in st4.tables.sessions && st4.tables.sessions[id].status == Completed && (peer, id) in st4.routes
  {
    st2 := AfterEnd(AfterCreate(st, id, [peer], None), id, "", None);
    st3 := AfterEndRoute(st2, id);
    st4 := AfterCreateRoute(st3, id);
  }

  /** The calls of a create with those of an end in between: the session is completed and stays routed. */
  method OvertakeCreate(shared: Shared, id: SessionId, peer: PeerId)
    requires shared.Valid() && id !in shared.st.claims
    modifies shared, shared.store, shared.router
    ensures shared.Valid()
    ensures id in shared.store.tables.sessions && shared.store.tables.sessions[id].status == Completed
    ensures (peer, id) in PeerRouter.Relation(shared.router.index)
    ensures id !in shared.st.creating && id !in shared.st.ending
  {
    assert CreateAllowed(shared.st.tables, id, [peer]) by {
      Invariants.ReachableInv(shared.config, shared.run);
    }
    ghost var st2, st3, st4 := OvertakenStates(shared.st, id, peer);
    var made := shared.CommitCreate(id, [peer], None);
    var ended := shared.CommitEnd(id, "", None);
    shared.UnrouteEnd(id);
    shared.RouteCreate(id, [peer]);
  }
}
