/**
 The program as src/main.rs wires it up: one store, one router, one tracker, one buffer, shared by the handlers,
 the receivers and the flush loop. Every method called on these objects extends a run of the pipeline, and the
 objects mirror the state that run ends in, so whatever holds of all runs holds of the objects.
 */
module Assembly {
  import opened Seqs
  import opened Types
  import Database
  import PeerRouter
  import WriteBuffer
  import opened Otlp
  import opened Pipeline
  import TurnRuns
  import Capture
  import DebugSessions
  import ExportRuns
  import Invariants
  import Lifecycle
  import Receivers
  import SessionTracker

  class System {
    const config: Config
    const api: DebugSessions.Api
    const buffer: WriteBuffer.Buffer
    const receiver: Receivers.Receiver
    /** The run so far and the state it led to. */
    ghost var run: seq<Action>
    ghost var st: State

    ghost predicate Wired()
      reads this
    {
      && buffer.store == api.store && receiver.router == api.router && receiver.buffer == buffer
      && config == Config(buffer.limits, receiver.idKey)
    }

    /** The objects hold what the state holds, and no transaction is due. */
    ghost predicate Mirrors(s: State)
      reads this, api.store, api.router, buffer, buffer.store
    {
      && !s.flushing && TurnRuns.BufferOf(s) == buffer.Now() && s.routes == PeerRouter.Relation(api.router.index)
    }

    ghost predicate Valid()
      reads this, api, api.store, api.router, buffer, buffer.store
    {
      && Wired() && api.Valid() && buffer.Valid()
      && Exec(config, INIT, run) == Some(st) && Mirrors(st)
    }

    constructor (limits: WriteBuffer.Limits, idKey: string)
      requires limits.bufferSize >= 1
      ensures Valid() && config == Config(limits, idKey) && run == []
    {
      var api := new DebugSessions.Api();
      var buffer := new WriteBuffer.Buffer(limits, api.store);
      var tracker := new SessionTracker.Tracker();
      this.config, this.api, this.buffer := Config(limits, idKey), api, buffer;
      this.receiver := new Receivers.Receiver(api.router, tracker, buffer, idKey);
      this.run, this.st := [], INIT;
    }

    /** Freshness of the identifier is the one thing asked of a caller. */
    method CreateSession(id: SessionId, peers: seq<PeerId>, fault: Database.Fault) returns (reply: DebugSessions.Reply)
      requires Valid() && id !in st.claims
      modifies this, api.store, api.router
      ensures Valid() && run == old(run) + ([Create(id, peers, fault)] + if reply.Made? then [CreateRoute(id)] else [])
    {
      ghost var more, next := TurnRuns.CreateIsARun(config, st, id, peers, fault);
      reply := api.CreateSession(id, peers, fault);
      ExecConcat(config, INIT, run, more);
      run, st := run + more, next;
    }

    method EndSession(id: Option<SessionId>, now: string, fault: Database.Fault) returns (reply: DebugSessions.Reply)
      requires Valid()
      modifies this, api.store, api.router
      ensures Valid() && (reply.BadRequest? <==> id.None?)
      ensures run == old(run) + if id.None? then []
                                else [End(id.value, now, fault)] + if reply.Done? then [EndRoute(id.value)] else []
    {
      reply := api.EndSession(id, now, fault);
      if id.Some? {
        ghost var more, next := TurnRuns.EndIsARun(config, st, id.value, now, fault);
        ExecConcat(config, INIT, run, more);
        run, st := run + more, next;
      }
    }

    method CleanUp(cutoff: string, fault: Database.Fault)
      requires Valid()
      modifies this, api.store
      ensures Valid() && run == old(run) + [Cleanup(cutoff, fault)]
    {
      api.CleanUp(cutoff, fault);
      ExecOneMore(config, INIT, run, st, Cleanup(cutoff, fault));
      run, st := run + [Cleanup(cutoff, fault)], AfterCleanup(st, cutoff, fault);
    }

    /** The export as a run: start it, then route each unit and send its copies. */
    ghost predicate ExtendedBy(run0: seq<Action>, st0: State, request: Request, orders: seq<seq<SessionId>>)
      reads this
    {
      && |orders| == |UnitsOf(request, config.idKey)|
      && run == run0 + ExportSteps(config, |st0.tasks|, request, orders)
    }

    method ExportTraces(rs: seq<ResourceSpans>) returns (ghost orders: seq<seq<SessionId>>)
      requires Valid()
      modifies this, receiver.tracker, buffer`queue, buffer`accepted
      ensures Valid() && ExtendedBy(old(run), old(st), Traces(rs), orders)
    {
      orders := receiver.ExportTraces(rs);
      run, st := ExportExtends(config, run, st, Traces(rs), orders, buffer.Now());
    }

    method ExportMetrics(rs: seq<ResourceRecords>) returns (ghost orders: seq<seq<SessionId>>)
      requires Valid()
      modifies this, buffer`queue, buffer`accepted
      ensures Valid() && ExtendedBy(old(run), old(st), Metrics(rs), orders)
    {
      orders := receiver.ExportRecords(Metric, rs);
      run, st := ExportExtends(config, run, st, Metrics(rs), orders, buffer.Now());
    }

    method ExportLogs(rs: seq<ResourceRecords>) returns (ghost orders: seq<seq<SessionId>>)
      requires Valid()
      modifies this, buffer`queue, buffer`accepted
      ensures Valid() && ExtendedBy(old(run), old(st), Logs(rs), orders)
    {
      orders := receiver.ExportRecords(Log, rs);
      run, st := ExportExtends(config, run, st, Logs(rs), orders, buffer.Now());
    }

    method ReceiveArm(fault: Database.Fault)
      requires Valid() && buffer.queue != []
      modifies this, buffer, buffer.store
      ensures Valid()
      ensures run == old(run) + ([Receive] + if |old(buffer.batch)| + 1 >= config.limits.batchSize
                                             then [RunFlush(fault)] else [])
    {
      ghost var more, next := TurnRuns.ReceiveTurnIsARun(config, st, fault);
      buffer.ReceiveArm(fault);
      ExecConcat(config, INIT, run, more);
      run, st := run + more, next;
      Invariants.ReachableInv(config, run);
    }

    method TickArm(fault: Database.Fault)
      requires Valid()
      modifies this, buffer, buffer.store
      ensures Valid()
      ensures run == old(run) + ([Tick] + if old(buffer.batch) != [] then [RunFlush(fault)] else [])
    {
      ghost var more, next := TurnRuns.TickTurnIsARun(config, st, fault);
      buffer.TickArm(fault);
      ExecConcat(config, INIT, run, more);
      run, st := run + more, next;
      Invariants.ReachableInv(config, run);
    }

    /** What holds of all runs holds of the store: no row without its stored (session, peer) pair. */
    lemma {:induction false} RowsHaveTheirPeers(k: RecordType, r: WriteRecord)
      requires Valid() && r in Database.Rows(api.store.tables, k)
      ensures (r.session, r.peer) in api.store.tables.peers
    {
      Capture.UndeclaredForeignKey(config, run, st, k, r);
    }
  }

  ghost function ExportSteps(c: Config, task: TaskId, request: Request, orders: seq<seq<SessionId>>): seq<Action>
    requires |orders| == |UnitsOf(request, c.idKey)|
  {
    [Start(request)] + ExportRuns.Script(task, UnitsOf(request, c.idKey), orders)
  }

  /** Such a run takes into the queue what it has room for, and leaves everything else. */
  lemma {:induction false} ExportExtends(c: Config, run: seq<Action>, st: State, request: Request,
                                         orders: seq<seq<SessionId>>, now: WriteBuffer.LoopState)
    returns (run': seq<Action>, st': State)
    requires Exec(c, INIT, run) == Some(st) && Receivers.RoutedBy(UnitsOf(request, c.idKey), orders, st.routes)
    requires |st.queue| <= c.limits.bufferSize
    requires now.queue == st.queue + Receivers.Taken(FanoutAll(UnitsOf(request, c.idKey), orders),
                                                     c.limits.bufferSize - |st.queue|)
    requires now == TurnRuns.BufferOf(st).(queue := now.queue,
                                           accepted := WriteBuffer.Flushed(st.flushes) + (st.batch + now.queue))
    ensures run' == run + ExportSteps(c, |st.tasks|, request, orders) && Exec(c, INIT, run') == Some(st')
    ensures TurnRuns.BufferOf(st') == now && st'.routes == st.routes && st'.flushing == st.flushing
  {
    ExportRuns.AloneExportIsARun(c, st, request, orders);
    var more := ExportSteps(c, |st.tasks|, request, orders);
    st' := Exec(c, st, more).value;
    ExecConcat(c, INIT, run, more);
    run' := run + more;
    Invariants.ReachableInv(c, run');
  }
}
