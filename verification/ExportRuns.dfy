/**
 The receivers' loops are runs of the pipeline: an export whose steps follow one another without interruption
 leaves in the channel exactly what the sequential loops of `Receivers` put there.
 */
module ExportRuns {
  import opened Seqs
  import opened Types
  import PeerRouter
  import opened Otlp
  import opened Receivers
  import opened Pipeline

  function Offers(task: TaskId, count: nat): seq<Action> {
    seq(count, i => Offer(task))
  }

  function UnitSteps(task: TaskId, u: Unit, order: seq<SessionId>): seq<Action> {
    [Route(task, order)] + Offers(task, |Fanout(u, order)|)
  }

  /** Route each unit and send its copies, from the first unit to the |orders|-th. */
  function Script(task: TaskId, units: seq<Unit>, orders: seq<seq<SessionId>>): seq<Action>
    requires |orders| <= |units|
  {
    if orders == [] then []
    else
      var n := |orders| - 1;
      Script(task, units, orders[..n]) + UnitSteps(task, units[n], orders[n])
  }

  /** The channel after the attempts, and the export's own entry; everything else that matters stays as it was. */
  ghost predicate Sent(c: Config, st: State, st': State, task: TaskId, entry: Task, attempts: seq<WriteRecord>) {
    && |st.queue| <= c.limits.bufferSize
    && st'.queue == st.queue + Taken(attempts, c.limits.bufferSize - |st.queue|)
    && st'.routes == st.routes && st'.tables == st.tables && st'.claims == st.claims
    && st'.batch == st.batch && st'.flushing == st.flushing && st'.flushes == st.flushes
    && task < |st'.tasks| && st'.tasks[task] == entry
  }

  lemma {:induction false} OneOffer(c: Config, st: State, mid: State, task: TaskId, e: Task, sent: seq<WriteRecord>)
    requires Sent(c, st, mid, task, e, sent) && e.pending != []
    ensures Sent(c, st, AfterOffer(c, mid, task), task, e.(pending := e.pending[1..]), sent + [e.pending[0]])
  {
  }

  /** The pending sends, one after another, fill the channel up and refuse the rest. */
  lemma {:induction false} OffersRun(c: Config, st: State, task: TaskId, t: Task, count: nat) returns (st': State)
    requires task < |st.tasks| && t == st.tasks[task] && count <= |t.pending| && |st.queue| <= c.limits.bufferSize
    ensures Exec(c, st, Offers(task, count)) == Some(st')
    ensures Sent(c, st, st', task, t.(pending := t.pending[count..]), t.pending[..count])
  {
    if count == 0 {
      assert t.(pending := t.pending[0..]) == t;
      st' := st;
    } else {
      var before := Offers(task, count - 1);
      var mid := OffersRun(c, st, task, t, count - 1);
      ExecOneMore(c, st, before, mid, Offer(task));
      assert Offers(task, count) == before + [Offer(task)];
      assert t.pending[..count] == t.pending[..count - 1] + [t.pending[count - 1]];
      OneOffer(c, st, mid, task, t.(pending := t.pending[count - 1..]), t.pending[..count - 1]);
      st' := AfterOffer(c, mid, task);
    }
  }

  lemma {:induction false} UnitRun(c: Config, st: State, task: TaskId, t: Task, order: seq<SessionId>)
    requires Enabled(c, st, Route(task, order)) && |st.queue| <= c.limits.bufferSize && t == st.tasks[task]
    ensures var run := UnitSteps(task, t.units[|t.orders|], order);
            Exec(c, st, run).Some?
            && Sent(c, st, Exec(c, st, run).value, task, t.(orders := t.orders + [order]),
                    Fanout(t.units[|t.orders|], order))
  {
    var all := Fanout(t.units[|t.orders|], order);
    var routed := AfterRoute(st, task, order);
    ExecOne(c, st, Route(task, order));
    var st' := OffersRun(c, routed, task, routed.tasks[task], |all|);
    ExecConcat(c, st, [Route(task, order)], Offers(task, |all|));
    assert all[..|all|] == all && all[|all|..] == [];
  }

  lemma {:induction false} TakenConcat(a: seq<WriteRecord>, b: seq<WriteRecord>, room: nat)
    ensures Taken(a + b, room) == Taken(a, room) + Taken(b, room - |Taken(a, room)|)
  {
  }

  lemma {:induction false} SentTwice(c: Config, st: State, mid: State, st': State, task: TaskId, e: Task, e': Task,
                                     a: seq<WriteRecord>, b: seq<WriteRecord>)
    requires Sent(c, st, mid, task, e, a) && Sent(c, mid, st', task, e', b)
    ensures Sent(c, st, st', task, e', a + b)
  {
    var room := c.limits.bufferSize - |st.queue|;
    TakenConcat(a, b, room);
    assert c.limits.bufferSize - |mid.queue| == room - |Taken(a, room)|;
    assert st'.queue == st.queue + (Taken(a, room) + Taken(b, room - |Taken(a, room)|));
  }

  lemma {:induction false} ScriptStep(c: Config, st: State, mid: State, task: TaskId, units: seq<Unit>,
                                      orders: seq<seq<SessionId>>, first: seq<Action>, order: seq<SessionId>)
    returns (st': State)
    requires |orders| < |units| && Exec(c, st, first) == Some(mid)
    requires Sent(c, st, mid, task, Task(units, orders, []), FanoutAll(units, orders))
    requires |mid.queue| <= c.limits.bufferSize
    requires Enumerates(order, PeerRouter.Claimers(st.routes, units[|orders|].peer))
    ensures Exec(c, st, first + UnitSteps(task, units[|orders|], order)) == Some(st')
    ensures Sent(c, st, st', task, Task(units, orders + [order], []),
                 FanoutAll(units, orders) + Fanout(units[|orders|], order))
  {
    var rest := UnitSteps(task, units[|orders|], order);
    UnitRun(c, mid, task, Task(units, orders, []), order);
    st' := Exec(c, mid, rest).value;
    ExecConcat(c, st, first, rest);
    SentTwice(c, st, mid, st', task, Task(units, orders, []), Task(units, orders + [order], []),
              FanoutAll(units, orders), Fanout(units[|orders|], order));
  }

  lemma {:induction false} ScriptOne(task: TaskId, units: seq<Unit>, orders: seq<seq<SessionId>>, order: seq<SessionId>)
    requires |orders| < |units|
    ensures Script(task, units, orders + [order])
         == Script(task, units, orders) + UnitSteps(task, units[|orders|], order)
    ensures FanoutAll(units, orders + [order]) == FanoutAll(units, orders) + Fanout(units[|orders|], order)
  {
  }

  lemma {:induction false} ScriptRun(c: Config, st: State, task: TaskId, units: seq<Unit>, orders: seq<seq<SessionId>>)
    returns (st': State)
    requires |st.queue| <= c.limits.bufferSize && |orders| <= |units|
    requires task < |st.tasks| && st.tasks[task] == Task(units, [], [])
    requires forall i :: 0 <= i < |orders| ==> Enumerates(orders[i], PeerRouter.Claimers(st.routes, units[i].peer))
    ensures Exec(c, st, Script(task, units, orders)) == Some(st')
    ensures Sent(c, st, st', task, Task(units, orders, []), FanoutAll(units, orders))
  {
    if orders == [] {
      st' := st;
    } else {
      var n := |orders| - 1;
      var front, order := orders[..n], orders[n];
      assert front + [order] == orders;
      var mid := ScriptRun(c, st, task, units, front);
      ScriptOne(task, units, front, order);
      st' := ScriptStep(c, st, mid, task, units, front, Script(task, units, front), order);
    }
  }

  /** Starting an export and letting it run alone has the effect that the receivers' methods promise. */
  lemma {:induction false} AloneExportIsARun(c: Config, st: State, request: Request, orders: seq<seq<SessionId>>)
    requires |st.queue| <= c.limits.bufferSize
    requires RoutedBy(UnitsOf(request, c.idKey), orders, st.routes)
    ensures var units := UnitsOf(request, c.idKey);
            var run := [Start(request)] + Script(|st.tasks|, units, orders);
            Exec(c, st, run).Some?
            && Sent(c, st, Exec(c, st, run).value, |st.tasks|, Task(units, orders, []), FanoutAll(units, orders))
  {
    var units := UnitsOf(request, c.idKey);
    var started := Apply(c, st, Start(request));
    ExecOne(c, st, Start(request));
    var st' := ScriptRun(c, started, |st.tasks|, units, orders);
    ExecConcat(c, st, [Start(request)], Script(|st.tasks|, units, orders));
  }
}
