/**
 The write buffer (src/write_buffer.rs): a bounded first-in first-out channel, a batch that the background
 loop fills from it, and all-or-nothing flushes. A failed flush drops its whole batch.
 */
module WriteBuffer {
  import opened Seqs
  import opened Types
  import opened Database

  /** Channel capacity and batch size; the channel constructor panics on capacity 0. */
  datatype Limits = Limits(bufferSize: nat, batchSize: nat) {
    /** The loop tests the length only after pushing, so batch size 0 behaves like 1. */
    function BatchBound(): nat {
      Max(batchSize, 1)
    }
  }

  /** One finished flush: what it held, whether storage failed, and whether it reached the database. */
  datatype Flush = Flush(records: seq<WriteRecord>, faulted: bool, committed: bool)

  function Contents(flushes: seq<Flush>): seq<seq<WriteRecord>> {
    seq(|flushes|, i requires 0 <= i < |flushes| => flushes[i].records)
  }

  /** All flushed records in order, whatever became of them. */
  function Flushed(flushes: seq<Flush>): seq<WriteRecord> {
    Flatten(Contents(flushes))
  }

  /** The records of the committed flushes, in order. */
  function CommittedRecords(flushes: seq<Flush>): seq<WriteRecord> {
    if flushes == [] then []
    else CommittedRecords(flushes[..|flushes| - 1])
         + if flushes[|flushes| - 1].committed then flushes[|flushes| - 1].records else []
  }

  lemma FlushedOne(flushes: seq<Flush>, f: Flush)
    ensures Flushed(flushes + [f]) == Flushed(flushes) + f.records
    ensures CommittedRecords(flushes + [f]) == CommittedRecords(flushes) + if f.committed then f.records else []
  {
    assert Contents(flushes + [f]) == Contents(flushes) + [f.records];
    FlattenOne(Contents(flushes), f.records);
    assert (flushes + [f])[..|flushes|] == flushes;
  }

  lemma {:induction false} FlushedConcat(a: seq<Flush>, b: seq<Flush>)
    ensures Flushed(a + b) == Flushed(a) + Flushed(b)
  {
    assert Contents(a + b) == Contents(a) + Contents(b);
    FlattenConcat(Contents(a), Contents(b));
  }

  lemma {:induction false} FlushedMember(flushes: seq<Flush>, r: WriteRecord)
    requires r in Flushed(flushes)
    ensures exists f :: f in flushes && r in f.records
  {
    assert Contents(flushes)[0] == flushes[0].records;
    if r !in flushes[0].records {
      assert Contents(flushes)[1..] == Contents(flushes[1..]);
      FlushedMember(flushes[1..], r);
    }
  }

  /** With no flush lost, the committed records are all the flushed ones. */
  lemma {:induction false} AllCommitted(flushes: seq<Flush>)
    requires forall f :: f in flushes ==> f.committed
    ensures CommittedRecords(flushes) == Flushed(flushes)
  {
    if flushes != [] {
      var n := |flushes| - 1;
      AllCommitted(flushes[..n]);
      assert flushes == flushes[..n] + [flushes[n]];
      FlushedOne(flushes[..n], flushes[n]);
    }
  }

  /** Every committed record was flushed. */
  lemma {:induction false} CommittedWereFlushed(flushes: seq<Flush>)
    ensures forall r :: r in CommittedRecords(flushes) ==> r in Flushed(flushes)
  {
    if flushes != [] {
      var n := |flushes| - 1;
      CommittedWereFlushed(flushes[..n]);
      assert flushes == flushes[..n] + [flushes[n]];
      FlushedOne(flushes[..n], flushes[n]);
    }
  }

  /** The tables after a list of flushes that nothing else interleaves with. */
  function Replay(t: Tables, flushes: seq<Flush>): Tables {
    Inserted(t, CommittedRecords(flushes))
  }

  lemma ReplayOne(t: Tables, flushes: seq<Flush>, f: Flush)
    ensures Replay(t, flushes + [f])
         == if f.committed then Inserted(Replay(t, flushes), f.records) else Replay(t, flushes)
  {
    FlushedOne(flushes, f);
    InsertedConcat(t, CommittedRecords(flushes), f.records);
    assert CommittedRecords(flushes) + [] == CommittedRecords(flushes);
  }

  lemma {:induction false} MoveToFlushed(flushes: seq<Flush>, f: Flush, queue: seq<WriteRecord>)
    ensures Flushed(flushes + [f]) + ([] + queue) == Flushed(flushes) + (f.records + queue)
  {
    FlushedOne(flushes, f);
    assert [] + queue == queue;
    assert Flushed(flushes) + (f.records + queue) == (Flushed(flushes) + f.records) + queue;
  }

  /** One transaction on a batch: a storage fault or a missing session loses it, and nothing else does. */
  function FlushOf(t: Tables, batch: seq<WriteRecord>, fault: Fault): Flush {
    var faulted := Strikes(fault, |batch| + 2);
    Flush(batch, faulted, Insertable(t, batch) && !faulted)
  }

  function AfterWrite(t: Tables, f: Flush): Tables {
    if f.committed then Inserted(t, f.records) else t
  }

  // ---- The buffer as a value ----

  /** The buffer, the history of what it took, and the tables it writes to. */
  datatype LoopState = LoopState(
    queue: seq<WriteRecord>,
    batch: seq<WriteRecord>,
    closed: bool,
    accepted: seq<WriteRecord>,
    flushes: seq<Flush>,
    tables: Tables)

  /** What the scheduler and the other tasks do between two turns of the loop. */
  datatype Turn = Arrival(record: WriteRecord) | ReceiveReady(fault: Fault) | TickReady(fault: Fault)

  function Arrived(l: Limits, s: LoopState, r: WriteRecord): LoopState {
    if s.closed || |s.queue| >= l.bufferSize then s
    else s.(queue := s.queue + [r], accepted := s.accepted + [r])
  }

  function BatchFlushed(s: LoopState, fault: Fault): LoopState {
    var f := FlushOf(s.tables, s.batch, fault);
    s.(batch := [], flushes := s.flushes + [f], tables := AfterWrite(s.tables, f))
  }

  function Received(l: Limits, s: LoopState, fault: Fault): LoopState
    requires s.queue != []
  {
    var popped := s.(batch := s.batch + [s.queue[0]], queue := s.queue[1..]);
    if |popped.batch| >= l.batchSize then BatchFlushed(popped, fault) else popped
  }

  function Ticked(s: LoopState, fault: Fault): LoopState {
    if s.batch == [] then s else BatchFlushed(s, fault)
  }

  /** The receive arm is not ready while the queue is empty. */
  function Turned(l: Limits, s: LoopState, turn: Turn): LoopState {
    match turn
    case Arrival(r) => Arrived(l, s, r)
    case ReceiveReady(fault) => if s.queue == [] then s else Received(l, s, fault)
    case TickReady(fault) => Ticked(s, fault)
  }

  function Turns(l: Limits, s: LoopState, script: seq<Turn>): LoopState {
    if script == [] then s else Turned(l, Turns(l, s, script[..|script| - 1]), script[|script| - 1])
  }

  lemma TurnsOne(l: Limits, s: LoopState, script: seq<Turn>, turn: Turn)
    ensures Turns(l, s, script + [turn]) == Turned(l, Turns(l, s, script), turn)
  {
    assert (script + [turn])[..|script|] == script;
  }

  // ---- What a script of turns leaves behind ----

  /** The length of the queue after a script, by counting arrivals and receives only. */
  function Occupancy(l: Limits, n: nat, script: seq<Turn>): nat {
    if script == [] then n
    else
      var m := Occupancy(l, n, script[..|script| - 1]);
      match script[|script| - 1]
      case Arrival(_) => if m < l.bufferSize then m + 1 else m
      case ReceiveReady(_) => if m > 0 then m - 1 else 0
      case TickReady(_) => m
  }

  /** The arrivals that find a free slot, judged by the count. */
  function Admitted(l: Limits, n: nat, script: seq<Turn>): seq<WriteRecord> {
    if script == [] then []
    else
      var before, last := script[..|script| - 1], script[|script| - 1];
      Admitted(l, n, before)
      + if last.Arrival? && Occupancy(l, n, before) < l.bufferSize then [last.record] else []
  }

  /**
   Acceptance depends on the pattern of arrivals and receives alone, never on batches, faults or tables: the
   records taken are exactly the arrivals that found a free slot, in order, and none is lost on the way.
   */
  lemma {:induction false} AcceptedAreAdmitted(l: Limits, s: LoopState, script: seq<Turn>)
    requires !s.closed
    ensures var s' := Turns(l, s, script);
            && !s'.closed && |s'.queue| == Occupancy(l, |s.queue|, script)
            && s'.accepted == s.accepted + Admitted(l, |s.queue|, script)
            && Flushed(s'.flushes) + (s'.batch + s'.queue)
               == Flushed(s.flushes) + (s.batch + s.queue) + Admitted(l, |s.queue|, script)
  {
    if script == [] {
      assert Flushed(s.flushes) + (s.batch + s.queue) + [] == Flushed(s.flushes) + (s.batch + s.queue);
    } else {
      var n := |script| - 1;
      AcceptedAreAdmitted(l, s, script[..n]);
      TurnKeepsRecords(l, Turns(l, s, script[..n]), script[n]);
      var before, more := Flushed(s.flushes) + (s.batch + s.queue), Admitted(l, |s.queue|, script[..n]);
      assert forall r: WriteRecord :: before + more + [r] == before + (more + [r]);
      assert before + more + [] == before + (more + []);
    }
  }

  /** One turn moves records along and appends what it admits. */
  lemma {:induction false} TurnKeepsRecords(l: Limits, s: LoopState, turn: Turn)
    requires !s.closed
    ensures var s' := Turned(l, s, turn);
            var more := if turn.Arrival? && |s.queue| < l.bufferSize then [turn.record] else [];
            && !s'.closed && s'.accepted == s.accepted + more
            && |s'.queue| == Occupancy(l, |s.queue|, [turn])
            && Flushed(s'.flushes) + (s'.batch + s'.queue) == Flushed(s.flushes) + (s.batch + s.queue) + more
  {
    var s', all := Turned(l, s, turn), Flushed(s.flushes) + (s.batch + s.queue);
    assert [turn][..0] == [] && all + [] == all;
    match turn {
      case Arrival(r) =>
        assert |s.queue| < l.bufferSize ==> Flushed(s.flushes) + (s.batch + (s.queue + [r])) == all + [r];
      case ReceiveReady(fault) =>
        if s.queue != [] {
          var batch, queue := s.batch + [s.queue[0]], s.queue[1..];
          assert batch + queue == s.batch + s.queue;
          MoveToFlushed(s.flushes, FlushOf(s.tables, batch, fault), queue);
        }
      case TickReady(fault) =>
        MoveToFlushed(s.flushes, FlushOf(s.tables, s.batch, fault), s.queue);
    }
  }

  /**
   The flush is the transaction that this turn ran on its records: lost exactly to this turn's fault or to a
   missing session; a full batch if the receive arm ran it, any nonempty one if the timer did.
   */
  predicate Fires(l: Limits, t: Tables, f: Flush, turn: Turn) {
    && !turn.Arrival?
    && f == FlushOf(t, f.records, turn.fault)
    && 0 < |f.records| <= l.BatchBound()
    && (turn.ReceiveReady? ==> |f.records| == l.BatchBound())
  }

  ghost predicate Caused(l: Limits, t: Tables, f: Flush, script: seq<Turn>) {
    exists turn :: turn in script && Fires(l, t, f, turn)
  }

  /** No arrivals, and the i-th turn meets the i-th fault. */
  ghost predicate Meets(script: seq<Turn>, faults: nat -> Fault) {
    forall i :: 0 <= i < |script| ==> !script[i].Arrival? && script[i].fault == faults(i)
  }

  /** Between two states only flushes happened: each with its cause, and the tables are the committed ones' work. */
  ghost predicate OnlyFlushed(l: Limits, s: LoopState, s': LoopState, script: seq<Turn>) {
    && s.flushes <= s'.flushes
    && (forall f :: f in s'.flushes[|s.flushes|..] ==> Caused(l, s.tables, f, script))
    && s'.tables == Replay(s.tables, s'.flushes[|s.flushes|..])
  }

  lemma {:induction false} FlushesHaveCauses(l: Limits, s: LoopState, script: seq<Turn>)
    requires |s.batch| < l.BatchBound()
    ensures |Turns(l, s, script).batch| < l.BatchBound()
    ensures OnlyFlushed(l, s, Turns(l, s, script), script)
  {
    if script == [] {
      ReplayNothing(s.tables);
    } else {
      var n := |script| - 1;
      FlushesHaveCauses(l, s, script[..n]);
      NextTurn(l, s, Turns(l, s, script[..n]), script[..n], script[n]);
      assert script == script[..n] + [script[n]];
    }
  }

  lemma {:induction false} NextTurn(l: Limits, s: LoopState, mid: LoopState, script: seq<Turn>, turn: Turn)
    requires OnlyFlushed(l, s, mid, script) && |mid.batch| < l.BatchBound()
    ensures |Turned(l, mid, turn).batch| < l.BatchBound()
    ensures OnlyFlushed(l, s, Turned(l, mid, turn), script + [turn])
  {
    var s' := Turned(l, mid, turn);
    FlushOfTurn(l, mid, turn);
    forall f | Caused(l, s.tables, f, script) ensures Caused(l, s.tables, f, script + [turn]) {
      var t :| t in script && Fires(l, s.tables, f, t);
      assert t in script + [turn];
    }
    if s'.flushes != mid.flushes {
      var f := s'.flushes[|mid.flushes|];
      assert Caused(l, s.tables, f, script + [turn]) by {
        assert Fires(l, s.tables, f, turn) && turn in script + [turn];
      }
      ReplayOne(s.tables, mid.flushes[|s.flushes|..], f);
      assert s'.flushes[|s.flushes|..] == mid.flushes[|s.flushes|..] + [f];
    }
  }

  /** A turn flushes at most once, and the tables change only by that flush. */
  lemma {:induction false} FlushOfTurn(l: Limits, s: LoopState, turn: Turn)
    requires |s.batch| < l.BatchBound()
    ensures var s' := Turned(l, s, turn);
            && |s'.batch| < l.BatchBound()
            && if |s'.flushes| == |s.flushes| then s'.flushes == s.flushes && s'.tables == s.tables
               else && |s'.flushes| == |s.flushes| + 1
                    && var f := s'.flushes[|s.flushes|];
                       && s'.flushes == s.flushes + [f] && Fires(l, s.tables, f, turn)
                       && s'.tables == AfterWrite(s.tables, f)
  {
  }

  class Buffer {
    const limits: Limits
    const store: Store
    var queue: seq<WriteRecord>
    var batch: seq<WriteRecord>
    var closed: bool
    /** Everything `TrySend` took, in order, and every finished flush, in order. */
    ghost var accepted: seq<WriteRecord>
    ghost var flushes: seq<Flush>

    /** What holds at any moment, also while a full batch waits for its transaction. */
    ghost predicate Sound()
      reads this
    {
      && |queue| <= limits.bufferSize
      && |batch| <= limits.BatchBound()
      && accepted == Flushed(flushes) + (batch + queue)
      && (forall f :: f in flushes ==> 0 < |f.records| <= limits.BatchBound())
    }

    /** What holds between two turns of the loop. */
    ghost predicate Valid()
      reads this
    {
      Sound() && |batch| < limits.BatchBound()
    }

    ghost function Now(): LoopState
      reads this, store
    {
      LoopState(queue, batch, closed, accepted, flushes, store.tables)
    }

    constructor (limits: Limits, store: Store)
      requires limits.bufferSize >= 1
      ensures Valid() && this.limits == limits && this.store == store
      ensures queue == [] && batch == [] && !closed && accepted == [] && flushes == []
    {
      this.limits, this.store := limits, store;
      queue, batch, closed := [], [], false;
      accepted, flushes := [], [];
    }

    /** The runtime shuts the receiving end down: nothing is taken any more. */
    method Close()
      requires Valid()
      modifies this`closed
      ensures Valid() && closed
    {
      closed := true;
    }

    /** Never blocks; a record is refused exactly when the channel is closed or full. */
    method TrySend(r: WriteRecord) returns (sent: bool)
      requires Sound()
      modifies this`queue, this`accepted
      ensures Sound() && (old(Valid()) ==> Valid())
      ensures sent <==> !closed && |old(queue)| < limits.bufferSize
      ensures queue == old(queue) + if sent then [r] else []
      ensures accepted == old(accepted) + if sent then [r] else []
    {
      sent := !closed && |queue| < limits.bufferSize;
      if sent {
        queue, accepted := queue + [r], accepted + [r];
        assert batch + queue == (batch + old(queue)) + [r];
      }
    }

    /** The batch is cleared whether or not the transaction went through. */
    method FlushBatch(fault: Fault)
      requires Sound() && batch != []
      modifies this`batch, this`flushes, store
      ensures Valid() && batch == []
      ensures flushes == old(flushes) + [FlushOf(old(store.tables), old(batch), fault)]
      ensures store.tables == AfterWrite(old(store.tables), FlushOf(old(store.tables), old(batch), fault))
    {
      var ok := store.WriteBatch(batch, fault);
      ghost var f := Flush(batch, Strikes(fault, |batch| + 2), ok);
      MoveToFlushed(flushes, f, queue);
      flushes := flushes + [f];
      batch := [];
    }

    /** The oldest queued record moves to the end of the batch. */
    method Pop()
      requires Valid() && queue != []
      modifies this`queue, this`batch
      ensures Sound() && batch == old(batch) + [old(queue)[0]] && queue == old(queue)[1..]
    {
      assert batch + queue == (batch + [queue[0]]) + queue[1..];
      batch, queue := batch + [queue[0]], queue[1..];
    }

    /** Pop one record into the batch; flush when the batch has reached its size. */
    method ReceiveArm(fault: Fault)
      requires Valid() && queue != []
      modifies this`queue, this`batch, this`flushes, store
      ensures Valid() && Now() == Received(limits, old(Now()), fault)
    {
      Pop();
      if |batch| >= limits.batchSize {
        FlushBatch(fault);
      }
    }

    method TickArm(fault: Fault)
      requires Valid()
      modifies this`batch, this`flushes, store
      ensures Valid() && Now() == Ticked(old(Now()), fault)
    {
      if batch != [] {
        FlushBatch(fault);
      }
    }

    /** The loop itself, against any interleaving of arrivals and any choice among the ready arms. */
    method FlushLoop(script: seq<Turn>)
      requires Valid()
      modifies this`queue, this`batch, this`flushes, this`accepted, store
      ensures Valid() && Now() == Turns(limits, old(Now()), script)
      ensures !closed ==> accepted == old(accepted) + Admitted(limits, |old(queue)|, script)
      ensures OnlyFlushed(limits, old(Now()), Now(), script)
    {
      for i := 0 to |script|
        invariant Valid() && Now() == Turns(limits, old(Now()), script[..i])
      {
        match script[i] {
          case Arrival(r) =>
            var sent := TrySend(r);
          case ReceiveReady(fault) =>
            if queue != [] {
              ReceiveArm(fault);
            }
          case TickReady(fault) =>
            TickArm(fault);
        }
        TurnsOne(limits, old(Now()), script[..i], script[i]);
        assert script[..i + 1] == script[..i] + [script[i]];
      }
      assert script[..|script|] == script;
      FlushesHaveCauses(limits, old(Now()), script);
      if !closed {
        AcceptedAreAdmitted(limits, old(Now()), script);
      }
    }

    /** One turn with something to do: the timer's if it is preferred and of use, or the only one left. */
    method ProductiveTurn(preferTick: bool, fault: Fault) returns (ghost turn: Turn)
      requires Valid() && (queue != [] || batch != [])
      modifies this`queue, this`batch, this`flushes, store
      ensures Valid() && Now() == Turned(limits, old(Now()), turn)
      ensures turn == if old(queue) == [] || (old(batch) != [] && preferTick) then TickReady(fault)
                      else ReceiveReady(fault)
      ensures |queue| < |old(queue)| || (queue == old(queue) && |batch| < |old(batch)|)
    {
      if queue == [] || (batch != [] && preferTick) {
        TickArm(fault);
        turn := TickReady(fault);
      } else {
        ReceiveArm(fault);
        turn := ReceiveReady(fault);
      }
    }

    /**
     With no new sends every turn makes progress, and the loop empties the channel and the batch. The turns it
     took are returned: the i-th meets the i-th fault.
     */
    method Drain(preferTick: nat -> bool, faults: nat -> Fault) returns (ghost script: seq<Turn>)
      requires Valid()
      modifies this`queue, this`batch, this`flushes, store
      ensures Meets(script, faults)
      ensures Valid() && Now() == Turns(limits, old(Now()), script)
      ensures queue == [] && batch == [] && accepted == old(accepted) == Flushed(flushes)
      ensures OnlyFlushed(limits, old(Now()), Now(), script)
    {
      ghost var start := Now();
      script := [];
      var turn := 0;
      while queue != [] || batch != []
        invariant Valid() && Now() == Turns(limits, start, script) && turn == |script|
        invariant Meets(script, faults)
        invariant accepted == old(accepted)
        decreases |queue|, |batch|
      {
        ghost var next := ProductiveTurn(preferTick(turn), faults(turn));
        TurnsOne(limits, start, script, next);
        script := script + [next];
        turn := turn + 1;
      }
      assert Flushed(flushes) + ([] + []) == Flushed(flushes);
      FlushesHaveCauses(limits, start, script);
    }
  }

  lemma ReplayNothing(t: Tables)
    ensures Replay(t, []) == t
  {
  }

  lemma {:induction false} ReplayConcat(t: Tables, a: seq<Flush>, b: seq<Flush>)
    ensures Replay(t, a + b) == Replay(Replay(t, a), b)
  {
    if b == [] {
      ReplayNothing(Replay(t, a));
      assert a + b == a;
    } else {
      var n := |b| - 1;
      ReplayConcat(t, a, b[..n]);
      assert a + b == (a + b[..n]) + [b[n]] && b == b[..n] + [b[n]];
      ReplayOne(t, a + b[..n], b[n]);
      ReplayOne(Replay(t, a), b[..n], b[n]);
    }
  }
}
