/**
 The receivers (src/receiver/trace.rs, metrics.rs, logs.rs) as the loops they are, run without interference:
 one export sees one router state throughout. What interleaving with other tasks does is in `Pipeline`.
 */
module Receivers {
  import opened Seqs
  import opened Types
  import opened Otlp
  import opened PeerRouter
  import opened SessionTracker
  import WriteBuffer

  /** The part of a list of send attempts that a channel with `room` free slots takes. */
  function Taken(attempts: seq<WriteRecord>, room: nat): seq<WriteRecord> {
    if |attempts| <= room then attempts else attempts[..room]
  }

  /** The registry updates an export makes, in span order. */
  function SpanUpdates(peer: PeerId, spans: seq<SpanData>): seq<Update> {
    if spans == [] then []
    else
      var last := SessionUpdate(spans[|spans| - 1], peer);
      SpanUpdates(peer, spans[..|spans| - 1]) + if last.Some? then [last.value] else []
  }

  function TraceUpdates(rs: seq<ResourceSpans>, idKey: string): seq<Update> {
    if rs == [] then []
    else
      var peer := ExtractPeerId(rs[|rs| - 1].resource, idKey);
      TraceUpdates(rs[..|rs| - 1], idKey)
      + if peer.Some? then SpanUpdates(peer.value, Flatten(rs[|rs| - 1].scopes)) else []
  }

  /** Each order is an iteration of the set of sessions that claim the unit's peer. */
  ghost predicate RoutedBy(units: seq<Unit>, orders: seq<seq<SessionId>>, routes: Routes) {
    && |orders| == |units|
    && forall i :: 0 <= i < |units| ==> Enumerates(orders[i], Claimers(routes, units[i].peer))
  }

  lemma AppendUnit(units: seq<Unit>, orders: seq<seq<SessionId>>, u: Unit, order: seq<SessionId>, routes: Routes)
    requires RoutedBy(units, orders, routes) && Enumerates(order, Claimers(routes, u.peer))
    ensures RoutedBy(units + [u], orders + [order], routes)
    ensures FanoutAll(units + [u], orders + [order]) == FanoutAll(units, orders) + Fanout(u, order)
  {
    assert (orders + [order])[..|orders|] == orders;
    FanoutAllPrefix(units, [u], orders);
  }

  lemma {:induction false} FanoutAllPrefix(units: seq<Unit>, more: seq<Unit>, orders: seq<seq<SessionId>>)
    requires |orders| <= |units|
    ensures FanoutAll(units + more, orders) == FanoutAll(units, orders)
  {
    if orders != [] {
      FanoutAllPrefix(units, more, orders[..|orders| - 1]);
    }
  }

  lemma OneItem(u: Unit, order: seq<SessionId>)
    requires |u.items| == 1
    ensures Fanout(u, order) == Copies(u, u.items[0], order)
  {
    assert u.items[..0] == [];
    assert FanoutItems(u, [], order) + Copies(u, u.items[0], order) == Copies(u, u.items[0], order);
  }

  lemma MergeSpan(peer: PeerId, spans: seq<SpanData>, span: SpanData, updates: seq<Update>, registry: Registry)
    ensures SpanUnits(peer, spans + [span]) == SpanUnits(peer, spans) + [Unit(peer, Span, [span.payload])]
    ensures MergeAll(registry, updates + SpanUpdates(peer, spans + [span]))
         == Merged(MergeAll(registry, updates + SpanUpdates(peer, spans)), SessionUpdate(span, peer))
  {
    assert (spans + [span])[..|spans|] == spans;
    var before, u := updates + SpanUpdates(peer, spans), SessionUpdate(span, peer);
    if u.Some? {
      assert updates + SpanUpdates(peer, spans + [span]) == before + [u.value];
      assert (before + [u.value])[..|before|] == before;
    } else {
      assert updates + SpanUpdates(peer, spans + [span]) == before;
    }
  }

  /** What one more resource adds to the units and updates of a trace export. */
  lemma {:induction false} OneMoreResource(rs: seq<ResourceSpans>, i: nat, idKey: string)
    requires i < |rs|
    ensures var peer, spans := ExtractPeerId(rs[i].resource, idKey), Flatten(rs[i].scopes);
            && TraceUnits(rs[..i + 1], idKey)
               == (if peer.Some? then TraceUnits(rs[..i], idKey) + SpanUnits(peer.value, spans)
                   else TraceUnits(rs[..i], idKey))
            && TraceUpdates(rs[..i + 1], idKey)
               == (if peer.Some? then TraceUpdates(rs[..i], idKey) + SpanUpdates(peer.value, spans)
                   else TraceUpdates(rs[..i], idKey))
  {
    assert rs[..i + 1][..i] == rs[..i];
  }

  lemma {:induction false} OneMoreOfRecords(kind: RecordType, rs: seq<ResourceRecords>, i: nat, idKey: string)
    requires i < |rs|
    ensures var peer, before := ExtractPeerId(rs[i].resource, idKey), RecordUnits(kind, rs[..i], idKey);
            RecordUnits(kind, rs[..i + 1], idKey)
            == if peer.Some? then before + [Unit(peer.value, kind, Flatten(rs[i].scopes))] else before
  {
    assert rs[..i + 1][..i] == rs[..i];
  }

  function Merged(registry: Registry, u: Option<Update>): Registry {
    if u.Some? then Merge(registry, u.value) else registry
  }

  lemma TakeOne(before: seq<WriteRecord>, r: WriteRecord, room: nat, sent: bool)
    requires sent <==> |Taken(before, room)| < room
    ensures Taken(before + [r], room) == Taken(before, room) + if sent then [r] else []
  {
  }

  class Receiver {
    const router: Router
    const tracker: Tracker
    const buffer: WriteBuffer.Buffer
    const idKey: string

    constructor (router: Router, tracker: Tracker, buffer: WriteBuffer.Buffer, idKey: string)
      ensures this.router == router && this.tracker == tracker && this.buffer == buffer && this.idKey == idKey
    {
      this.router, this.tracker, this.buffer, this.idKey := router, tracker, buffer, idKey;
    }

    ghost function Room(): nat
      requires buffer.Valid()
      reads this, buffer
    {
      if buffer.closed then 0 else buffer.limits.bufferSize - |buffer.queue|
    }

    /** Since the queue held `q0` and had `room` free slots, exactly `attempts` were offered to it. */
    ghost predicate Offered(q0: seq<WriteRecord>, room: nat, attempts: seq<WriteRecord>)
      reads this, buffer
    {
      && buffer.Valid()
      && room == (if buffer.closed || buffer.limits.bufferSize < |q0| then 0 else buffer.limits.bufferSize - |q0|)
      && buffer.queue == q0 + Taken(attempts, room)
    }

    /**
     The receiver has routed `units` and then the spans `spans` of one resource with decisions `orders`, and
     has made the registry updates `updates` and then those of `spans`.
     */
    ghost predicate Progress(peer: PeerId, spans: seq<SpanData>, units: seq<Unit>, updates: seq<Update>,
                             orders: seq<seq<SessionId>>, q0: seq<WriteRecord>, room: nat, registry: Registry)
      reads this, router, tracker, buffer
    {
      var all := units + SpanUnits(peer, spans);
      && RoutedBy(all, orders, Relation(router.index))
      && Offered(q0, room, FanoutAll(all, orders))
      && tracker.sessions == MergeAll(registry, updates + SpanUpdates(peer, spans))
    }

    /** The innermost loop: one item to every session of the decision; a refusal is not retried. */
    method SendCopies(u: Unit, item: Payload, ids: seq<SessionId>,
                      ghost q0: seq<WriteRecord>, ghost room: nat, ghost attempts: seq<WriteRecord>)
      requires Offered(q0, room, attempts)
      modifies buffer`queue, buffer`accepted
      ensures Offered(q0, room, attempts + Copies(u, item, ids))
    {
      assert attempts + Copies(u, item, ids[..0]) == attempts;
      for i := 0 to |ids|
        invariant Offered(q0, room, attempts + Copies(u, item, ids[..i]))
      {
        ghost var before := attempts + Copies(u, item, ids[..i]);
        var sent := buffer.TrySend(WriteRecord(ids[i], u.peer, u.kind, item));
        assert attempts + Copies(u, item, ids[..i + 1]) == before + [WriteRecord(ids[i], u.peer, u.kind, item)];
        TakeOne(before, WriteRecord(ids[i], u.peer, u.kind, item), room, sent);
      }
      assert ids[..|ids|] == ids;
    }

    /** One span of a trace export: registry update, then the routing decision, then the copies. */
    method ExportSpan(peer: PeerId, span: SpanData,
                      ghost q0: seq<WriteRecord>, ghost room: nat, ghost attempts: seq<WriteRecord>)
      returns (ghost order: seq<SessionId>)
      requires Offered(q0, room, attempts)
      modifies tracker, buffer`queue, buffer`accepted
      ensures Enumerates(order, Claimers(Relation(router.index), peer))
      ensures Offered(q0, room, attempts + Fanout(Unit(peer, Span, [span.payload]), order))
      ensures tracker.sessions == Merged(old(tracker.sessions), SessionUpdate(span, peer))
    {
      var update := SessionUpdate(span, peer);
      if update.Some? {
        tracker.UpdateSession(update.value);
      }
      var decision := router.Route(peer);
      order := Chosen(decision);
      OneItem(Unit(peer, Span, [span.payload]), order);
      match decision {
        case Discard =>
          assert attempts + Copies(Unit(peer, Span, [span.payload]), span.payload, []) == attempts;
        case Retain(ids) =>
          SendCopies(Unit(peer, Span, [span.payload]), span.payload, ids, q0, room, attempts);
      }
    }

    /** A trace export: the registry update and the routing decision are made anew for every span. */
    method ExportTraces(rs: seq<ResourceSpans>) returns (ghost orders: seq<seq<SessionId>>)
      requires buffer.Valid()
      modifies tracker, buffer`queue, buffer`accepted
      ensures buffer.Valid()
      ensures RoutedBy(TraceUnits(rs, idKey), orders, Relation(router.index))
      ensures buffer.queue == old(buffer.queue) + Taken(FanoutAll(TraceUnits(rs, idKey), orders), old(Room()))
      ensures tracker.sessions == MergeAll(old(tracker.sessions), TraceUpdates(rs, idKey))
    {
      orders := [];
      ghost var units, updates := [], [];
      ghost var q0, room, registry := buffer.queue, Room(), tracker.sessions;
      for i := 0 to |rs|
        invariant units == TraceUnits(rs[..i], idKey) && updates == TraceUpdates(rs[..i], idKey)
        invariant RoutedBy(units, orders, Relation(router.index))
        invariant Offered(q0, room, FanoutAll(units, orders))
        invariant tracker.sessions == MergeAll(registry, updates)
      {
        OneMoreResource(rs, i, idKey);
        var found := ExtractPeerId(rs[i].resource, idKey);
        if found.Some? {
          orders := ExportResourceSpans(found.value, rs[i].scopes, units, orders, updates, q0, room, registry);
          units := units + SpanUnits(found.value, Flatten(rs[i].scopes));
          updates := updates + SpanUpdates(found.value, Flatten(rs[i].scopes));
        }
      }
      assert rs[..|rs|] == rs;
    }

    /** The loop over the scopes of a resource. */
    method ExportResourceSpans(peer: PeerId, scopes: seq<seq<SpanData>>,
                               ghost units: seq<Unit>, ghost orders: seq<seq<SessionId>>, ghost updates: seq<Update>,
                               ghost q0: seq<WriteRecord>, ghost room: nat, ghost registry: Registry)
      returns (ghost more: seq<seq<SessionId>>)
      requires RoutedBy(units, orders, Relation(router.index)) && Offered(q0, room, FanoutAll(units, orders))
      requires tracker.sessions == MergeAll(registry, updates)
      modifies tracker, buffer`queue, buffer`accepted
      ensures Progress(peer, Flatten(scopes), units, updates, more, q0, room, registry)
    {
      more := orders;
      assert units + SpanUnits(peer, []) == units && updates + SpanUpdates(peer, []) == updates;
      for j := 0 to |scopes|
        invariant Progress(peer, Flatten(scopes[..j]), units, updates, more, q0, room, registry)
      {
        more := ExportScope(peer, scopes[j], Flatten(scopes[..j]), units, updates, more, q0, room, registry);
        assert scopes[..j + 1] == scopes[..j] + [scopes[j]];
        FlattenOne(scopes[..j], scopes[j]);
      }
      assert scopes[..|scopes|] == scopes;
    }

    /** The loop over the spans of a scope. */
    method ExportScope(peer: PeerId, scope: seq<SpanData>, ghost spans: seq<SpanData>,
                       ghost units: seq<Unit>, ghost updates: seq<Update>, ghost orders: seq<seq<SessionId>>,
                       ghost q0: seq<WriteRecord>, ghost room: nat, ghost registry: Registry)
      returns (ghost more: seq<seq<SessionId>>)
      requires Progress(peer, spans, units, updates, orders, q0, room, registry)
      modifies tracker, buffer`queue, buffer`accepted
      ensures Progress(peer, spans + scope, units, updates, more, q0, room, registry)
    {
      more := orders;
      ghost var done := spans;
      for k := 0 to |scope|
        invariant done == spans + scope[..k]
        invariant Progress(peer, done, units, updates, more, q0, room, registry)
      {
        more := ExportNextSpan(peer, scope[k], done, units, updates, more, q0, room, registry);
        assert scope[..k + 1] == scope[..k] + [scope[k]];
        done := done + [scope[k]];
      }
      assert scope[..|scope|] == scope;
    }

    /** One span, appended to what the export has done so far. */
    method ExportNextSpan(peer: PeerId, span: SpanData, ghost spans: seq<SpanData>,
                          ghost units: seq<Unit>, ghost updates: seq<Update>, ghost orders: seq<seq<SessionId>>,
                          ghost q0: seq<WriteRecord>, ghost room: nat, ghost registry: Registry)
      returns (ghost more: seq<seq<SessionId>>)
      requires Progress(peer, spans, units, updates, orders, q0, room, registry)
      modifies tracker, buffer`queue, buffer`accepted
      ensures Progress(peer, spans + [span], units, updates, more, q0, room, registry)
    {
      ghost var done := units + SpanUnits(peer, spans);
      ghost var order := ExportSpan(peer, span, q0, room, FanoutAll(done, orders));
      ghost var u := Unit(peer, Span, [span.payload]);
      AppendUnit(done, orders, u, order, Relation(router.index));
      MergeSpan(peer, spans, span, updates, registry);
      assert units + SpanUnits(peer, spans + [span]) == done + [u];
      more := orders + [order];
    }

    /** A metric or log export: one routing decision serves all records of a resource. */
    method ExportRecords(kind: RecordType, rs: seq<ResourceRecords>) returns (ghost orders: seq<seq<SessionId>>)
      requires buffer.Valid()
      modifies buffer`queue, buffer`accepted
      ensures buffer.Valid()
      ensures RoutedBy(RecordUnits(kind, rs, idKey), orders, Relation(router.index))
      ensures buffer.queue == old(buffer.queue) + Taken(FanoutAll(RecordUnits(kind, rs, idKey), orders), old(Room()))
    {
      orders := [];
      ghost var units := [];
      ghost var q0, room := buffer.queue, Room();
      for i := 0 to |rs|
        invariant units == RecordUnits(kind, rs[..i], idKey)
        invariant RoutedBy(units, orders, Relation(router.index))
        invariant Offered(q0, room, FanoutAll(units, orders))
      {
        OneMoreOfRecords(kind, rs, i, idKey);
        var found := ExtractPeerId(rs[i].resource, idKey);
        if found.Some? {
          ghost var u := Unit(found.value, kind, Flatten(rs[i].scopes));
          ghost var order := ExportResource(found.value, kind, rs[i].scopes, q0, room, FanoutAll(units, orders));
          AppendUnit(units, orders, u, order, Relation(router.index));
          units, orders := units + [u], orders + [order];
        }
      }
      assert rs[..|rs|] == rs;
    }

    /** One resource of a metric or log export: one decision, then the copies of all its records. */
    method ExportResource(peer: PeerId, kind: RecordType, scopes: seq<seq<Payload>>,
                          ghost q0: seq<WriteRecord>, ghost room: nat, ghost attempts: seq<WriteRecord>)
      returns (ghost order: seq<SessionId>)
      requires Offered(q0, room, attempts)
      modifies buffer`queue, buffer`accepted
      ensures Enumerates(order, Claimers(Relation(router.index), peer))
      ensures Offered(q0, room, attempts + Fanout(Unit(peer, kind, Flatten(scopes)), order))
    {
      var decision := router.Route(peer);
      order := Chosen(decision);
      match decision {
        case Discard =>
          ghost var u := Unit(peer, kind, Flatten(scopes));
          FanoutMembers(u, u.items, []);
          assert attempts + Fanout(u, []) == attempts;
        case Retain(ids) =>
          SendResource(peer, kind, scopes, ids, q0, room, attempts);
      }
    }

    /** The loops over the scopes of a resource and the records of a scope. */
    method SendResource(peer: PeerId, kind: RecordType, scopes: seq<seq<Payload>>, ids: seq<SessionId>,
                        ghost q0: seq<WriteRecord>, ghost room: nat, ghost attempts: seq<WriteRecord>)
      requires Offered(q0, room, attempts)
      modifies buffer`queue, buffer`accepted
      ensures Offered(q0, room, attempts + Fanout(Unit(peer, kind, Flatten(scopes)), ids))
    {
      ghost var items: seq<Payload> := [];
      var u := Unit(peer, kind, []);
      assert attempts + FanoutItems(u, [], ids) == attempts;
      for j := 0 to |scopes|
        invariant items == Flatten(scopes[..j])
        invariant Offered(q0, room, attempts + FanoutItems(u, items, ids))
      {
        var scope := scopes[j];
        for k := 0 to |scope|
          invariant items == Flatten(scopes[..j]) + scope[..k]
          invariant Offered(q0, room, attempts + FanoutItems(u, items, ids))
        {
          ghost var before := attempts + FanoutItems(u, items, ids);
          SendCopies(u, scope[k], ids, q0, room, before);
          assert (items + [scope[k]])[..|items|] == items;
          assert before + Copies(u, scope[k], ids) == attempts + FanoutItems(u, items + [scope[k]], ids);
          items := items + [scope[k]];
          assert scope[..k + 1] == scope[..k] + [scope[k]];
        }
        assert scopes[..j + 1] == scopes[..j] + [scope] && scope[..|scope|] == scope;
        FlattenOne(scopes[..j], scope);
      }
      assert scopes[..|scopes|] == scopes;
      FanoutReadsLabels(u, Unit(peer, kind, items), items, ids);
    }
  }

  lemma {:induction false} FanoutReadsLabels(u: Unit, v: Unit, items: seq<Payload>, ids: seq<SessionId>)
    requires u.peer == v.peer && u.kind == v.kind
    ensures FanoutItems(u, items, ids) == FanoutItems(v, items, ids)
  {
    if items != [] {
      FanoutReadsLabels(u, v, items[..|items| - 1], ids);
    }
  }
}
