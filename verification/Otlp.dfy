/**
 OTLP export requests as the receivers read them (src/receiver/mod.rs, trace.rs, metrics.rs, logs.rs). A request
 breaks up into routing units: one span for traces, all records of one resource for metrics and logs. The
 router is consulted once per unit, and the unit's items are then copied to every session it named.
 */
module Otlp {
  import opened Seqs
  import opened Types
  import SessionTracker

  datatype AnyValue = StringValue(s: string) | IntValue(i: int) | OtherValue

  /** An attribute; an absent value and a value without content behave alike everywhere. */
  datatype KeyValue = KeyValue(key: string, value: Option<AnyValue>)

  datatype SpanData = SpanData(attributes: seq<KeyValue>, payload: Payload)

  datatype ResourceSpans = ResourceSpans(resource: Option<seq<KeyValue>>, scopes: seq<seq<SpanData>>)

  datatype ResourceRecords = ResourceRecords(resource: Option<seq<KeyValue>>, scopes: seq<seq<Payload>>)

  datatype Request =
    | Traces(spans: seq<ResourceSpans>)
    | Metrics(metrics: seq<ResourceRecords>)
    | Logs(logs: seq<ResourceRecords>)

  // ---- Reading attributes ----

  const SERVICE_INSTANCE_ID := "service.instance.id"

  /** The value of the first attribute with the key, and only the first, if it is a nonempty string. */
  function StringVal(attrs: seq<KeyValue>, key: string): Option<string> {
    if attrs == [] then None
    else if attrs[0].key != key then StringVal(attrs[1..], key)
    else match attrs[0].value
      case Some(StringValue(s)) => if s != "" then Some(s) else None
      case _ => None
  }

  /** `idKey` is `hopr.peer_id` unless the environment overrides it. */
  function ExtractPeerId(resource: Option<seq<KeyValue>>, idKey: string): Option<PeerId> {
    if resource.None? then None
    else if StringVal(resource.value, idKey).Some? then StringVal(resource.value, idKey)
    else StringVal(resource.value, SERVICE_INSTANCE_ID)
  }

  /** The first attribute with the key carries exactly this string. */
  ghost predicate FirstCarries(attrs: seq<KeyValue>, key: string, p: string) {
    exists i :: 0 <= i < |attrs| && attrs[i] == KeyValue(key, Some(StringValue(p)))
                && forall j :: 0 <= j < i ==> attrs[j].key != key
  }

  lemma {:induction false} StringValMeaning(attrs: seq<KeyValue>, key: string, p: string)
    ensures StringVal(attrs, key) == Some(p) <==> p != "" && FirstCarries(attrs, key, p)
  {
    if attrs != [] {
      if attrs[0].key == key {
        if FirstCarries(attrs, key, p) {
          var i :| 0 <= i < |attrs| && attrs[i] == KeyValue(key, Some(StringValue(p)))
                   && forall j :: 0 <= j < i ==> attrs[j].key != key;
          assert i == 0;
        } else {
          assert attrs[0] != KeyValue(key, Some(StringValue(p)));
        }
      } else {
        StringValMeaning(attrs[1..], key, p);
        if FirstCarries(attrs[1..], key, p) {
          var i :| 0 <= i < |attrs[1..]| && attrs[1..][i] == KeyValue(key, Some(StringValue(p)))
                   && forall j :: 0 <= j < i ==> attrs[1..][j].key != key;
          assert attrs[i + 1] == KeyValue(key, Some(StringValue(p)));
          assert forall j :: 0 < j < i + 1 ==> attrs[j].key == attrs[1..][j - 1].key;
        }
        if FirstCarries(attrs, key, p) {
          var i :| 0 <= i < |attrs| && attrs[i] == KeyValue(key, Some(StringValue(p)))
                   && forall j :: 0 <= j < i ==> attrs[j].key != key;
          assert attrs[1..][i - 1] == KeyValue(key, Some(StringValue(p)));
        }
      }
    }
  }

  /**
   The resource is there and names the peer: the key decides when its first occurrence is a nonempty string,
   otherwise the first service instance id does.
   */
  ghost predicate NamesPeer(resource: Option<seq<KeyValue>>, idKey: string, p: PeerId) {
    && resource.Some? && p != ""
    && (|| FirstCarries(resource.value, idKey, p)
        || (FirstCarries(resource.value, "service.instance.id", p)
            && forall q :: q != "" ==> !FirstCarries(resource.value, idKey, q)))
  }

  lemma PeerIdMeaning(resource: Option<seq<KeyValue>>, idKey: string, p: PeerId)
    ensures ExtractPeerId(resource, idKey) == Some(p) <==> NamesPeer(resource, idKey, p)
  {
    if resource.Some? {
      var attrs := resource.value;
      forall q ensures StringVal(attrs, idKey) == Some(q) <==> q != "" && FirstCarries(attrs, idKey, q) {
        StringValMeaning(attrs, idKey, q);
      }
      StringValMeaning(attrs, "service.instance.id", p);
      var found := StringVal(attrs, idKey);
      if found.Some? {
        assert FirstCarries(attrs, idKey, found.value);
      }
    }
  }

  /** An unusable first value under the key: the fallback decides, whatever else the key occurs with later. */
  lemma UnusableKeyFallsBack(idKey: string, value: Option<AnyValue>, p: PeerId, rest: seq<KeyValue>)
    requires idKey != SERVICE_INSTANCE_ID && p != ""
    requires value.Some? && value.value.StringValue? ==> value.value.s == ""
    ensures var attrs := [KeyValue(idKey, value), KeyValue(SERVICE_INSTANCE_ID, Some(StringValue(p)))] + rest;
            ExtractPeerId(Some(attrs), idKey) == Some(p)
  {
    var second := KeyValue(SERVICE_INSTANCE_ID, Some(StringValue(p)));
    var attrs := [KeyValue(idKey, value), second] + rest;
    assert attrs[0] == KeyValue(idKey, value) && attrs[1..][0] == second;
    assert StringVal(attrs, SERVICE_INSTANCE_ID) == StringVal(attrs[1..], SERVICE_INSTANCE_ID) == Some(p);
  }

  /** The first attribute with the key and any value; a value of another type reads as the empty string. */
  function ExtractStringAttr(attrs: seq<KeyValue>, key: string): Option<string> {
    if attrs == [] then None
    else if attrs[0].key == key && attrs[0].value.Some? then
      Some(if attrs[0].value.value.StringValue? then attrs[0].value.value.s else "")
    else ExtractStringAttr(attrs[1..], key)
  }

  /** The first attribute with the key that holds an integer, whatever precedes it. */
  function ExtractIntAttr(attrs: seq<KeyValue>, key: string): Option<int> {
    if attrs == [] then None
    else if attrs[0].key == key && attrs[0].value.Some? && attrs[0].value.value.IntValue? then
      Some(attrs[0].value.value.i)
    else ExtractIntAttr(attrs[1..], key)
  }

  /** The update a span makes to the session registry; the hop count is cut to 32 bits. */
  function SessionUpdate(span: SpanData, peer: PeerId): Option<SessionTracker.Update> {
    var sid := ExtractStringAttr(span.attributes, "hopr.session.id");
    if sid.None? || sid.value == "" then None
    else
      var protocol := ExtractStringAttr(span.attributes, "hopr.session.protocol");
      var hops := ExtractIntAttr(span.attributes, "hopr.session.hops");
      var role := ExtractStringAttr(span.attributes, "hopr.session.role");
      Some(SessionTracker.Update(sid.value,
                  if protocol.Some? then protocol.value else "",
                  if hops.Some? then hops.value % 0x1_0000_0000 else 0,
                  SessionTracker.Participant(peer, if role == Some("entry") then SessionTracker.Entry
                                    else if role == Some("exit") then SessionTracker.Exit
                                    else SessionTracker.Relay)))
  }

  // ---- Routing units ----

  datatype Unit = Unit(peer: PeerId, kind: RecordType, items: seq<Payload>)

  function SpanUnits(peer: PeerId, spans: seq<SpanData>): seq<Unit> {
    seq(|spans|, i requires 0 <= i < |spans| => Unit(peer, Span, [spans[i].payload]))
  }

  function TraceUnits(rs: seq<ResourceSpans>, idKey: string): seq<Unit> {
    if rs == [] then []
    else TraceUnits(rs[..|rs| - 1], idKey) + ResourceSpanUnits(rs[|rs| - 1], idKey)
  }

  function ResourceSpanUnits(r: ResourceSpans, idKey: string): seq<Unit> {
    match ExtractPeerId(r.resource, idKey)
    case None => []
    case Some(peer) => SpanUnits(peer, Flatten(r.scopes))
  }

  function RecordUnits(kind: RecordType, rs: seq<ResourceRecords>, idKey: string): seq<Unit> {
    if rs == [] then []
    else RecordUnits(kind, rs[..|rs| - 1], idKey) + ResourceRecordUnits(kind, rs[|rs| - 1], idKey)
  }

  function ResourceRecordUnits(kind: RecordType, r: ResourceRecords, idKey: string): seq<Unit> {
    match ExtractPeerId(r.resource, idKey)
    case None => []
    case Some(peer) => [Unit(peer, kind, Flatten(r.scopes))]
  }

  function UnitsOf(req: Request, idKey: string): seq<Unit> {
    match req
    case Traces(rs) => TraceUnits(rs, idKey)
    case Metrics(rs) => RecordUnits(Metric, rs, idKey)
    case Logs(rs) => RecordUnits(Log, rs, idKey)
  }

  lemma {:induction false} TraceUnitsAreSingle(rs: seq<ResourceSpans>, idKey: string)
    ensures forall u :: u in TraceUnits(rs, idKey) ==> u.kind == Span && |u.items| == 1
  {
    if rs != [] {
      TraceUnitsAreSingle(rs[..|rs| - 1], idKey);
    }
  }

  lemma {:induction false} RecordUnitsKeepKind(kind: RecordType, rs: seq<ResourceRecords>, idKey: string)
    ensures forall u :: u in RecordUnits(kind, rs, idKey) ==> u.kind == kind
  {
    if rs != [] {
      RecordUnitsKeepKind(kind, rs[..|rs| - 1], idKey);
    }
  }

  /** Only trace exports produce span units, and each of those holds one span. */
  lemma SpanUnitsAreSingle(req: Request, idKey: string)
    ensures forall u :: u in UnitsOf(req, idKey) && u.kind == Span ==> |u.items| == 1
  {
    match req
    case Traces(rs) => TraceUnitsAreSingle(rs, idKey);
    case Metrics(rs) => RecordUnitsKeepKind(Metric, rs, idKey);
    case Logs(rs) => RecordUnitsKeepKind(Log, rs, idKey);
  }

  /** An item of a request with the peer and the kind it is captured under. */
  datatype Item = Item(peer: PeerId, kind: RecordType, payload: Payload)

  function Items(peer: PeerId, kind: RecordType, payloads: seq<Payload>): seq<Item> {
    seq(|payloads|, i requires 0 <= i < |payloads| => Item(peer, kind, payloads[i]))
  }

  function UnitItems(units: seq<Unit>): seq<Item> {
    if units == [] then []
    else
      var last := units[|units| - 1];
      UnitItems(units[..|units| - 1]) + Items(last.peer, last.kind, last.items)
  }

  function Payloads(spans: seq<SpanData>): seq<Payload> {
    seq(|spans|, i requires 0 <= i < |spans| => spans[i].payload)
  }

  /** The spans of a request under the resources that name a peer, resource by resource and scope by scope. */
  function NamedSpans(rs: seq<ResourceSpans>, idKey: string): seq<Item> {
    if rs == [] then []
    else
      var peer := ExtractPeerId(rs[0].resource, idKey);
      (if peer.Some? then Items(peer.value, Span, Payloads(Flatten(rs[0].scopes))) else []) + NamedSpans(rs[1..], idKey)
  }

  function NamedRecords(kind: RecordType, rs: seq<ResourceRecords>, idKey: string): seq<Item> {
    if rs == [] then []
    else
      var peer := ExtractPeerId(rs[0].resource, idKey);
      (if peer.Some? then Items(peer.value, kind, Flatten(rs[0].scopes)) else []) + NamedRecords(kind, rs[1..], idKey)
  }

  function NamedItems(req: Request, idKey: string): seq<Item> {
    match req
    case Traces(rs) => NamedSpans(rs, idKey)
    case Metrics(rs) => NamedRecords(Metric, rs, idKey)
    case Logs(rs) => NamedRecords(Log, rs, idKey)
  }

  lemma {:induction false} UnitItemsConcat(a: seq<Unit>, b: seq<Unit>)
    ensures UnitItems(a + b) == UnitItems(a) + UnitItems(b)
  {
    if b == [] {
      assert a + b == a;
    } else {
      var front, last := b[..|b| - 1], b[|b| - 1];
      assert (a + b)[..|a + b| - 1] == a + front;
      UnitItemsConcat(a, front);
      ConcatAssociates(UnitItems(a), UnitItems(front), Items(last.peer, last.kind, last.items));
    }
  }

  lemma {:induction false} SpanUnitItems(peer: PeerId, spans: seq<SpanData>)
    ensures UnitItems(SpanUnits(peer, spans)) == Items(peer, Span, Payloads(spans))
  {
    if spans != [] {
      var n := |spans| - 1;
      SpanUnitItems(peer, spans[..n]);
      assert SpanUnits(peer, spans)[..n] == SpanUnits(peer, spans[..n]);
    }
  }

  lemma {:induction false} NamedSpansOne(rs: seq<ResourceSpans>, r: ResourceSpans, idKey: string)
    ensures NamedSpans(rs + [r], idKey) == NamedSpans(rs, idKey) + NamedSpans([r], idKey)
  {
    if rs == [] {
      assert [] + [r] == [r];
    } else {
      var peer := ExtractPeerId(rs[0].resource, idKey);
      var head := if peer.Some? then Items(peer.value, Span, Payloads(Flatten(rs[0].scopes))) else [];
      assert (rs + [r])[1..] == rs[1..] + [r];
      NamedSpansOne(rs[1..], r, idKey);
      ConcatAssociates(head, NamedSpans(rs[1..], idKey), NamedSpans([r], idKey));
    }
  }

  lemma {:induction false} NamedRecordsOne(kind: RecordType, rs: seq<ResourceRecords>, r: ResourceRecords,
                                           idKey: string)
    ensures NamedRecords(kind, rs + [r], idKey) == NamedRecords(kind, rs, idKey) + NamedRecords(kind, [r], idKey)
  {
    if rs == [] {
      assert [] + [r] == [r];
    } else {
      var peer := ExtractPeerId(rs[0].resource, idKey);
      var head := if peer.Some? then Items(peer.value, kind, Flatten(rs[0].scopes)) else [];
      assert (rs + [r])[1..] == rs[1..] + [r];
      NamedRecordsOne(kind, rs[1..], r, idKey);
      ConcatAssociates(head, NamedRecords(kind, rs[1..], idKey), NamedRecords(kind, [r], idKey));
    }
  }

  lemma {:induction false} TraceUnitItems(rs: seq<ResourceSpans>, idKey: string)
    ensures UnitItems(TraceUnits(rs, idKey)) == NamedSpans(rs, idKey)
  {
    if rs != [] {
      var n := |rs| - 1;
      TraceUnitItems(rs[..n], idKey);
      NamedSpansOne(rs[..n], rs[n], idKey);
      assert rs == rs[..n] + [rs[n]];
      UnitItemsConcat(TraceUnits(rs[..n], idKey), ResourceSpanUnits(rs[n], idKey));
      OneResourceOfSpans(rs[n], idKey);
    }
  }

  lemma {:induction false} OneResourceOfSpans(r: ResourceSpans, idKey: string)
    ensures UnitItems(ResourceSpanUnits(r, idKey)) == NamedSpans([r], idKey)
  {
    var peer := ExtractPeerId(r.resource, idKey);
    assert NamedSpans([r][1..], idKey) == [];
    if peer.Some? {
      SpanUnitItems(peer.value, Flatten(r.scopes));
    }
  }

  lemma {:induction false} OneResourceOfRecords(kind: RecordType, r: ResourceRecords, idKey: string)
    ensures UnitItems(ResourceRecordUnits(kind, r, idKey)) == NamedRecords(kind, [r], idKey)
  {
    assert NamedRecords(kind, [r][1..], idKey) == [];
    if ExtractPeerId(r.resource, idKey).Some? {
      assert ResourceRecordUnits(kind, r, idKey)[..0] == [];
    }
  }

  lemma {:induction false} RecordUnitItems(kind: RecordType, rs: seq<ResourceRecords>, idKey: string)
    ensures UnitItems(RecordUnits(kind, rs, idKey)) == NamedRecords(kind, rs, idKey)
  {
    if rs != [] {
      var n := |rs| - 1;
      RecordUnitItems(kind, rs[..n], idKey);
      NamedRecordsOne(kind, rs[..n], rs[n], idKey);
      assert rs == rs[..n] + [rs[n]];
      UnitItemsConcat(RecordUnits(kind, rs[..n], idKey), ResourceRecordUnits(kind, rs[n], idKey));
      OneResourceOfRecords(kind, rs[n], idKey);
    }
  }

  /**
   The routing units carry, in request order and once each, exactly the items of the resources that name a peer;
   of a trace export every such span has a unit of its own.
   */
  lemma {:induction false} UnitsCoverRequest(req: Request, idKey: string)
    ensures UnitItems(UnitsOf(req, idKey)) == NamedItems(req, idKey)
    ensures req.Traces? ==> |UnitsOf(req, idKey)| == |NamedItems(req, idKey)|
  {
    match req
    case Traces(rs) =>
      TraceUnitItems(rs, idKey);
      TraceUnitsAreSingle(rs, idKey);
      SinglesCount(TraceUnits(rs, idKey));
    case Metrics(rs) => RecordUnitItems(Metric, rs, idKey);
    case Logs(rs) => RecordUnitItems(Log, rs, idKey);
  }

  lemma {:induction false} FlattenMembers<T>(xss: seq<seq<T>>, x: T)
    ensures x in Flatten(xss) <==> exists xs :: xs in xss && x in xs
  {
    if xss != [] {
      FlattenMembers(xss[1..], x);
      assert forall xs :: xs in xss <==> xs == xss[0] || xs in xss[1..];
    }
  }

  /** The item is a span below a resource that names its peer. */
  ghost predicate SpanBelow(rs: seq<ResourceSpans>, idKey: string, it: Item) {
    exists r, scope, span ::
      && r in rs && scope in r.scopes && span in scope
      && NamesPeer(r.resource, idKey, it.peer) && it == Item(it.peer, Span, span.payload)
  }

  /** The item is a record of the kind below a resource that names its peer. */
  ghost predicate RecordBelow(kind: RecordType, rs: seq<ResourceRecords>, idKey: string, it: Item) {
    exists r, scope, payload ::
      && r in rs && scope in r.scopes && payload in scope
      && NamesPeer(r.resource, idKey, it.peer) && it == Item(it.peer, kind, payload)
  }

  lemma {:induction false} NamedSpansMeaning(rs: seq<ResourceSpans>, idKey: string, it: Item)
    ensures it in NamedSpans(rs, idKey) <==> SpanBelow(rs, idKey, it)
  {
    if rs != [] {
      NamedSpansMeaning(rs[1..], idKey, it);
      OneResourceNamesSpans(rs[0], idKey, it);
      assert SpanBelow(rs, idKey, it) <==> SpanBelow([rs[0]], idKey, it) || SpanBelow(rs[1..], idKey, it) by {
        assert forall r :: r in rs <==> r in [rs[0]] || r in rs[1..];
      }
      NamedSpansOfHead(rs, idKey);
    }
  }

  lemma {:induction false} NamedSpansOfHead(rs: seq<ResourceSpans>, idKey: string)
    requires rs != []
    ensures NamedSpans(rs, idKey) == NamedSpans([rs[0]], idKey) + NamedSpans(rs[1..], idKey)
  {
    assert [rs[0]][1..] == [];
  }

  lemma {:induction false} OneResourceNamesSpans(r: ResourceSpans, idKey: string, it: Item)
    ensures it in NamedSpans([r], idKey) <==> SpanBelow([r], idKey, it)
  {
    var found, spans := ExtractPeerId(r.resource, idKey), Flatten(r.scopes);
    var items := if found.Some? then Items(found.value, Span, Payloads(spans)) else [];
    assert NamedSpans([r], idKey) == items by {
      assert [r][1..] == [] && items + [] == items;
    }
    PeerIdMeaning(r.resource, idKey, it.peer);
    if SpanBelow([r], idKey, it) {
      var scope, span :| scope in r.scopes && span in scope && NamesPeer(r.resource, idKey, it.peer)
                         && it == Item(it.peer, Span, span.payload);
      FlattenMembers(r.scopes, span);
      var k :| 0 <= k < |spans| && spans[k] == span;
      assert items[k] == it;
    }
    if it in items {
      var k :| 0 <= k < |items| && items[k] == it;
      FlattenMembers(r.scopes, spans[k]);
      var scope :| scope in r.scopes && spans[k] in scope;
      assert r in [r] && it == Item(it.peer, Span, spans[k].payload);
    }
  }

  lemma {:induction false} NamedRecordsMeaning(kind: RecordType, rs: seq<ResourceRecords>, idKey: string, it: Item)
    ensures it in NamedRecords(kind, rs, idKey) <==> RecordBelow(kind, rs, idKey, it)
  {
    if rs != [] {
      NamedRecordsMeaning(kind, rs[1..], idKey, it);
      OneResourceNamesRecords(kind, rs[0], idKey, it);
      assert RecordBelow(kind, rs, idKey, it)
             <==> RecordBelow(kind, [rs[0]], idKey, it) || RecordBelow(kind, rs[1..], idKey, it) by {
        assert forall r :: r in rs <==> r in [rs[0]] || r in rs[1..];
      }
      NamedRecordsOfHead(kind, rs, idKey);
    }
  }

  lemma {:induction false} NamedRecordsOfHead(kind: RecordType, rs: seq<ResourceRecords>, idKey: string)
    requires rs != []
    ensures NamedRecords(kind, rs, idKey) == NamedRecords(kind, [rs[0]], idKey) + NamedRecords(kind, rs[1..], idKey)
  {
    assert [rs[0]][1..] == [];
  }

  lemma {:induction false} OneResourceNamesRecords(kind: RecordType, r: ResourceRecords, idKey: string, it: Item)
    ensures it in NamedRecords(kind, [r], idKey) <==> RecordBelow(kind, [r], idKey, it)
  {
    var found, payloads := ExtractPeerId(r.resource, idKey), Flatten(r.scopes);
    assert [r][1..] == [];
    PeerIdMeaning(r.resource, idKey, it.peer);
    FlattenMembers(r.scopes, it.payload);
    if found.Some? {
      var items := Items(found.value, kind, payloads);
      assert it in items <==> exists k :: 0 <= k < |payloads| && it == Item(found.value, kind, payloads[k]) by {
        assert forall k :: 0 <= k < |payloads| ==> items[k] == Item(found.value, kind, payloads[k]);
      }
    }
  }

  /** An item is routed exactly when its resource is there and names its peer, and under the kind of its request. */
  lemma {:induction false} UnitsCarryNamed(req: Request, idKey: string, it: Item)
    ensures it in UnitItems(UnitsOf(req, idKey)) <==>
            match req
            case Traces(rs) => SpanBelow(rs, idKey, it)
            case Metrics(rs) => RecordBelow(Metric, rs, idKey, it)
            case Logs(rs) => RecordBelow(Log, rs, idKey, it)
  {
    UnitsCoverRequest(req, idKey);
    match req
    case Traces(rs) => NamedSpansMeaning(rs, idKey, it);
    case Metrics(rs) => NamedRecordsMeaning(Metric, rs, idKey, it);
    case Logs(rs) => NamedRecordsMeaning(Log, rs, idKey, it);
  }

  /** The units of a request are those of its resources, one resource after another. */
  lemma {:induction false} UnitsConcat(a: seq<ResourceSpans>, b: seq<ResourceSpans>, kind: RecordType,
                                       x: seq<ResourceRecords>, y: seq<ResourceRecords>, idKey: string)
    ensures TraceUnits(a + b, idKey) == TraceUnits(a, idKey) + TraceUnits(b, idKey)
    ensures RecordUnits(kind, x + y, idKey) == RecordUnits(kind, x, idKey) + RecordUnits(kind, y, idKey)
  {
    TraceUnitsConcat(a, b, idKey);
    RecordUnitsConcat(kind, x, y, idKey);
  }

  lemma {:induction false} TraceUnitsConcat(a: seq<ResourceSpans>, b: seq<ResourceSpans>, idKey: string)
    ensures TraceUnits(a + b, idKey) == TraceUnits(a, idKey) + TraceUnits(b, idKey)
  {
    if b == [] {
      assert a + b == a;
    } else {
      var front, last := b[..|b| - 1], b[|b| - 1];
      assert (a + b)[..|a + b| - 1] == a + front;
      TraceUnitsConcat(a, front, idKey);
      ConcatAssociates(TraceUnits(a, idKey), TraceUnits(front, idKey), ResourceSpanUnits(last, idKey));
    }
  }

  lemma {:induction false} RecordUnitsConcat(kind: RecordType, a: seq<ResourceRecords>, b: seq<ResourceRecords>,
                                             idKey: string)
    ensures RecordUnits(kind, a + b, idKey) == RecordUnits(kind, a, idKey) + RecordUnits(kind, b, idKey)
  {
    if b == [] {
      assert a + b == a;
    } else {
      var front, last := b[..|b| - 1], b[|b| - 1];
      assert (a + b)[..|a + b| - 1] == a + front;
      RecordUnitsConcat(kind, a, front, idKey);
      ConcatAssociates(RecordUnits(kind, a, idKey), RecordUnits(kind, front, idKey),
                       ResourceRecordUnits(kind, last, idKey));
    }
  }

  /** One resource that names a peer: a unit for every span in order, or one unit with all its records in order. */
  lemma {:induction false} UnitsOfOneResource(s: ResourceSpans, r: ResourceRecords, kind: RecordType, idKey: string,
                                              p: PeerId)
    ensures NamesPeer(s.resource, idKey, p) ==>
              var units, spans := TraceUnits([s], idKey), Flatten(s.scopes);
              |units| == |spans| && forall k :: 0 <= k < |spans| ==> units[k] == Unit(p, Span, [spans[k].payload])
    ensures NamesPeer(r.resource, idKey, p) ==> RecordUnits(kind, [r], idKey) == [Unit(p, kind, Flatten(r.scopes))]
  {
    PeerIdMeaning(s.resource, idKey, p);
    PeerIdMeaning(r.resource, idKey, p);
    assert [s][..0] == [] && [r][..0] == [];
  }

  lemma {:induction false} SinglesCount(units: seq<Unit>)
    requires forall u :: u in units ==> |u.items| == 1
    ensures |UnitItems(units)| == |units|
  {
    if units != [] {
      SinglesCount(units[..|units| - 1]);
    }
  }

  // ---- Fanning a unit out to the sessions a decision named ----

  function Copies(u: Unit, item: Payload, order: seq<SessionId>): seq<WriteRecord> {
    seq(|order|, i requires 0 <= i < |order| => WriteRecord(order[i], u.peer, u.kind, item))
  }

  /** The send attempts for the first |items| items: items in request order, sessions in the given order. */
  function FanoutItems(u: Unit, items: seq<Payload>, order: seq<SessionId>): seq<WriteRecord> {
    if items == [] then []
    else FanoutItems(u, items[..|items| - 1], order) + Copies(u, items[|items| - 1], order)
  }

  function Fanout(u: Unit, order: seq<SessionId>): seq<WriteRecord> {
    FanoutItems(u, u.items, order)
  }

  /** All attempts of an export whose first |orders| units were routed with these decisions. */
  function FanoutAll(units: seq<Unit>, orders: seq<seq<SessionId>>): seq<WriteRecord>
    requires |orders| <= |units|
  {
    if orders == [] then []
    else
      var n := |orders| - 1;
      FanoutAll(units, orders[..n]) + Fanout(units[n], orders[n])
  }

  function Selecting(s: SessionId, k: RecordType): WriteRecord -> bool {
    (r: WriteRecord) => r.session == s && r.kind == k
  }

  function ItemsFor(u: Unit, items: seq<Payload>, s: SessionId): seq<WriteRecord> {
    seq(|items|, i requires 0 <= i < |items| => WriteRecord(s, u.peer, u.kind, items[i]))
  }

  /**
   What session `s` is owed for kind `k`: in request order and once each, the items of every unit of that kind
   whose decision named it.
   */
  function Captured(units: seq<Unit>, orders: seq<seq<SessionId>>, s: SessionId, k: RecordType): seq<WriteRecord>
    requires |orders| <= |units|
  {
    if orders == [] then []
    else
      var n := |orders| - 1;
      Captured(units, orders[..n], s, k)
      + if s in orders[n] && units[n].kind == k then ItemsFor(units[n], units[n].items, s) else []
  }

  /** The send attempts are exactly one record for every item and every session, with the unit's peer and kind. */
  lemma {:induction false} FanoutExactly(u: Unit, items: seq<Payload>, order: seq<SessionId>, r: WriteRecord)
    ensures r in FanoutItems(u, items, order) <==>
            r.session in order && r.payload in items && r.peer == u.peer && r.kind == u.kind
  {
    if items != [] {
      var n := |items| - 1;
      FanoutExactly(u, items[..n], order, r);
      assert r.payload in items <==> r.payload in items[..n] || r.payload == items[n];
      assert r in Copies(u, items[n], order) <==>
             r.session in order && r.payload == items[n] && r.peer == u.peer && r.kind == u.kind by {
        if r.session in order {
          var i :| 0 <= i < |order| && order[i] == r.session;
          assert Copies(u, items[n], order)[i] == WriteRecord(r.session, u.peer, u.kind, items[n]);
        }
      }
    }
  }

  lemma {:induction false} CopiesForSession(u: Unit, item: Payload, order: seq<SessionId>, s: SessionId, k: RecordType)
    requires NoDuplicates(order)
    ensures Filter(Copies(u, item, order), Selecting(s, k))
         == if s in order && u.kind == k then [WriteRecord(s, u.peer, u.kind, item)] else []
  {
    if order != [] {
      var rest := order[1..];
      assert forall i, j :: 0 <= i < j < |rest| ==> rest[i] == order[i + 1] && rest[j] == order[j + 1];
      CopiesForSession(u, item, rest, s, k);
      assert Copies(u, item, order)[1..] == Copies(u, item, rest);
      assert s in order <==> s == order[0] || s in rest;
      assert forall j :: 0 <= j < |rest| ==> order[0] != rest[j];
    }
  }

  lemma {:induction false} FanoutItemsForSession(u: Unit, items: seq<Payload>, order: seq<SessionId>, s: SessionId,
                                                 k: RecordType)
    requires NoDuplicates(order)
    ensures Filter(FanoutItems(u, items, order), Selecting(s, k))
         == if s in order && u.kind == k then ItemsFor(u, items, s) else []
  {
    if items != [] {
      var n := |items| - 1;
      FanoutItemsForSession(u, items[..n], order, s, k);
      CopiesForSession(u, items[n], order, s, k);
      FilterConcat(FanoutItems(u, items[..n], order), Copies(u, items[n], order), Selecting(s, k));
    }
  }

  /** The order in which the session set was iterated does not show in any session's own records. */
  lemma {:induction false} FanoutForSession(units: seq<Unit>, orders: seq<seq<SessionId>>, s: SessionId, k: RecordType)
    requires |orders| <= |units|
    requires forall order :: order in orders ==> NoDuplicates(order)
    ensures Filter(FanoutAll(units, orders), Selecting(s, k)) == Captured(units, orders, s, k)
  {
    if orders != [] {
      var n := |orders| - 1;
      FanoutForSession(units, orders[..n], s, k);
      assert orders[n] in orders;
      FanoutItemsForSession(units[n], units[n].items, orders[n], s, k);
      FilterConcat(FanoutAll(units, orders[..n]), Fanout(units[n], orders[n]), Selecting(s, k));
    }
  }

  lemma {:induction false} FanoutMembers(u: Unit, items: seq<Payload>, order: seq<SessionId>)
    ensures forall r :: r in FanoutItems(u, items, order) ==> r.session in order && r.peer == u.peer && r.kind == u.kind
    ensures |FanoutItems(u, items, order)| == |items| * |order|
  {
    if items != [] {
      FanoutMembers(u, items[..|items| - 1], order);
    }
  }
}
