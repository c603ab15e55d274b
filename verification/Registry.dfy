/**
 What trace exports leave in the registry of observed HOPR sessions: what each span contributes, and what a whole
 request adds up to.
 */
module Registry {
  import opened Seqs
  import opened Types
  import opened Otlp
  import opened SessionTracker
  import opened Receivers

  // ---- The attributes a span is read for ----

  /** The first attribute with the key that has any value has this one. */
  ghost predicate FirstValued(attrs: seq<KeyValue>, key: string, v: AnyValue) {
    exists i :: 0 <= i < |attrs| && FirstValuedAt(attrs, key, v, i)
  }

  ghost predicate FirstValuedAt(attrs: seq<KeyValue>, key: string, v: AnyValue, i: nat)
    requires i < |attrs|
  {
    attrs[i] == KeyValue(key, Some(v)) && forall j :: 0 <= j < i ==> attrs[j].key != key || attrs[j].value.None?
  }

  /** The first attribute with the key that holds an integer holds this one. */
  ghost predicate FirstInt(attrs: seq<KeyValue>, key: string, n: int) {
    exists i :: 0 <= i < |attrs| && FirstIntAt(attrs, key, n, i)
  }

  ghost predicate FirstIntAt(attrs: seq<KeyValue>, key: string, n: int, i: nat)
    requires i < |attrs|
  {
    && attrs[i] == KeyValue(key, Some(IntValue(n)))
    && forall j, m :: 0 <= j < i ==> attrs[j] != KeyValue(key, Some(IntValue(m)))
  }

  lemma {:induction false} FirstValuedShift(attrs: seq<KeyValue>, key: string, v: AnyValue)
    requires attrs != []
    ensures FirstValued(attrs, key, v) <==>
            if attrs[0].key == key && attrs[0].value.Some? then attrs[0].value == Some(v)
            else FirstValued(attrs[1..], key, v)
  {
    if attrs[0] == KeyValue(key, Some(v)) {
      assert FirstValuedAt(attrs, key, v, 0);
    }
    if attrs[0].key != key || attrs[0].value.None? {
      forall i | 0 <= i < |attrs| - 1
        ensures FirstValuedAt(attrs, key, v, i + 1) <==> FirstValuedAt(attrs[1..], key, v, i)
      {
        assert forall j :: 0 < j < i + 1 ==> attrs[j] == attrs[1..][j - 1];
      }
      assert !FirstValuedAt(attrs, key, v, 0);
      if i :| 0 <= i < |attrs| && FirstValuedAt(attrs, key, v, i) {
        assert FirstValuedAt(attrs[1..], key, v, i - 1);
      }
    }
  }

  lemma {:induction false} StringAttrMeaning(attrs: seq<KeyValue>, key: string, t: string)
    ensures ExtractStringAttr(attrs, key) == Some(t) <==>
            || FirstValued(attrs, key, StringValue(t))
            || (t == "" && exists v :: FirstValued(attrs, key, v) && !v.StringValue?)
    ensures ExtractStringAttr(attrs, key) == None <==> forall v :: !FirstValued(attrs, key, v)
  {
    if attrs != [] {
      StringAttrMeaning(attrs[1..], key, t);
      forall v ensures FirstValued(attrs, key, v) <==>
                       if attrs[0].key == key && attrs[0].value.Some? then attrs[0].value == Some(v)
                       else FirstValued(attrs[1..], key, v) {
        FirstValuedShift(attrs, key, v);
      }
      if attrs[0].key == key && attrs[0].value.Some? {
        assert FirstValued(attrs, key, attrs[0].value.value);
      }
    }
  }

  /** At most one value comes first. */
  lemma {:induction false} FirstValuedOnce(attrs: seq<KeyValue>, key: string, v: AnyValue, w: AnyValue)
    requires FirstValued(attrs, key, v) && FirstValued(attrs, key, w)
    ensures v == w
  {
    var i :| 0 <= i < |attrs| && FirstValuedAt(attrs, key, v, i);
    var j :| 0 <= j < |attrs| && FirstValuedAt(attrs, key, w, j);
    assert i == j;
  }

  lemma {:induction false} FirstIntShift(attrs: seq<KeyValue>, key: string, n: int)
    requires attrs != []
    ensures FirstInt(attrs, key, n) <==>
            if attrs[0].key == key && attrs[0].value.Some? && attrs[0].value.value.IntValue?
            then attrs[0].value.value.i == n
            else FirstInt(attrs[1..], key, n)
  {
    if attrs[0] == KeyValue(key, Some(IntValue(n))) {
      assert FirstIntAt(attrs, key, n, 0);
    }
    if !(attrs[0].key == key && attrs[0].value.Some? && attrs[0].value.value.IntValue?) {
      forall i | 0 <= i < |attrs| - 1 ensures FirstIntAt(attrs, key, n, i + 1) <==> FirstIntAt(attrs[1..], key, n, i) {
        assert forall j :: 0 < j < i + 1 ==> attrs[j] == attrs[1..][j - 1];
      }
      if i :| 0 <= i < |attrs| && FirstIntAt(attrs, key, n, i) {
        assert FirstIntAt(attrs[1..], key, n, i - 1);
      }
    } else {
      var m := attrs[0].value.value.i;
      assert attrs[0] == KeyValue(key, Some(IntValue(m)));
    }
  }

  lemma {:induction false} IntAttrMeaning(attrs: seq<KeyValue>, key: string, n: int)
    ensures ExtractIntAttr(attrs, key) == Some(n) <==> FirstInt(attrs, key, n)
  {
    if attrs != [] {
      IntAttrMeaning(attrs[1..], key, n);
      FirstIntShift(attrs, key, n);
    }
  }

  // ---- One span ----

  /** The span mentions the HOPR session: its first valued session id is this nonempty string. */
  ghost predicate Mentions(span: SpanData, sid: string) {
    sid != "" && FirstValued(span.attributes, "hopr.session.id", StringValue(sid))
  }

  /** The role the span gives its peer: entry and exit if it says so, relay in every other case. */
  ghost predicate GivesRole(span: SpanData, role: Role) {
    && (role == Entry <==> FirstValued(span.attributes, "hopr.session.role", StringValue("entry")))
    && (role == Exit <==> FirstValued(span.attributes, "hopr.session.role", StringValue("exit")))
  }

  ghost predicate GivesProtocol(span: SpanData, protocol: string) {
    if exists t :: FirstValued(span.attributes, "hopr.session.protocol", StringValue(t))
    then FirstValued(span.attributes, "hopr.session.protocol", StringValue(protocol))
    else protocol == ""
  }

  /** The hop count is the first integer given, cut to 32 bits, or zero. */
  ghost predicate GivesHopCount(span: SpanData, hopCount: nat) {
    if exists n :: FirstInt(span.attributes, "hopr.session.hops", n)
    then exists n :: FirstInt(span.attributes, "hopr.session.hops", n) && hopCount == n % 4_294_967_296
    else hopCount == 0
  }

  /** A span updates the registry exactly when it mentions a session, and what the update says. */
  lemma {:induction false} SpanContributes(span: SpanData, peer: PeerId)
    ensures SessionUpdate(span, peer).Some? <==> exists sid :: Mentions(span, sid)
    ensures SessionUpdate(span, peer).Some? ==>
              var u := SessionUpdate(span, peer).value;
              && Mentions(span, u.id) && u.participant.peer == peer && GivesRole(span, u.participant.role)
              && GivesProtocol(span, u.protocol) && GivesHopCount(span, u.hopCount)
  {
    var attrs := span.attributes;
    var sid := ExtractStringAttr(attrs, "hopr.session.id");
    forall s ensures Mentions(span, s) <==> s != "" && sid == Some(s) {
      StringAttrMeaning(attrs, "hopr.session.id", s);
    }
    if sid.Some? && sid.value != "" {
      assert Mentions(span, sid.value);
      RoleOfSpan(span, peer);
      ProtocolOfSpan(span, peer);
      HopsOfSpan(span, peer);
    }
  }

  lemma {:induction false} MentionsOne(span: SpanData, s: string, t: string)
    requires Mentions(span, s) && Mentions(span, t)
    ensures s == t
  {
    FirstValuedOnce(span.attributes, "hopr.session.id", StringValue(s), StringValue(t));
  }

  lemma {:induction false} RoleOfSpan(span: SpanData, peer: PeerId)
    requires SessionUpdate(span, peer).Some?
    ensures GivesRole(span, SessionUpdate(span, peer).value.participant.role)
  {
    StringAttrMeaning(span.attributes, "hopr.session.role", "entry");
    StringAttrMeaning(span.attributes, "hopr.session.role", "exit");
  }

  lemma {:induction false} ProtocolOfSpan(span: SpanData, peer: PeerId)
    requires SessionUpdate(span, peer).Some?
    ensures GivesProtocol(span, SessionUpdate(span, peer).value.protocol)
  {
    var key, protocol := "hopr.session.protocol", SessionUpdate(span, peer).value.protocol;
    var found := ExtractStringAttr(span.attributes, key);
    StringAttrMeaning(span.attributes, key, protocol);
    forall t ensures FirstValued(span.attributes, key, StringValue(t)) ==> found == Some(t) {
      StringAttrMeaning(span.attributes, key, t);
    }
  }

  lemma {:induction false} HopsOfSpan(span: SpanData, peer: PeerId)
    requires SessionUpdate(span, peer).Some?
    ensures GivesHopCount(span, SessionUpdate(span, peer).value.hopCount)
  {
    var hops := ExtractIntAttr(span.attributes, "hopr.session.hops");
    forall n ensures FirstInt(span.attributes, "hopr.session.hops", n) <==> hops == Some(n) {
      IntAttrMeaning(span.attributes, "hopr.session.hops", n);
    }
    if hops.Some? {
      assert FirstInt(span.attributes, "hopr.session.hops", hops.value);
    }
  }

  // ---- A whole export ----

  /** Resource `i` names the peer and its `m`-th span, counted through its scopes, mentions the session. */
  ghost predicate NamesAt(rs: seq<ResourceSpans>, idKey: string, sid: string, p: PeerId, i: nat, m: nat) {
    && i < |rs| && m < |Flatten(rs[i].scopes)|
    && NamesPeer(rs[i].resource, idKey, p) && Mentions(Flatten(rs[i].scopes)[m], sid)
  }

  ghost predicate LastAt(rs: seq<ResourceSpans>, idKey: string, sid: string, p: PeerId, i: nat, m: nat) {
    && NamesAt(rs, idKey, sid, p, i, m)
    && forall j: nat, n: nat :: NamesAt(rs, idKey, sid, p, j, n) ==> j < i || (j == i && n <= m)
  }

  lemma {:induction false} SpanUpdatesConcat(peer: PeerId, a: seq<SpanData>, b: seq<SpanData>)
    ensures SpanUpdates(peer, a + b) == SpanUpdates(peer, a) + SpanUpdates(peer, b)
  {
    if b == [] {
      assert a + b == a;
    } else {
      var front, last := b[..|b| - 1], SessionUpdate(b[|b| - 1], peer);
      assert (a + b)[..|a + b| - 1] == a + front;
      SpanUpdatesConcat(peer, a, front);
      ConcatAssociates(SpanUpdates(peer, a), SpanUpdates(peer, front), if last.Some? then [last.value] else []);
    }
  }

  lemma {:induction false} TraceUpdatesConcat(a: seq<ResourceSpans>, b: seq<ResourceSpans>, idKey: string)
    ensures TraceUpdates(a + b, idKey) == TraceUpdates(a, idKey) + TraceUpdates(b, idKey)
  {
    if b == [] {
      assert a + b == a;
    } else {
      var front, last := b[..|b| - 1], b[|b| - 1];
      var peer := ExtractPeerId(last.resource, idKey);
      assert (a + b)[..|a + b| - 1] == a + front;
      TraceUpdatesConcat(a, front, idKey);
      ConcatAssociates(TraceUpdates(a, idKey), TraceUpdates(front, idKey),
                       if peer.Some? then SpanUpdates(peer.value, Flatten(last.scopes)) else []);
    }
  }

  lemma {:induction false} SpanUpdatesMembers(peer: PeerId, spans: seq<SpanData>, u: Update)
    ensures u in SpanUpdates(peer, spans) <==> exists m :: 0 <= m < |spans| && SessionUpdate(spans[m], peer) == Some(u)
  {
    if spans != [] {
      var n := |spans| - 1;
      SpanUpdatesMembers(peer, spans[..n], u);
      assert forall m :: 0 <= m < n ==> spans[..n][m] == spans[m];
    }
  }

  /** The updates of one resource. */
  function ResourceUpdates(r: ResourceSpans, idKey: string): seq<Update> {
    var peer := ExtractPeerId(r.resource, idKey);
    if peer.Some? then SpanUpdates(peer.value, Flatten(r.scopes)) else []
  }

  ghost predicate Updated(us: seq<Update>, sid: string, p: PeerId) {
    exists u :: u in us && u.id == sid && u.participant.peer == p
  }

  ghost predicate Named(rs: seq<ResourceSpans>, idKey: string, sid: string, p: PeerId) {
    exists i: nat, m: nat :: NamesAt(rs, idKey, sid, p, i, m)
  }

  /** An update of a request for a session and peer comes from a span that names them, and every such span has one. */
  lemma {:induction false} TraceUpdatesMembers(rs: seq<ResourceSpans>, idKey: string, sid: string, p: PeerId)
    ensures Updated(TraceUpdates(rs, idKey), sid, p) <==> Named(rs, idKey, sid, p)
  {
    if rs != [] {
      var n := |rs| - 1;
      TraceUpdatesMembers(rs[..n], idKey, sid, p);
      ResourceUpdatesMembers(rs, n, idKey, sid, p);
      NamedInLast(rs, idKey, sid, p);
      UpdatedConcat(TraceUpdates(rs[..n], idKey), ResourceUpdates(rs[n], idKey), sid, p);
    }
  }

  lemma {:induction false} UpdatedConcat(a: seq<Update>, b: seq<Update>, sid: string, p: PeerId)
    ensures Updated(a + b, sid, p) <==> Updated(a, sid, p) || Updated(b, sid, p)
  {
  }

  lemma {:induction false} NamedInLast(rs: seq<ResourceSpans>, idKey: string, sid: string, p: PeerId)
    requires rs != []
    ensures var n := |rs| - 1;
            Named(rs, idKey, sid, p) <==>
            Named(rs[..n], idKey, sid, p) || exists m: nat :: NamesAt(rs, idKey, sid, p, n, m)
  {
    var n := |rs| - 1;
    assert forall i: nat, m: nat :: i < n ==>
      (NamesAt(rs[..n], idKey, sid, p, i, m) <==> NamesAt(rs, idKey, sid, p, i, m));
    assert forall i: nat, m: nat :: NamesAt(rs, idKey, sid, p, i, m) ==> i <= n;
    assert forall i: nat, m: nat :: NamesAt(rs[..n], idKey, sid, p, i, m) ==> i < n;
  }

  lemma {:induction false} ResourceUpdatesMembers(rs: seq<ResourceSpans>, i: nat, idKey: string, sid: string, p: PeerId)
    requires i < |rs|
    ensures Updated(ResourceUpdates(rs[i], idKey), sid, p) <==> exists m: nat :: NamesAt(rs, idKey, sid, p, i, m)
  {
    var found, spans := ExtractPeerId(rs[i].resource, idKey), Flatten(rs[i].scopes);
    PeerIdMeaning(rs[i].resource, idKey, p);
    if u :| u in ResourceUpdates(rs[i], idKey) && u.id == sid && u.participant.peer == p {
      SpanUpdatesMembers(found.value, spans, u);
      var m :| 0 <= m < |spans| && SessionUpdate(spans[m], found.value) == Some(u);
      SpanContributes(spans[m], found.value);
      assert NamesAt(rs, idKey, sid, p, i, m);
    }
    if m: nat :| NamesAt(rs, idKey, sid, p, i, m) {
      var u := UpdateOf(spans[m], p, sid);
      SpanUpdatesMembers(p, spans, u);
    }
  }

  /** The one update of a span that mentions the session. */
  lemma {:induction false} UpdateOf(span: SpanData, p: PeerId, sid: string) returns (u: Update)
    requires Mentions(span, sid)
    ensures SessionUpdate(span, p) == Some(u) && u.id == sid && u.participant.peer == p
    ensures GivesRole(span, u.participant.role)
  {
    SpanContributes(span, p);
    u := SessionUpdate(span, p).value;
    MentionsOne(span, sid, u.id);
  }

  /** A session is registered by an export exactly when some span under a named peer mentions it. */
  lemma {:induction false} KnownAfterExport(rs: seq<ResourceSpans>, idKey: string, sid: string)
    ensures sid in MergeAll(map[], TraceUpdates(rs, idKey)) <==>
            exists p: PeerId, i: nat, m: nat :: NamesAt(rs, idKey, sid, p, i, m)
  {
    var us := TraceUpdates(rs, idKey);
    LogMeaning(us, sid);
    FilterMembers(us, OfSession(sid));
    forall p: PeerId ensures Updated(us, sid, p) <==> Named(rs, idKey, sid, p) {
      TraceUpdatesMembers(rs, idKey, sid, p);
    }
    if sid in MergeAll(map[], us) {
      var u := Filter(us, OfSession(sid))[0];
      assert u in us && u.id == sid;
      assert Updated(us, sid, u.participant.peer) && Named(rs, idKey, sid, u.participant.peer);
    }
    if p: PeerId, i: nat, m: nat :| NamesAt(rs, idKey, sid, p, i, m) {
      assert Named(rs, idKey, sid, p);
      var u :| u in us && u.id == sid && u.participant.peer == p;
      assert u in Filter(us, OfSession(sid));
    }
  }

  /** The updates of a request around one span of one resource. */
  lemma {:induction false} AroundSpan(rs: seq<ResourceSpans>, idKey: string, p: PeerId, i: nat, m: nat, u: Update)
    requires i < |rs| && m < |Flatten(rs[i].scopes)| && NamesPeer(rs[i].resource, idKey, p)
    requires SessionUpdate(Flatten(rs[i].scopes)[m], p) == Some(u)
    ensures var spans := Flatten(rs[i].scopes);
            TraceUpdates(rs, idKey) == (TraceUpdates(rs[..i], idKey) + SpanUpdates(p, spans[..m])) + [u]
                                       + (SpanUpdates(p, spans[m + 1..]) + TraceUpdates(rs[i + 1..], idKey))
  {
    var spans := Flatten(rs[i].scopes);
    PeerIdMeaning(rs[i].resource, idKey, p);
    AroundResource(rs, i, idKey);
    AroundOne(p, spans, m, u);
    Regroup(TraceUpdates(rs[..i], idKey), SpanUpdates(p, spans[..m]), [u], SpanUpdates(p, spans[m + 1..]),
            TraceUpdates(rs[i + 1..], idKey));
  }

  lemma {:induction false} AroundResource(rs: seq<ResourceSpans>, i: nat, idKey: string)
    requires i < |rs|
    ensures TraceUpdates(rs, idKey)
         == (TraceUpdates(rs[..i], idKey) + ResourceUpdates(rs[i], idKey)) + TraceUpdates(rs[i + 1..], idKey)
  {
    assert rs == rs[..i + 1] + rs[i + 1..] && rs[..i + 1][..i] == rs[..i];
    TraceUpdatesConcat(rs[..i + 1], rs[i + 1..], idKey);
  }

  lemma {:induction false} AroundOne(p: PeerId, spans: seq<SpanData>, m: nat, u: Update)
    requires m < |spans| && SessionUpdate(spans[m], p) == Some(u)
    ensures SpanUpdates(p, spans) == SpanUpdates(p, spans[..m]) + [u] + SpanUpdates(p, spans[m + 1..])
  {
    assert spans == spans[..m + 1] + spans[m + 1..] && spans[..m + 1][..m] == spans[..m];
    SpanUpdatesConcat(p, spans[..m + 1], spans[m + 1..]);
  }

  lemma {:induction false} Regroup<T>(a: seq<T>, b: seq<T>, c: seq<T>, d: seq<T>, e: seq<T>)
    ensures (a + (b + c + d)) + e == (a + b) + c + (d + e)
  {
  }

  lemma {:induction false} LaterInResource(rs: seq<ResourceSpans>, idKey: string, p: PeerId, i: nat, m: nat, w: Update)
    returns (n: nat)
    requires i < |rs| && m < |Flatten(rs[i].scopes)| && NamesPeer(rs[i].resource, idKey, p)
    requires w in SpanUpdates(p, Flatten(rs[i].scopes)[m + 1..])
    ensures n > m && NamesAt(rs, idKey, w.id, p, i, n)
  {
    var later := Flatten(rs[i].scopes)[m + 1..];
    SpanUpdatesMembers(p, later, w);
    var k :| 0 <= k < |later| && SessionUpdate(later[k], p) == Some(w);
    SpanContributes(later[k], p);
    n := m + 1 + k;
  }

  /** Nothing after the last span that names the session for the peer updates it again. */
  lemma {:induction false} NothingLater(rs: seq<ResourceSpans>, idKey: string, sid: string, p: PeerId, i: nat, m: nat)
    requires LastAt(rs, idKey, sid, p, i, m)
    ensures !Updated(SpanUpdates(p, Flatten(rs[i].scopes)[m + 1..]) + TraceUpdates(rs[i + 1..], idKey), sid, p)
  {
    var here, after := SpanUpdates(p, Flatten(rs[i].scopes)[m + 1..]), TraceUpdates(rs[i + 1..], idKey);
    UpdatedConcat(here, after, sid, p);
    if Updated(here, sid, p) {
      var w :| w in here && w.id == sid && w.participant.peer == p;
      var n := LaterInResource(rs, idKey, p, i, m, w);
    }
    TraceUpdatesMembers(rs[i + 1..], idKey, sid, p);
    if Updated(after, sid, p) {
      var j, n := LaterResource(rs, idKey, sid, p, i);
    }
  }

  lemma {:induction false} LaterResource(rs: seq<ResourceSpans>, idKey: string, sid: string, p: PeerId, i: nat)
    returns (j: nat, n: nat)
    requires i < |rs| && Named(rs[i + 1..], idKey, sid, p)
    ensures j > i && NamesAt(rs, idKey, sid, p, j, n)
  {
    var k: nat, m: nat :| NamesAt(rs[i + 1..], idKey, sid, p, k, m);
    j, n := i + 1 + k, m;
  }

  lemma {:induction false} LastMentionAt(a: seq<Update>, u: Update, b: seq<Update>, p: PeerId)
    requires u.participant.peer == p && forall w :: w in b ==> w.participant.peer != p
    ensures LastMention(a + [u] + b, p) == |a|
  {
    var us := a + [u] + b;
    assert us[|a|] == u;
    assert forall j :: |a| < j < |us| ==> us[j] == b[j - |a| - 1];
  }

  /**
   From an empty registry, a peer's role in a session is the one given by the last span of the request that mentions
   the session below a resource that names the peer.
   */
  lemma {:induction false} RoleAfterExport(rs: seq<ResourceSpans>, idKey: string, sid: string, p: PeerId, i: nat,
                                           m: nat)
    requires LastAt(rs, idKey, sid, p, i, m)
    ensures var registry := MergeAll(map[], TraceUpdates(rs, idKey));
            && sid in registry
            && (exists q :: q in registry[sid].participants && q.peer == p)
            && forall q :: q in registry[sid].participants && q.peer == p ==>
                 GivesRole(Flatten(rs[i].scopes)[m], q.role)
  {
    var us, spans := TraceUpdates(rs, idKey), Flatten(rs[i].scopes);
    var u := UpdateOf(spans[m], p, sid);
    AroundSpan(rs, idKey, p, i, m, u);
    NothingLater(rs, idKey, sid, p, i, m);
    RoleFromLog(TraceUpdates(rs[..i], idKey) + SpanUpdates(p, spans[..m]), u,
                SpanUpdates(p, spans[m + 1..]) + TraceUpdates(rs[i + 1..], idKey));
  }

  lemma {:induction false} RoleFromLog(a: seq<Update>, u: Update, b: seq<Update>)
    requires !Updated(b, u.id, u.participant.peer)
    ensures var registry := MergeAll(map[], a + [u] + b);
            && u.id in registry && u.participant in registry[u.id].participants
            && forall q :: q in registry[u.id].participants && q.peer == u.participant.peer ==> q == u.participant
  {
    var us, fa, fb := a + [u] + b, Filter(a, OfSession(u.id)), Filter(b, OfSession(u.id));
    LogMeaning(us, u.id);
    FilterOne(a, u, OfSession(u.id));
    FilterConcat(a + [u], b, OfSession(u.id));
    FilterMembers(b, OfSession(u.id));
    LastMentionAt(fa, u, fb, u.participant.peer);
    var vs, ps := fa + [u] + fb, MergeAll(map[], us)[u.id].participants;
    assert vs[|fa|] == u && vs[|fa|].participant.peer in PeersOf(ps);
    var at :| 0 <= at < |ps| && PeersOf(ps)[at] == u.participant.peer;
    forall q | q in ps && q.peer == u.participant.peer ensures q == u.participant {
      var k :| 0 <= k < |ps| && ps[k] == q;
      assert HasLatestRole(ps[k], vs);
    }
    assert ps[at] in ps;
  }
}
