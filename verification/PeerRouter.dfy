/**
 The peer router (src/peer_router.rs): which debug sessions claim which peer. The claim relation is a set of
 pairs; the class keeps the source's index, a map from each claimed peer to its nonempty set of sessions, and
 updates it in place.
 */
module PeerRouter {
  import opened Seqs
  import opened Types

  /** The claim relation. */
  type Routes = set<(PeerId, SessionId)>

  function Claimers(routes: Routes, p: PeerId): set<SessionId> {
    set x | x in routes && x.0 == p :: x.1
  }

  function AddRoutes(routes: Routes, s: SessionId, peers: seq<PeerId>): Routes {
    routes + set p | p in peers :: (p, s)
  }

  function RemoveRoutes(routes: Routes, s: SessionId): Routes {
    set x | x in routes && x.1 != s
  }

  lemma {:induction false} ClaimersMeaning(routes: Routes, p: PeerId, s: SessionId)
    ensures s in Claimers(routes, p) <==> (p, s) in routes
  {
  }

  // ---- The index and the relation it stands for ----

  type Index = map<PeerId, set<SessionId>>

  /** No peer is kept without a claiming session. */
  ghost predicate Pruned(index: Index) {
    forall p :: p in index ==> index[p] != {}
  }

  function Relation(index: Index): Routes {
    set p, s | p in index && s in index[p] :: (p, s)
  }

  /** A pruned index is determined by its relation, so what the relation does the map does. */
  lemma {:induction false} RelationDeterminesIndex(a: Index, b: Index)
    requires Pruned(a) && Pruned(b) && Relation(a) == Relation(b)
    ensures a == b
  {
    forall p ensures (p in a <==> p in b) && (p in a ==> a[p] == b[p]) {
      HalfOfIndex(a, b, p);
      HalfOfIndex(b, a, p);
    }
    assert a.Keys == b.Keys;
  }

  lemma {:induction false} HalfOfIndex(a: Index, b: Index, p: PeerId)
    requires Pruned(a) && Relation(a) == Relation(b)
    ensures p in a ==> p in b && a[p] <= b[p]
  {
    if p in a {
      forall s | s in a[p] ensures p in b && s in b[p] {
        assert (p, s) in Relation(a);
      }
      var s :| s in a[p];
    }
  }

  class Router {
    var index: Index

    ghost predicate Valid()
      reads this
    {
      Pruned(index)
    }

    constructor ()
      ensures Valid() && Relation(index) == {}
    {
      index := map[];
    }

    method AddSession(s: SessionId, peers: seq<PeerId>)
      requires Valid()
      modifies this
      ensures Valid() && Relation(index) == AddRoutes(old(Relation(index)), s, peers)
    {
      for i := 0 to |peers|
        invariant Valid() && Relation(index) == AddRoutes(old(Relation(index)), s, peers[..i])
      {
        var p := peers[i];
        ghost var before := index;
        index := index[p := (if p in index then index[p] else {}) + {s}];
        OneMoreClaim(before, index, p, s);
        assert peers[..i + 1] == peers[..i] + [p];
      }
      assert peers[..|peers|] == peers;
    }

    /** The retain pass visits the entries in an arbitrary order and drops those it leaves empty. */
    method RemoveSession(s: SessionId)
      requires Valid()
      modifies this
      ensures Valid() && Relation(index) == RemoveRoutes(old(Relation(index)), s)
    {
      var todo := index.Keys;
      while todo != {}
        invariant todo <= old(index).Keys
        invariant forall p :: p in index <==> p in old(index) && (p in todo || old(index)[p] - {s} != {})
        invariant forall p :: p in index ==> index[p] == old(index)[p] - if p in todo then {} else {s}
        decreases todo
      {
        var p :| p in todo;
        var left := index[p] - {s};
        index := if left == {} then index - {p} else index[p := left];
        todo := todo - {p};
      }
      forall p, t ensures (p, t) in Relation(index) <==> (p, t) in old(Relation(index)) && t != s {
        assert p in old(index) && t in old(index)[p] && t != s ==> t in old(index)[p] - {s};
      }
    }

    /** The decision lists the claiming sessions once each, in the set's own iteration order. */
    method Route(p: PeerId) returns (d: RoutingDecision)
      ensures d.Discard? <==> Claimers(Relation(index), p) == {}
      ensures Enumerates(Chosen(d), Claimers(Relation(index), p))
    {
      IndexGivesClaimers(index, p);
      if p !in index || index[p] == {} {
        return Discard;
      }
      var rest, ids := index[p], [];
      while rest != {}
        invariant NoDuplicates(ids) && rest <= index[p]
        invariant forall s :: s in index[p] <==> s in rest || s in ids
        invariant forall s :: s in ids ==> s !in rest
        decreases rest
      {
        var s :| s in rest;
        rest, ids := rest - {s}, ids + [s];
      }
      d := Retain(ids);
    }

    /** True exactly when some peer would be retained. */
    method HasRetainedPeers() returns (b: bool)
      requires Valid()
      ensures b <==> exists p :: Claimers(Relation(index), p) != {}
    {
      b := index != map[];
      if b {
        var p :| p in index;
        IndexGivesClaimers(index, p);
      } else {
        assert Relation(index) == {};
      }
    }
  }

  lemma {:induction false} OneMoreClaim(before: Index, after: Index, p: PeerId, s: SessionId)
    requires after == before[p := (if p in before then before[p] else {}) + {s}]
    ensures Relation(after) == Relation(before) + {(p, s)}
  {
  }

  lemma {:induction false} IndexGivesClaimers(index: Index, p: PeerId)
    ensures Claimers(Relation(index), p) == if p in index then index[p] else {}
  {
    forall s ensures s in Claimers(Relation(index), p) <==> p in index && s in index[p] {
      ClaimersMeaning(Relation(index), p, s);
    }
  }

  // ---- Laws of the two writers ----

  /** Removing a session that had claimed nothing before its add restores the very same index. */
  lemma {:induction false} RemoveUndoesAdd(before: Index, added: Index, removed: Index, s: SessionId,
                                           peers: seq<PeerId>)
    requires Pruned(before) && Pruned(removed)
    requires forall x :: x in Relation(before) ==> x.1 != s
    requires Relation(added) == AddRoutes(Relation(before), s, peers)
    requires Relation(removed) == RemoveRoutes(Relation(added), s)
    ensures removed == before
  {
    assert Relation(removed) == Relation(before);
    RelationDeterminesIndex(removed, before);
  }

  datatype RouterOp = Add(session: SessionId, peers: seq<PeerId>) | Remove(session: SessionId)

  function ApplyOp(routes: Routes, op: RouterOp): Routes {
    match op
    case Add(s, peers) => AddRoutes(routes, s, peers)
    case Remove(s) => RemoveRoutes(routes, s)
  }

  /** The claims after two operations of different sessions do not depend on their order. */
  lemma {:induction false} ClaimsCommute(routes: Routes, a: RouterOp, b: RouterOp)
    requires a.session != b.session
    ensures ApplyOp(ApplyOp(routes, a), b) == ApplyOp(ApplyOp(routes, b), a)
  {
  }

  /** Operations of different sessions commute, in every combination: both orders leave the very same index. */
  lemma {:induction false} DifferentSessionsCommute(before: Index, ab: Index, ba: Index, a: RouterOp, b: RouterOp)
    requires a.session != b.session && Pruned(ab) && Pruned(ba)
    requires Relation(ab) == ApplyOp(ApplyOp(Relation(before), a), b)
    requires Relation(ba) == ApplyOp(ApplyOp(Relation(before), b), a)
    ensures ab == ba
  {
    ClaimsCommute(Relation(before), a, b);
    RelationDeterminesIndex(ab, ba);
  }
}
