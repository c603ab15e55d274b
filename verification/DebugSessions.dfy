/**
 The debug-session handlers (src/api/debug_sessions.rs) and the cleanup task (src/cleanup.rs), each run to its end
 without interference. Then the router is always the inverse of the active sessions; `Lifecycle` says what is left
 of that when the two steps of a handler are interleaved with others.
 */
module DebugSessions {
  import opened Seqs
  import opened Types
  import opened Database
  import opened PeerRouter
  import Lifecycle

  datatype Reply = Made | Done | BadRequest | NotFound | InternalError

  class Api {
    const store: Store
    const router: Router

    ghost predicate Valid()
      reads this, store, router
    {
      && ForeignKeys(store.tables)
      && router.Valid()
      && Lifecycle.InverseOfActive(Relation(router.index), store.tables)
    }

    constructor ()
      ensures Valid() && store.tables == EMPTY
    {
      store := new Store();
      router := new Router();
    }

    /** Database first; the router only hears of a session that was committed. */
    method CreateSession(id: SessionId, peers: seq<PeerId>, fault: Fault) returns (reply: Reply)
      requires Valid()
      modifies store, router
      ensures Valid()
      ensures reply == if CreateAllowed(old(store.tables), id, peers) && !Strikes(fault, |peers| + 3)
                       then Made else InternalError
      ensures store.tables == if reply.Made? then Created(old(store.tables), id, peers) else old(store.tables)
      ensures Relation(router.index) == if reply.Made? then AddRoutes(old(Relation(router.index)), id, peers)
                                        else old(Relation(router.index))
    {
      ghost var t := store.tables;
      var ok := store.CreateDebugSession(id, peers, fault);
      if !ok {
        return InternalError;
      }
      router.AddSession(id, peers);
      CreateKeepsForeignKeys(t, id, peers);
      CreateKeepsInverse(old(Relation(router.index)), t, id, peers);
      reply := Made;
    }

    /** `id` is what the path parsed to; an end that affects no row leaves the router alone. */
    method EndSession(id: Option<SessionId>, now: string, fault: Fault) returns (reply: Reply)
      requires Valid()
      modifies store, router
      ensures Valid()
      ensures reply == if id.None? then BadRequest
                       else if Strikes(fault, 1) then InternalError
                       else if Lifecycle.IsActive(old(store.tables), id.value) then Done
                       else NotFound
      ensures store.tables == if reply.Done? then Ended(old(store.tables), id.value, now) else old(store.tables)
      ensures Relation(router.index) == if reply.Done? then RemoveRoutes(old(Relation(router.index)), id.value)
                                        else old(Relation(router.index))
    {
      if id.None? {
        return BadRequest;
      }
      ghost var t := store.tables;
      var ended := store.EndDebugSession(id.value, now, fault);
      if ended.None? {
        return InternalError;
      }
      if !ended.value {
        return NotFound;
      }
      router.RemoveSession(id.value);
      assert forall k :: Rows(store.tables, k) == Rows(t, k);
      EndKeepsInverse(old(Relation(router.index)), t, id.value, now);
      reply := Done;
    }

    /** One round of the cleanup task; it never needs to touch the router. */
    method CleanUp(cutoff: string, fault: Fault)
      requires Valid()
      modifies store
      ensures Valid()
      ensures store.tables == if Strikes(fault, 1) then old(store.tables) else Purged(old(store.tables), cutoff)
    {
      ghost var t := store.tables;
      var deleted := store.DeleteExpiredSessions(cutoff, fault);
      if deleted.Some? {
        PurgeKeepsForeignKeys(t, cutoff);
        PurgeKeepsInverse(Relation(router.index), t, cutoff);
      }
    }
  }

  lemma {:induction false} CreateKeepsInverse(routes: Routes, t: Tables, id: SessionId, peers: seq<PeerId>)
    requires ForeignKeys(t) && Lifecycle.InverseOfActive(routes, t) && id !in t.sessions
    ensures Lifecycle.InverseOfActive(AddRoutes(routes, id, peers), Created(t, id, peers))
  {
  }

  lemma {:induction false} EndKeepsInverse(routes: Routes, t: Tables, id: SessionId, now: string)
    requires Lifecycle.InverseOfActive(routes, t) && Lifecycle.IsActive(t, id)
    ensures Lifecycle.InverseOfActive(RemoveRoutes(routes, id), Ended(t, id, now))
  {
  }

  lemma {:induction false} PurgeKeepsInverse(routes: Routes, t: Tables, cutoff: string)
    requires Lifecycle.InverseOfActive(routes, t)
    ensures Lifecycle.InverseOfActive(routes, Purged(t, cutoff))
  {
  }
}
