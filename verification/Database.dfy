/**
 The embedded database (migrations/001_initial_schema.sql, src/db/debug_sessions.rs, and the transaction of
 src/write_buffer.rs). `Tables` is one committed snapshot. The functions say what a whole transaction does;
 the class runs the statements one by one on a working copy and installs it only at the commit.
 */
module Database {
  import opened Seqs
  import opened Types
  import opened Timestamps

  datatype Status = Active | Completed

  datatype SessionRow = SessionRow(status: Status, endedAt: Option<string>)

  /** debug_sessions, debug_session_peers and the three telemetry tables in insertion order. */
  datatype Tables = Tables(
    sessions: map<SessionId, SessionRow>,
    peers: set<(SessionId, PeerId)>,
    spans: seq<WriteRecord>,
    metrics: seq<WriteRecord>,
    logs: seq<WriteRecord>)

  const EMPTY := Tables(map[], {}, [], [], [])

  function Rows(t: Tables, k: RecordType): seq<WriteRecord> {
    match k
    case Span => t.spans
    case Metric => t.metrics
    case Log => t.logs
  }

  /** The declared constraints: every peer row and telemetry row refers to an existing session. */
  ghost predicate ForeignKeys(t: Tables) {
    && (forall x :: x in t.peers ==> x.0 in t.sessions)
    && (forall k, r :: r in Rows(t, k) ==> r.session in t.sessions && r.kind == k)
  }

  // ---- What each transaction does when every statement succeeds ----

  function Created(t: Tables, id: SessionId, peers: seq<PeerId>): Tables {
    t.(sessions := t.sessions[id := SessionRow(Active, None)],
       peers := t.peers + set p | p in peers :: (id, p))
  }

  ghost predicate CreateAllowed(t: Tables, id: SessionId, peers: seq<PeerId>) {
    id !in t.sessions && NoDuplicates(peers)
  }

  predicate EndMatches(t: Tables, id: SessionId) {
    id in t.sessions && t.sessions[id].status == Active
  }

  function Ended(t: Tables, id: SessionId, now: string): Tables {
    if EndMatches(t, id) then t.(sessions := t.sessions[id := SessionRow(Completed, Some(now))]) else t
  }

  /** The WHERE clause of the cleanup: NULL compares with nothing. */
  predicate Expired(row: SessionRow, cutoff: string) {
    row.status == Completed && row.endedAt.Some? && TextLess(row.endedAt.value, cutoff)
  }

  function Kept(t: Tables, cutoff: string): set<SessionId> {
    set s | s in t.sessions && !Expired(t.sessions[s], cutoff)
  }

  function InSessions(ss: set<SessionId>): WriteRecord -> bool {
    (r: WriteRecord) => r.session in ss
  }

  /** The delete and its cascades. */
  function Purged(t: Tables, cutoff: string): Tables {
    var kept := Kept(t, cutoff);
    Tables(t.sessions - (t.sessions.Keys - kept),
           (set x | x in t.peers && x.0 in kept),
           Filter(t.spans, InSessions(kept)),
           Filter(t.metrics, InSessions(kept)),
           Filter(t.logs, InSessions(kept)))
  }

  /** Every record of the batch refers to a session that still exists. */
  predicate Insertable(t: Tables, batch: seq<WriteRecord>) {
    forall r :: r in batch ==> r.session in t.sessions
  }

  function Inserted(t: Tables, batch: seq<WriteRecord>): Tables {
    t.(spans := t.spans + Filter(batch, OfKind(Span)),
       metrics := t.metrics + Filter(batch, OfKind(Metric)),
       logs := t.logs + Filter(batch, OfKind(Log)))
  }

  function InsertRow(t: Tables, r: WriteRecord): Tables {
    match r.kind
    case Span => t.(spans := t.spans + [r])
    case Metric => t.(metrics := t.metrics + [r])
    case Log => t.(logs := t.logs + [r])
  }

  lemma InsertedOne(t: Tables, batch: seq<WriteRecord>, r: WriteRecord)
    ensures Inserted(t, batch + [r]) == InsertRow(Inserted(t, batch), r)
  {
    FilterOne(batch, r, OfKind(Span));
    FilterOne(batch, r, OfKind(Metric));
    FilterOne(batch, r, OfKind(Log));
  }

  lemma InsertedConcat(t: Tables, a: seq<WriteRecord>, b: seq<WriteRecord>)
    ensures Inserted(t, a + b) == Inserted(Inserted(t, a), b)
  {
    forall k ensures Rows(Inserted(t, a + b), k) == Rows(Inserted(Inserted(t, a), b), k) {
      FilterConcat(a, b, OfKind(k));
      var x, y := Filter(a, OfKind(k)), Filter(b, OfKind(k));
      assert Rows(t, k) + (x + y) == (Rows(t, k) + x) + y;
    }
    var l, r := Inserted(t, a + b), Inserted(Inserted(t, a), b);
    assert l.spans == Rows(l, Span) == Rows(r, Span) && l.metrics == Rows(l, Metric) == Rows(r, Metric);
    assert l.logs == Rows(l, Log) == Rows(r, Log);
  }

  // ---- The declared constraints survive every transaction ----

  lemma CreateKeepsForeignKeys(t: Tables, id: SessionId, peers: seq<PeerId>)
    requires ForeignKeys(t)
    ensures ForeignKeys(Created(t, id, peers))
  {
    var after := Created(t, id, peers);
    assert forall k :: Rows(after, k) == Rows(t, k);
  }

  lemma PurgeKeepsForeignKeys(t: Tables, cutoff: string)
    requires ForeignKeys(t)
    ensures ForeignKeys(Purged(t, cutoff))
  {
    var purged, kept := Purged(t, cutoff), Kept(t, cutoff);
    assert purged.sessions.Keys == kept;
    forall k, r | r in Rows(purged, k) ensures r.session in purged.sessions && r.kind == k {
      FilterMembers(Rows(t, k), InSessions(kept));
    }
  }

  lemma InsertKeepsForeignKeys(t: Tables, batch: seq<WriteRecord>)
    requires ForeignKeys(t) && Insertable(t, batch)
    ensures ForeignKeys(Inserted(t, batch))
  {
    var after := Inserted(t, batch);
    forall k, r | r in Rows(after, k) ensures r.session in after.sessions && r.kind == k {
      FilterMembers(batch, OfKind(k));
      assert r in Rows(t, k) || r in batch;
    }
  }

  /**
   Text expiry is time expiry: with the cutoff `hours` before now, the cleanup deletes exactly the completed
   sessions whose end lies more than `hours` in the past.
   */
  lemma CleanupIsChronological(t: Tables, s: SessionId, ended: DateTime, now: DateTime, cutoff: DateTime, hours: nat)
    requires s in t.sessions && Valid(ended) && Valid(now) && Valid(cutoff)
    ensures t.sessions[s].endedAt == Some(Rfc3339(ended))
            && Instant(cutoff) == Instant(now) - hours * 3600 * 1_000_000_000 ==>
              (s !in Purged(t, Rfc3339(cutoff)).sessions <==>
               t.sessions[s].status == Completed && Instant(now) - Instant(ended) > hours * 3600 * 1_000_000_000)
  {
    TextOrderIsTimeOrder(ended, cutoff);
  }

  // ---- The delete, session by session ----

  function ExpiredSessions(t: Tables, cutoff: string): set<SessionId> {
    set s | s in t.sessions && Expired(t.sessions[s], cutoff)
  }

  function NotIn(gone: set<SessionId>): WriteRecord -> bool {
    (r: WriteRecord) => r.session !in gone
  }

  function NotOf(s: SessionId): WriteRecord -> bool {
    (r: WriteRecord) => r.session != s
  }

  /** The tables once the sessions `gone` and everything that refers to them have been deleted. */
  function Without(t: Tables, gone: set<SessionId>): Tables {
    Tables(t.sessions - gone,
           (set x | x in t.peers && x.0 !in gone),
           Filter(t.spans, NotIn(gone)),
           Filter(t.metrics, NotIn(gone)),
           Filter(t.logs, NotIn(gone)))
  }

  /** One session row deleted, and ON DELETE CASCADE for it. */
  function Cascaded(t: Tables, s: SessionId): Tables {
    Tables(t.sessions - {s},
           (set x | x in t.peers && x.0 != s),
           Filter(t.spans, NotOf(s)),
           Filter(t.metrics, NotOf(s)),
           Filter(t.logs, NotOf(s)))
  }

  /** An expired session that is no longer to be visited. */
  predicate Visited(t: Tables, cutoff: string, todo: set<SessionId>, s: SessionId) {
    s in t.sessions && s !in todo && Expired(t.sessions[s], cutoff)
  }

  lemma {:induction false} StillThere(t: Tables, gone: set<SessionId>, s: SessionId)
    requires s in t.sessions && s !in gone
    ensures s in Without(t, gone).sessions && Without(t, gone).sessions[s] == t.sessions[s]
  {
  }

  lemma {:induction false} WithoutNone(t: Tables)
    ensures Without(t, {}) == t
  {
    FilterAll(t.spans, NotIn({}));
    FilterAll(t.metrics, NotIn({}));
    FilterAll(t.logs, NotIn({}));
  }

  lemma {:induction false} WithoutOneMore(t: Tables, gone: set<SessionId>, s: SessionId)
    ensures Without(t, gone + {s}) == Cascaded(Without(t, gone), s)
  {
    FilterTwice(t.spans, NotIn(gone), NotOf(s), NotIn(gone + {s}));
    FilterTwice(t.metrics, NotIn(gone), NotOf(s), NotIn(gone + {s}));
    FilterTwice(t.logs, NotIn(gone), NotOf(s), NotIn(gone + {s}));
    assert t.sessions - gone - {s} == t.sessions - (gone + {s});
  }

  /** Since every row refers to a stored session, deleting the expired is keeping the others. */
  lemma {:induction false} WithoutExpiredIsPurged(t: Tables, cutoff: string)
    requires ForeignKeys(t)
    ensures Without(t, ExpiredSessions(t, cutoff)) == Purged(t, cutoff)
  {
    var gone, kept := ExpiredSessions(t, cutoff), Kept(t, cutoff);
    assert t.sessions.Keys - kept == gone;
    forall k ensures Filter(Rows(t, k), NotIn(gone)) == Filter(Rows(t, k), InSessions(kept)) {
      FilterAgree(Rows(t, k), NotIn(gone), InSessions(kept));
    }
    assert Filter(Rows(t, Span), NotIn(gone)) == Filter(t.spans, NotIn(gone));
    assert Filter(Rows(t, Metric), NotIn(gone)) == Filter(t.metrics, NotIn(gone));
    assert Filter(Rows(t, Log), NotIn(gone)) == Filter(t.logs, NotIn(gone));
  }

  /** A storage fault at one statement of a transaction; statement 0 is BEGIN, the last one is COMMIT. */
  type Fault = Option<nat>

  predicate Strikes(fault: Fault, statements: nat) {
    fault.Some? && fault.value < statements
  }

  /** A fault strikes a transaction when it hits one of its statements. */
  lemma StrikesMeaning(fault: Fault, statements: nat)
    ensures Strikes(fault, statements) <==> exists i :: 0 <= i < statements && fault == Some(i)
  {
    if Strikes(fault, statements) {
      assert fault == Some(fault.value);
    }
  }

  class Store {
    var tables: Tables

    constructor ()
      ensures tables == EMPTY
    {
      tables := EMPTY;
    }

    /** A transaction of |peers| + 3 statements; a repeated peer violates the key of debug_session_peers. */
    method CreateDebugSession(id: SessionId, peers: seq<PeerId>, fault: Fault) returns (ok: bool)
      requires ForeignKeys(tables)
      modifies this
      ensures ok <==> CreateAllowed(old(tables), id, peers) && !Strikes(fault, |peers| + 3)
      ensures tables == if ok then Created(old(tables), id, peers) else old(tables)
    {
      if fault == Some(0) || fault == Some(1) || id in tables.sessions {
        return false;
      }
      var tx := tables.(sessions := tables.sessions[id := SessionRow(Active, None)]);
      for i := 0 to |peers|
        invariant NoDuplicates(peers[..i]) && !Strikes(fault, i + 2)
        invariant tx == Created(tables, id, peers[..i])
      {
        assert (id, peers[i]) in tx.peers <==> peers[i] in peers[..i];
        if fault == Some(i + 2) || (id, peers[i]) in tx.peers {
          return false;
        }
        tx := tx.(peers := tx.peers + {(id, peers[i])});
        assert peers[..i + 1] == peers[..i] + [peers[i]];
      }
      assert peers[..|peers|] == peers;
      if fault == Some(|peers| + 2) {
        return false;
      }
      tables := tx;
      ok := true;
    }

    /** Affects a row exactly when the session exists and is still active. */
    method EndDebugSession(id: SessionId, now: string, fault: Fault) returns (result: Option<bool>)
      modifies this
      ensures result == if Strikes(fault, 1) then None else Some(EndMatches(old(tables), id))
      ensures tables == if result.Some? then Ended(old(tables), id, now) else old(tables)
    {
      if fault == Some(0) {
        return None;
      }
      result := Some(EndMatches(tables, id));
      if EndMatches(tables, id) {
        tables := tables.(sessions := tables.sessions[id := SessionRow(Completed, Some(now))]);
      }
    }

    /**
     The statement visits the session rows in an arbitrary order, deletes those its WHERE clause matches, and for
     each of them the rows that refer to it.
     */
    method DeleteExpiredSessions(cutoff: string, fault: Fault) returns (deleted: Option<nat>)
      requires ForeignKeys(tables)
      modifies this
      ensures deleted.None? <==> Strikes(fault, 1)
      ensures deleted.Some? ==> deleted.value == |ExpiredSessions(old(tables), cutoff)|
      ensures tables == if deleted.Some? then Purged(old(tables), cutoff) else old(tables)
      ensures forall s :: s in old(tables).sessions && old(tables).sessions[s].status == Active ==>
                s in tables.sessions && tables.sessions[s] == old(tables).sessions[s]
    {
      if fault == Some(0) {
        return None;
      }
      var before := tables;
      var tx, todo, count := before, before.sessions.Keys, 0;
      ghost var gone: set<SessionId> := {};
      WithoutNone(before);
      while todo != {}
        invariant tables == before && tx == Without(before, gone) && count == |gone|
        invariant todo <= before.sessions.Keys
        invariant forall s :: s in gone <==> Visited(before, cutoff, todo, s)
        decreases todo
      {
        var s :| s in todo;
        StillThere(before, gone, s);
        if Expired(tx.sessions[s], cutoff) {
          WithoutOneMore(before, gone, s);
          tx := Cascaded(tx, s);
          gone, count := gone + {s}, count + 1;
        }
        todo := todo - {s};
      }
      assert gone == ExpiredSessions(before, cutoff);
      WithoutExpiredIsPurged(before, cutoff);
      tables := tx;
      deleted := Some(count);
    }

    /** All or nothing: one missing session or one fault discards every insert of the batch. */
    method WriteBatch(batch: seq<WriteRecord>, fault: Fault) returns (ok: bool)
      modifies this
      ensures ok <==> Insertable(old(tables), batch) && !Strikes(fault, |batch| + 2)
      ensures tables == if ok then Inserted(old(tables), batch) else old(tables)
    {
      if fault == Some(0) {
        return false;
      }
      var tx := tables;
      assert tx == Inserted(tables, batch[..0]);
      for i := 0 to |batch|
        invariant tables == old(tables) && tx == Inserted(tables, batch[..i])
        invariant Insertable(tables, batch[..i]) && !Strikes(fault, i + 1)
      {
        var r := batch[i];
        if fault == Some(i + 1) || r.session !in tx.sessions {
          return false;
        }
        InsertedOne(tables, batch[..i], r);
        match r.kind {
          case Span => tx := tx.(spans := tx.spans + [r]);
          case Metric => tx := tx.(metrics := tx.metrics + [r]);
          case Log => tx := tx.(logs := tx.logs + [r]);
        }
        assert batch[..i + 1] == batch[..i] + [r];
      }
      assert batch[..|batch|] == batch;
      if fault == Some(|batch| + 1) {
        return false;
      }
      tables := tx;
      ok := true;
    }
  }
}
