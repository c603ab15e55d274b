/**
 The registry of HOPR sessions seen in telemetry (src/session_tracker.rs). The class merges one participant at
 a time in place; the lemmas say what any log of updates leaves behind.
 */
module SessionTracker {
  import opened Seqs
  import opened Types
  import Database

  datatype Role = Entry | Relay | Exit

  datatype Participant = Participant(peer: PeerId, role: Role)

  datatype HoprSession = HoprSession(protocol: string, hopCount: nat, participants: seq<Participant>)

  datatype Update = Update(id: string, protocol: string, hopCount: nat, participant: Participant)

  type Registry = map<string, HoprSession>

  function PeersOf(ps: seq<Participant>): seq<PeerId> {
    seq(|ps|, i requires 0 <= i < |ps| => ps[i].peer)
  }

  /** The position of the first entry for `peer`, or |ps|. */
  function Position(ps: seq<Participant>, peer: PeerId): (i: nat)
    ensures i <= |ps| && (i < |ps| ==> ps[i].peer == peer)
    ensures forall j :: 0 <= j < i ==> ps[j].peer != peer
  {
    if ps == [] || ps[0].peer == peer then 0 else 1 + Position(ps[1..], peer)
  }

  function MergeParticipant(ps: seq<Participant>, p: Participant): seq<Participant> {
    var i := Position(ps, p.peer);
    if i < |ps| then ps[i := ps[i].(role := p.role)] else ps + [p]
  }

  function Merge(registry: Registry, u: Update): Registry {
    if u.id in registry then
      registry[u.id := registry[u.id].(hopCount := u.hopCount,
                                       participants := MergeParticipant(registry[u.id].participants, u.participant))]
    else
      registry[u.id := HoprSession(u.protocol, u.hopCount, [u.participant])]
  }

  function MergeAll(registry: Registry, log: seq<Update>): Registry {
    if log == [] then registry else Merge(MergeAll(registry, log[..|log| - 1]), log[|log| - 1])
  }

  class Tracker {
    var sessions: Registry

    constructor ()
      ensures sessions == map[]
    {
      sessions := map[];
    }

    method UpdateSession(u: Update)
      modifies this
      ensures sessions == Merge(old(sessions), u)
    {
      if u.id in sessions {
        var s := sessions[u.id].(hopCount := u.hopCount);
        var i := 0;
        while i < |s.participants| && s.participants[i].peer != u.participant.peer
          invariant i <= |s.participants|
          invariant forall j :: 0 <= j < i ==> s.participants[j].peer != u.participant.peer
        {
          i := i + 1;
        }
        if i < |s.participants| {
          s := s.(participants := s.participants[i := s.participants[i].(role := u.participant.role)]);
        } else {
          s := s.(participants := s.participants + [u.participant]);
        }
        sessions := sessions[u.id := s];
      } else {
        sessions := sessions[u.id := HoprSession(u.protocol, u.hopCount, [u.participant])];
      }
    }

    method GetSessionPeers(id: string) returns (peers: seq<PeerId>)
      ensures peers == if id in sessions then PeersOf(sessions[id].participants) else []
      ensures id in sessions ==> |peers| == |sessions[id].participants|
                                 && forall i :: 0 <= i < |peers| ==> peers[i] == sessions[id].participants[i].peer
    {
      peers := [];
      if id in sessions {
        var ps := sessions[id].participants;
        for i := 0 to |ps|
          invariant peers == PeersOf(ps[..i])
        {
          peers := peers + [ps[i].peer];
        }
        assert ps[..|ps|] == ps;
      }
    }
  }

  // ---- What a log of updates means, independently of the merging ----

  function OfSession(id: string): Update -> bool {
    (u: Update) => u.id == id
  }

  /** The index of the first update that mentions `peer`, or |us|. */
  function FirstMention(us: seq<Update>, peer: PeerId): (i: nat)
    ensures i <= |us| && (i < |us| ==> us[i].participant.peer == peer)
    ensures forall j :: 0 <= j < i ==> us[j].participant.peer != peer
  {
    if us == [] || us[0].participant.peer == peer then 0 else 1 + FirstMention(us[1..], peer)
  }

  /** The index of the last update that mentions `peer`, or -1. */
  function LastMention(us: seq<Update>, peer: PeerId): (i: int)
    ensures -1 <= i < |us| && (i >= 0 ==> us[i].participant.peer == peer)
    ensures forall j :: i < j < |us| ==> us[j].participant.peer != peer
  {
    if us == [] then -1
    else if us[|us| - 1].participant.peer == peer then |us| - 1
    else LastMention(us[..|us| - 1], peer)
  }

  /**
   `ps` lists exactly the peers the updates mention, once each, in order of first mention, each with the role of
   its last mention.
   */
  ghost predicate Summarises(ps: seq<Participant>, us: seq<Update>) {
    && NoDuplicates(PeersOf(ps))
    && (forall i :: 0 <= i < |us| ==> us[i].participant.peer in PeersOf(ps))
    && (forall i :: 0 <= i < |ps| ==> HasLatestRole(ps[i], us))
    && (forall i, j :: 0 <= i < j < |ps| ==> FirstMention(us, ps[i].peer) < FirstMention(us, ps[j].peer))
  }

  ghost predicate HasLatestRole(p: Participant, us: seq<Update>) {
    var last := LastMention(us, p.peer);
    0 <= last && p.role == us[last].participant.role
  }

  lemma {:induction false} FirstMentionOne(us: seq<Update>, u: Update, peer: PeerId)
    ensures FirstMention(us + [u], peer)
         == if FirstMention(us, peer) < |us| then FirstMention(us, peer)
            else if u.participant.peer == peer then |us| else |us| + 1
  {
    if us == [] {
      assert us + [u] == [u];
    } else {
      assert (us + [u])[1..] == us[1..] + [u];
      FirstMentionOne(us[1..], u, peer);
    }
  }

  lemma {:induction false} LastMentionOne(us: seq<Update>, u: Update, peer: PeerId)
    ensures LastMention(us + [u], peer) == if u.participant.peer == peer then |us| else LastMention(us, peer)
  {
  }

  lemma {:induction false} RoleKept(p: Participant, us: seq<Update>, u: Update)
    requires HasLatestRole(p, us) && u.participant.peer != p.peer
    ensures HasLatestRole(p, us + [u])
  {
  }

  lemma {:induction false} Mentioned(p: Participant, us: seq<Update>)
    requires HasLatestRole(p, us)
    ensures FirstMention(us, p.peer) < |us|
  {
  }

  /** A later update moves no first mention, and comes after all of them. */
  lemma {:induction false} OrderKept(p: Participant, q: Participant, us: seq<Update>, u: Update)
    requires HasLatestRole(p, us)
    requires FirstMention(us, p.peer) < FirstMention(us, q.peer) || FirstMention(us, q.peer) == |us|
    ensures FirstMention(us + [u], p.peer) < FirstMention(us + [u], q.peer)
  {
    Mentioned(p, us);
    FirstMentionOne(us, u, p.peer);
    FirstMentionOne(us, u, q.peer);
  }

  /** A known peer: only its role changes. */
  lemma {:induction false} MergeKnown(ps: seq<Participant>, us: seq<Update>, u: Update, at: nat)
    requires Summarises(ps, us) && at < |ps| && ps[at].peer == u.participant.peer
    ensures Summarises(ps[at := u.participant], us + [u])
  {
    var qs, vs := ps[at := u.participant], us + [u];
    assert PeersOf(qs) == PeersOf(ps);
    forall i | 0 <= i < |qs| ensures HasLatestRole(qs[i], vs) {
      if i == at {
        LastMentionOne(us, u, u.participant.peer);
      } else {
        assert PeersOf(ps)[i] != PeersOf(ps)[at];
        RoleKept(ps[i], us, u);
      }
    }
    forall i | 0 <= i < |vs| ensures vs[i].participant.peer in PeersOf(qs) {
      assert PeersOf(ps)[at] == u.participant.peer;
    }
    forall i, j | 0 <= i < j < |qs| ensures FirstMention(vs, qs[i].peer) < FirstMention(vs, qs[j].peer) {
      assert qs[i].peer == ps[i].peer && qs[j].peer == ps[j].peer;
      OrderKept(ps[i], ps[j], us, u);
    }
  }

  /** A new peer is appended, with the role it came with. */
  lemma {:induction false} MergeNew(ps: seq<Participant>, us: seq<Update>, u: Update)
    requires Summarises(ps, us) && u.participant.peer !in PeersOf(ps)
    ensures Summarises(ps + [u.participant], us + [u])
  {
    var qs, vs, peer := ps + [u.participant], us + [u], u.participant.peer;
    assert PeersOf(qs) == PeersOf(ps) + [peer];
    forall i | 0 <= i < |qs| ensures HasLatestRole(qs[i], vs) {
      if i == |ps| {
        LastMentionOne(us, u, peer);
      } else {
        assert PeersOf(ps)[i] != peer;
        RoleKept(ps[i], us, u);
      }
    }
    forall i, j | 0 <= i < j < |qs| ensures FirstMention(vs, qs[i].peer) < FirstMention(vs, qs[j].peer) {
      NewComesLast(ps, us, u, i, j);
    }
    forall i | 0 <= i < |vs| ensures vs[i].participant.peer in PeersOf(qs) {
      MentionedOrNew(ps, us, u, i);
    }
  }

  lemma {:induction false} MentionedOrNew(ps: seq<Participant>, us: seq<Update>, u: Update, i: nat)
    requires Summarises(ps, us) && i <= |us|
    ensures (us + [u])[i].participant.peer in PeersOf(ps) + [u.participant.peer]
  {
  }

  lemma {:induction false} NewComesLast(ps: seq<Participant>, us: seq<Update>, u: Update, i: nat, j: nat)
    requires Summarises(ps, us) && u.participant.peer !in PeersOf(ps) && i < j <= |ps|
    ensures FirstMention(us + [u], ps[i].peer) < FirstMention(us + [u], (ps + [u.participant])[j].peer)
  {
    var q := (ps + [u.participant])[j];
    if j == |ps| {
      forall l | 0 <= l < |us| ensures us[l].participant.peer != q.peer {
        assert us[l].participant.peer in PeersOf(ps);
      }
    }
    assert HasLatestRole(ps[i], us);
    OrderKept(ps[i], q, us, u);
  }

  lemma {:induction false} MergeSummarises(ps: seq<Participant>, us: seq<Update>, u: Update)
    requires Summarises(ps, us)
    ensures Summarises(MergeParticipant(ps, u.participant), us + [u])
  {
    var at := Position(ps, u.participant.peer);
    if at < |ps| {
      assert ps[at].(role := u.participant.role) == u.participant;
      MergeKnown(ps, us, u, at);
    } else {
      MergeNew(ps, us, u);
    }
  }

  /**
   After any log of updates a session is registered exactly when some update named it; it keeps the first
   protocol, the latest hop count, and summarises its participants.
   */
  lemma {:induction false} LogMeaning(log: seq<Update>, id: string)
    ensures Remembers(MergeAll(map[], log), id, Filter(log, OfSession(id)))
  {
    if log != [] {
      var before, u := log[..|log| - 1], log[|log| - 1];
      LogMeaning(before, id);
      assert log == before + [u];
      FilterOne(before, u, OfSession(id));
      MergeRemembers(MergeAll(map[], before), id, Filter(before, OfSession(id)), u);
    }
  }

  ghost predicate Remembers(registry: Registry, id: string, us: seq<Update>) {
    && (id in registry <==> us != [])
    && (us != [] ==>
          && registry[id].protocol == us[0].protocol
          && registry[id].hopCount == us[|us| - 1].hopCount
          && Summarises(registry[id].participants, us))
  }

  lemma MergeRemembers(registry: Registry, id: string, us: seq<Update>, u: Update)
    requires Remembers(registry, id, us)
    ensures Remembers(Merge(registry, u), id, us + if u.id == id then [u] else [])
  {
    if u.id != id {
      assert us + [] == us;
    } else if us != [] {
      MergeSummarises(registry[id].participants, us, u);
    } else {
      SummaryOfOne(u);
      assert us + [u] == [u];
    }
  }

  lemma {:induction false} SummaryOfOne(u: Update)
    ensures Summarises([u.participant], [u])
  {
    assert LastMention([u], u.participant.peer) == 0;
    assert PeersOf([u.participant])[0] == u.participant.peer;
  }

  /** A debug session created from a HOPR session's peers never breaks the (session, peer) key. */
  lemma ResolvedPeersCanBeStored(log: seq<Update>, id: string, t: Database.Tables, unused: SessionId)
    requires id in MergeAll(map[], log) && unused !in t.sessions
    ensures Database.CreateAllowed(t, unused, PeersOf(MergeAll(map[], log)[id].participants))
  {
    LogMeaning(log, id);
  }
}
