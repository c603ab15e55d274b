/**
 The channel watcher (src/blokli/subscriptions.rs): polls the watched keys, keeps the last known state of every
 channel, and emits an event when the status, balance or ticket index moved.
 */
module ChannelWatcher {
  import opened Seqs

  datatype Channel = Channel(id: string, source: string, destination: string, status: string, balance: string,
                             epoch: nat, ticketIndex: nat, closureTime: Option<string>)

  datatype Event = Event(id: string, source: string, destination: string, status: string, balance: string)

  function EventOf(ch: Channel): Event {
    Event(ch.id, ch.source, ch.destination, ch.status, ch.balance)
  }

  predicate Differs(a: Channel, b: Channel) {
    a.status != b.status || a.balance != b.balance || a.ticketIndex != b.ticketIndex
  }

  /** One key's poll: the channels returned, or nothing when the query failed. */
  type PollResult = Option<seq<Channel>>

  /** All channels the successful queries returned, in the order they were looked at. */
  function Observed(results: seq<PollResult>): seq<Channel> {
    if results == [] then []
    else
      var last := results[|results| - 1];
      Observed(results[..|results| - 1]) + if last.Some? then last.value else []
  }

  /** A round is the sum of its parts, one successful query contributes what it returned, a failed one nothing. */
  lemma {:induction false} ObservedParts(a: seq<PollResult>, b: seq<PollResult>, channels: seq<Channel>)
    ensures Observed(a + b) == Observed(a) + Observed(b)
    ensures Observed([Some(channels)]) == channels && Observed([None]) == []
  {
    if b == [] {
      assert a + b == a;
    } else {
      var front, last := b[..|b| - 1], b[|b| - 1];
      assert (a + b)[..|a + b| - 1] == a + front;
      ObservedParts(a, front, channels);
      ConcatAssociates(Observed(a), Observed(front), if last.Some? then last.value else []);
    }
    var failed: seq<PollResult> := [None];
    assert [Some(channels)][..0] == [] && failed[..0] == [];
  }

  /** Each channel a query returned is observed, after those of the earlier queries and before those of the later. */
  lemma {:induction false} ObservedAt(results: seq<PollResult>, i: nat)
    requires i < |results| && results[i].Some?
    ensures Observed(results) == Observed(results[..i]) + results[i].value + Observed(results[i + 1..])
  {
    assert results == results[..i] + [results[i]] + results[i + 1..];
    ObservedParts(results[..i] + [results[i]], results[i + 1..], results[i].value);
    ObservedParts(results[..i], [results[i]], results[i].value);
  }

  function Succeeded(): PollResult -> bool {
    (r: PollResult) => r.Some?
  }

  /** Leaving the failed queries out changes nothing. */
  lemma {:induction false} FailuresAreInvisible(results: seq<PollResult>)
    ensures Observed(Filter(results, Succeeded())) == Observed(results)
  {
    if results != [] {
      var n := |results| - 1;
      FailuresAreInvisible(results[..n]);
      var kept, last := Filter(results[..n], Succeeded()), results[n];
      FilterLast(results, Succeeded());
      assert results == results[..n] + [last];
      ObservedParts(results[..n], [last], if last.Some? then last.value else []);
      if last.Some? {
        ObservedParts(kept, [last], last.value);
      } else {
        assert last == None && kept + [] == kept;
        assert Observed(results[..n]) + [] == Observed(results[..n]);
      }
    }
  }

  /** The most recent observation of a channel. */
  function LastSeen(seen: seq<Channel>, id: string): Option<Channel> {
    if seen == [] then None
    else if seen[|seen| - 1].id == id then Some(seen[|seen| - 1])
    else LastSeen(seen[..|seen| - 1], id)
  }

  /** The observation at the end of `seen` is the first of its channel, or differs from the one before it. */
  predicate Changes(seen: seq<Channel>, ch: Channel) {
    var prev := LastSeen(seen, ch.id);
    prev.None? || Differs(prev.value, ch)
  }

  /** The channel was not seen before, or was last seen with another status, balance or ticket index. */
  ghost predicate News(seen: seq<Channel>, ch: Channel) {
    || (forall j :: 0 <= j < |seen| ==> seen[j].id != ch.id)
    || (exists j :: 0 <= j < |seen| && IsLast(seen, j, ch.id)
                    && (seen[j].status != ch.status || seen[j].balance != ch.balance
                        || seen[j].ticketIndex != ch.ticketIndex))
  }

  /** Position `j` is the last at which the channel was seen. */
  ghost predicate IsLast(seen: seq<Channel>, j: nat, id: string)
    requires j < |seen|
  {
    seen[j].id == id && forall l :: j < l < |seen| ==> seen[l].id != id
  }

  lemma {:induction false} LastSeenMeaning(seen: seq<Channel>, id: string)
    ensures LastSeen(seen, id).None? <==> forall j :: 0 <= j < |seen| ==> seen[j].id != id
    ensures LastSeen(seen, id).Some? ==> exists j :: 0 <= j < |seen| && IsLast(seen, j, id)
    ensures forall j :: 0 <= j < |seen| && IsLast(seen, j, id) ==> LastSeen(seen, id) == Some(seen[j])
  {
    if seen != [] {
      var n := |seen| - 1;
      if seen[n].id == id {
        assert IsLast(seen, n, id);
      } else {
        LastSeenMeaning(seen[..n], id);
        assert forall j :: 0 <= j < n && IsLast(seen[..n], j, id) ==> IsLast(seen, j, id);
        assert forall j :: 0 <= j < n && IsLast(seen, j, id) ==> IsLast(seen[..n], j, id);
      }
    }
  }

  lemma {:induction false} ChangesMeaning(seen: seq<Channel>, ch: Channel)
    ensures Changes(seen, ch) <==> News(seen, ch)
  {
    LastSeenMeaning(seen, ch.id);
  }

  /** The positions at which an event is due, judged by the observations alone. */
  function ChangePoints(seen: seq<Channel>): (points: seq<nat>)
    ensures forall k :: 0 <= k < |points| ==> points[k] < |seen|
  {
    if seen == [] then []
    else
      var n := |seen| - 1;
      ChangePoints(seen[..n]) + if Changes(seen[..n], seen[n]) then [n] else []
  }

  function EventsOf(seen: seq<Channel>): seq<Event> {
    if seen == [] then []
    else
      var n := |seen| - 1;
      EventsOf(seen[..n]) + if Changes(seen[..n], seen[n]) then [EventOf(seen[n])] else []
  }

  /** The cache holds the channel exactly when it was seen, in a state that no test can tell from the last one. */
  ghost predicate Agrees(cache: map<string, Channel>, seen: seq<Channel>, id: string) {
    var last := LastSeen(seen, id);
    if last.Some? then id in cache && !Differs(cache[id], last.value) else id !in cache
  }

  lemma {:induction false} SeenOne(seen: seq<Channel>, ch: Channel, id: string)
    ensures LastSeen(seen + [ch], id) == if ch.id == id then Some(ch) else LastSeen(seen, id)
    ensures EventsOf(seen + [ch]) == EventsOf(seen) + if Changes(seen, ch) then [EventOf(ch)] else []
  {
  }

  class Watcher {
    var lastKnown: map<string, Channel>
    /** Everything sent to the broadcast channel. */
    var events: seq<Event>
    ghost var seen: seq<Channel>

    /** The cache agrees with the last observation wherever a difference would be noticed. */
    ghost predicate Valid()
      reads this
    {
      && events == EventsOf(seen)
      && forall id :: Agrees(lastKnown, seen, id)
    }

    constructor ()
      ensures Valid() && seen == [] && events == []
    {
      lastKnown, events, seen := map[], [], [];
    }

    /** One round over the watched keys; a failed query leaves its channels as they were. */
    method Poll(results: seq<PollResult>)
      requires Valid()
      modifies this
      ensures Valid() && seen == old(seen) + Observed(results)
    {
      for i := 0 to |results|
        invariant Valid() && seen == old(seen) + Observed(results[..i])
      {
        assert results[..i + 1][..i] == results[..i];
        if results[i].Some? {
          ObserveAll(results[i].value);
        }
      }
      assert results[..|results|] == results;
    }

    /** The loop over the channels one query returned. */
    method ObserveAll(channels: seq<Channel>)
      requires Valid()
      modifies this
      ensures Valid() && seen == old(seen) + channels
    {
      for j := 0 to |channels|
        invariant Valid() && seen == old(seen) + channels[..j]
      {
        Observe(channels[j]);
      }
    }

    /** The loop body: compare with the cached entry, and on a change emit and replace it. */
    method Observe(ch: Channel)
      requires Valid()
      modifies this
      ensures Valid() && seen == old(seen) + [ch]
      ensures events == old(events) + if Changes(old(seen), ch)
                                      then [Event(ch.id, ch.source, ch.destination, ch.status, ch.balance)] else []
    {
      assert Agrees(lastKnown, seen, ch.id);
      var changed := ch.id !in lastKnown || Differs(lastKnown[ch.id], ch);
      if changed {
        events := events + [EventOf(ch)];
        lastKnown := lastKnown[ch.id := ch];
      }
      seen := seen + [ch];
      SeenOne(old(seen), ch, ch.id);
      forall id ensures Agrees(lastKnown, seen, id) {
        assert Agrees(old(lastKnown), old(seen), id);
        SeenOne(old(seen), ch, id);
      }
    }
  }

  // ---- What a subscriber can rebuild from the events ----

  /** The status and balance of the last event for a channel. */
  function Replay(events: seq<Event>, id: string): Option<(string, string)> {
    if events == [] then None
    else if events[|events| - 1].id == id then Some((events[|events| - 1].status, events[|events| - 1].balance))
    else Replay(events[..|events| - 1], id)
  }

  /** After any observations the last event per channel carries exactly the status and balance last observed. */
  lemma {:induction false} ReplayRebuilds(seen: seq<Channel>, id: string)
    ensures Replay(EventsOf(seen), id)
         == if LastSeen(seen, id).None? then None
            else Some((LastSeen(seen, id).value.status, LastSeen(seen, id).value.balance))
  {
    if seen != [] {
      var n := |seen| - 1;
      ReplayRebuilds(seen[..n], id);
      var before := EventsOf(seen[..n]);
      assert before + [] == before;
      if Changes(seen[..n], seen[n]) {
        assert (before + [EventOf(seen[n])])[..|before|] == before;
      }
    }
  }

  lemma {:induction false} PointsIncrease(seen: seq<Channel>)
    ensures forall k, l :: 0 <= k < l < |ChangePoints(seen)| ==> ChangePoints(seen)[k] < ChangePoints(seen)[l]
  {
    if seen != [] {
      PointsIncrease(seen[..|seen| - 1]);
    }
  }

  /** The k-th event carries the channel as it was seen at the k-th point. */
  ghost predicate Carries(events: seq<Event>, seen: seq<Channel>, points: seq<nat>, k: nat)
    requires k < |events| == |points| && points[k] < |seen|
  {
    var ch := seen[points[k]];
    events[k] == Event(ch.id, ch.source, ch.destination, ch.status, ch.balance)
  }

  /** There is one event for each change point and no other, in order. */
  lemma {:induction false} EventsAreChangePoints(seen: seq<Channel>)
    ensures |EventsOf(seen)| == |ChangePoints(seen)|
    ensures forall k :: 0 <= k < |ChangePoints(seen)| ==> Carries(EventsOf(seen), seen, ChangePoints(seen), k)
  {
    if seen != [] {
      var n := |seen| - 1;
      EventsAreChangePoints(seen[..n]);
      forall k | 0 <= k < |ChangePoints(seen)| ensures Carries(EventsOf(seen), seen, ChangePoints(seen), k) {
        if k < |ChangePoints(seen[..n])| {
          assert Carries(EventsOf(seen[..n]), seen[..n], ChangePoints(seen[..n]), k);
        }
      }
    }
  }

  lemma {:induction false} ChangePointsMeaning(seen: seq<Channel>, k: nat)
    ensures k in ChangePoints(seen) <==> k < |seen| && News(seen[..k], seen[k])
  {
    if k < |seen| {
      PointsOfPrefix(seen, k);
      ChangesMeaning(seen[..k], seen[k]);
    }
  }

  /** Between two events of a channel it was only seen as the first of them reported it. */
  lemma {:induction false} QuietSince(seen: seq<Channel>, i: nat)
    requires i < |seen| && forall j :: i < j < |seen| && seen[j].id == seen[i].id ==> j !in ChangePoints(seen)
    ensures LastSeen(seen, seen[i].id).Some? && !Differs(seen[i], LastSeen(seen, seen[i].id).value)
    decreases |seen|
  {
    var n := |seen| - 1;
    if i < n {
      var before := seen[..n];
      assert forall j :: j in ChangePoints(before) ==> j in ChangePoints(seen);
      QuietSince(before, i);
      if seen[n].id == seen[i].id {
        assert n !in ChangePoints(seen) ==> !Changes(before, seen[n]);
      }
    }
  }

  /** Two successive events of one channel come from observations that differ in status, balance or ticket index. */
  lemma {:induction false} SuccessiveEventsDiffer(seen: seq<Channel>, i: nat, k: nat)
    requires i < k < |seen| && seen[i].id == seen[k].id && k in ChangePoints(seen)
    requires forall j :: i < j < k && seen[j].id == seen[i].id ==> j !in ChangePoints(seen)
    ensures seen[i].status != seen[k].status || seen[i].balance != seen[k].balance
            || seen[i].ticketIndex != seen[k].ticketIndex
  {
    PointsOfPrefix(seen, k);
    QuietSince(seen[..k], i);
  }

  lemma {:induction false} PointsOfPrefix(seen: seq<Channel>, k: nat)
    requires k < |seen|
    ensures forall j :: 0 <= j < k ==> (j in ChangePoints(seen[..k]) <==> j in ChangePoints(seen))
    ensures k in ChangePoints(seen) <==> Changes(seen[..k], seen[k])
  {
    var n := |seen| - 1;
    if k < n {
      assert seen[..n][..k] == seen[..k];
      PointsOfPrefix(seen[..n], k);
      assert forall j :: 0 <= j < n ==> (j in ChangePoints(seen[..n]) <==> j in ChangePoints(seen));
    }
  }
}
