/**
 The rate limiter of the live trace inspector (src/receiver/trace.rs). A call reads the clock once to test the
 cooldown and, if it samples, once more for the instant it stores; the lock is held across both reads.
 */
module TraceSampler {
  import opened Seqs

  /** Nanoseconds. */
  const COOLDOWN: nat := 1_000_000_000

  /** One call: the reading it tests with and the reading it would store. */
  datatype Call = Call(check: nat, store: nat)

  /** `elapsed` never goes below zero, so an earlier reading is not due either. */
  predicate Due(last: Option<nat>, check: nat) {
    last.None? || check >= last.value + COOLDOWN
  }

  /** The calls that sample, by position. */
  function Picks(calls: seq<Call>): (picks: seq<nat>)
    ensures forall k :: 0 <= k < |picks| ==> picks[k] < |calls|
  {
    if calls == [] then []
    else
      var n := |calls| - 1;
      var before := Picks(calls[..n]);
      if Due(LastStored(calls[..n], before), calls[n].check) then before + [n] else before
  }

  function LastStored(calls: seq<Call>, picks: seq<nat>): Option<nat>
    requires forall k :: 0 <= k < |picks| ==> picks[k] < |calls|
  {
    if picks == [] then None else Some(calls[picks[|picks| - 1]].store)
  }

  class Sampler {
    var last: Option<nat>
    /** Every call so far. */
    ghost var calls: seq<Call>

    ghost predicate Valid()
      reads this
    {
      last == LastStored(calls, Picks(calls))
    }

    constructor ()
      ensures Valid() && calls == []
    {
      last, calls := None, [];
    }

    /** Samples exactly when the history says so. */
    method ShouldSample(now: Call) returns (sampled: bool)
      requires Valid()
      modifies this
      ensures Valid() && calls == old(calls) + [now]
      ensures Picks(calls) == Picks(old(calls)) + if sampled then [|old(calls)|] else []
    {
      assert (calls + [now])[..|calls|] == calls;
      calls := calls + [now];
      match last {
        case None => last, sampled := Some(now.store), true;
        case Some(prev) =>
          sampled := now.check >= prev + COOLDOWN;
          if sampled {
            last := Some(now.store);
          }
      }
    }
  }

  /** The clock never runs backwards, within a call or between calls. */
  ghost predicate Monotone(calls: seq<Call>) {
    && (forall i :: 0 <= i < |calls| ==> calls[i].check <= calls[i].store)
    && (forall i, j :: 0 <= i < j < |calls| ==> calls[i].store <= calls[j].check)
  }

  /** A choice of calls, in order, each checked at least one second after the one before was stored. */
  ghost predicate Spaced(calls: seq<Call>, chosen: seq<nat>) {
    && (forall k :: 0 <= k < |chosen| ==> chosen[k] < |calls|)
    && (forall k :: 0 < k < |chosen| ==>
          chosen[k - 1] < chosen[k] && calls[chosen[k]].check >= calls[chosen[k - 1]].store + 1_000_000_000)
  }

  lemma {:induction false} PicksAreSpaced(calls: seq<Call>)
    ensures Spaced(calls, Picks(calls))
  {
    if calls != [] {
      var n := |calls| - 1;
      var before := Picks(calls[..n]);
      PicksAreSpaced(calls[..n]);
      assert forall k :: 0 <= k < |before| ==> before[k] < n && calls[..n][before[k]] == calls[before[k]];
    }
  }

  lemma {:induction false} StoredApart(calls: seq<Call>, chosen: seq<nat>, k: nat, l: nat)
    requires Monotone(calls) && Spaced(calls, chosen) && k <= l < |chosen|
    ensures calls[chosen[l]].store >= calls[chosen[k]].store + (l - k) * 1_000_000_000
  {
    if k < l {
      StoredApart(calls, chosen, k, l - 1);
    }
  }

  /** A window of the given length holds the stored instants of at most one sample a second, plus one. */
  lemma {:induction false} WindowBound(calls: seq<Call>, k: nat, l: nat, start: nat, length: nat)
    requires Monotone(calls) && k <= l < |Picks(calls)|
    requires start <= calls[Picks(calls)[k]].store && calls[Picks(calls)[l]].store <= start + length
    ensures l - k + 1 <= length / 1_000_000_000 + 1
  {
    PicksAreSpaced(calls);
    StoredApart(calls, Picks(calls), k, l);
  }

  /** When the choice ends with the last call, greedy has either kept up already or samples that call too. */
  lemma {:induction false} LastChosen(calls: seq<Call>, chosen: seq<nat>)
    requires Monotone(calls) && Spaced(calls, chosen) && chosen != [] && chosen[|chosen| - 1] == |calls| - 1
    requires var m, before := |chosen| - 1, calls[..|calls| - 1];
             m <= |Picks(before)| && (m > 0 ==> Picks(before)[m - 1] <= chosen[m - 1])
    ensures |chosen| <= |Picks(calls)| && Picks(calls)[|chosen| - 1] < |calls|
  {
  }

  /** Greedy stays ahead: its m-th sample comes no later than the m-th of any other spaced choice. */
  lemma {:induction false} GreedyStaysAhead(calls: seq<Call>, chosen: seq<nat>)
    requires Monotone(calls) && Spaced(calls, chosen)
    ensures |chosen| <= |Picks(calls)|
    ensures chosen != [] ==> Picks(calls)[|chosen| - 1] <= chosen[|chosen| - 1]
    decreases |calls|
  {
    if chosen != [] {
      var n, m := |calls| - 1, |chosen| - 1;
      if chosen[m] < n {
        IncreasingBelow(calls, chosen, n);
        GreedyStaysAhead(calls[..n], chosen);
        PicksExtend(calls, m);
      } else {
        var rest := chosen[..m];
        SpacedPrefix(calls, chosen);
        IncreasingBelow(calls, rest, n);
        GreedyStaysAhead(calls[..n], rest);
        LastChosen(calls, chosen);
      }
    }
  }

  lemma {:induction false} PicksExtend(calls: seq<Call>, k: nat)
    requires calls != [] && k < |Picks(calls[..|calls| - 1])|
    ensures k < |Picks(calls)| && Picks(calls)[k] == Picks(calls[..|calls| - 1])[k]
  {
  }

  lemma {:induction false} SpacedPrefix(calls: seq<Call>, chosen: seq<nat>)
    requires Spaced(calls, chosen) && chosen != []
    ensures Spaced(calls, chosen[..|chosen| - 1])
    ensures |chosen| > 1 ==> chosen[|chosen| - 2] < chosen[|chosen| - 1]
  {
  }

  lemma {:induction false} IncreasingBelow(calls: seq<Call>, chosen: seq<nat>, n: nat)
    requires Monotone(calls) && Spaced(calls, chosen) && n == |calls| - 1
    requires chosen == [] || chosen[|chosen| - 1] < n
    ensures Monotone(calls[..n]) && Spaced(calls[..n], chosen)
  {
    if chosen != [] {
      var m := |chosen| - 1;
      AllBelow(calls, chosen, m);
    }
  }

  lemma {:induction false} AllBelow(calls: seq<Call>, chosen: seq<nat>, m: nat)
    requires Spaced(calls, chosen) && m < |chosen|
    ensures forall k :: 0 <= k <= m ==> chosen[k] <= chosen[m]
  {
    if m > 0 {
      AllBelow(calls, chosen, m - 1);
    }
  }

  /** No other choice of calls with the same check-to-store gap yields more samples. */
  lemma {:induction false} GreedyIsOptimal(calls: seq<Call>, chosen: seq<nat>)
    requires Monotone(calls) && Spaced(calls, chosen)
    ensures Spaced(calls, Picks(calls)) && |chosen| <= |Picks(calls)|
  {
    PicksAreSpaced(calls);
    GreedyStaysAhead(calls, chosen);
  }
}
