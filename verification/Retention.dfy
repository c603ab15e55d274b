/**
 How long an ended session is kept. The end time in a row is the one its end was issued with, so a cleanup measures
 the retention period from the end.
 */
module Retention {
  import opened Seqs
  import opened Types
  import opened Timestamps
  import opened Database
  import opened Pipeline
  import Invariants
  import Lifecycle

  /** The i-th action of the run is an end of `s`, struck by no fault, that found the session stored and active. */
  ghost predicate EndedAt(c: Config, run: seq<Action>, i: nat, s: SessionId) {
    && i < |run| && run[i].End? && run[i].id == s && run[i].fault != Some(0)
    && Exec(c, INIT, run[..i]).Some?
    && var t := Exec(c, INIT, run[..i]).value.tables;
       s in t.sessions && t.sessions[s].status == Active
  }

  /** A completed row either was there before the step, or the step is the end that made it. */
  lemma {:induction false} CompletedStep(c: Config, st: State, a: Action, s: SessionId)
    requires Enabled(c, st, a)
    requires s in Apply(c, st, a).tables.sessions && Apply(c, st, a).tables.sessions[s].status == Completed
    ensures s in st.tables.sessions
    ensures var row := Apply(c, st, a).tables.sessions[s];
            || row == st.tables.sessions[s]
            || (a.End? && a.id == s && a.fault != Some(0) && st.tables.sessions[s].status == Active
                && row.endedAt == Some(a.now))
  {
  }

  /** A completed row carries the time of the end that completed it. */
  lemma {:induction false} EndTimeIsTheEnds(c: Config, run: seq<Action>, st: State, s: SessionId) returns (i: nat)
    requires Exec(c, INIT, run) == Some(st)
    requires s in st.tables.sessions && st.tables.sessions[s].status == Completed
    ensures EndedAt(c, run, i, s) && st.tables.sessions[s].endedAt == Some(run[i].now)
  {
    var n := |run| - 1;
    var mid := Exec(c, INIT, run[..n]).value;
    CompletedStep(c, mid, run[n], s);
    if st.tables.sessions[s] == mid.tables.sessions[s] {
      i := EndTimeIsTheEnds(c, run[..n], mid, s);
      assert run[..n][..i] == run[..i];
    } else {
      i := n;
    }
  }

  lemma {:induction false} SplitRun(c: Config, run: seq<Action>, k: nat)
    requires k <= |run| && Exec(c, INIT, run).Some?
    ensures Exec(c, INIT, run[..k]).Some?
    ensures Exec(c, Exec(c, INIT, run[..k]).value, run[k..]) == Exec(c, INIT, run)
  {
    assert run == run[..k] + run[k..];
    ExecConcat(c, INIT, run[..k], run[k..]);
  }

  /** A session is ended once: the end that completed it is the only one that did. */
  lemma {:induction false} EndedOnce(c: Config, run: seq<Action>, i: nat, j: nat, s: SessionId)
    requires Exec(c, INIT, run).Some? && EndedAt(c, run, i, s) && EndedAt(c, run, j, s)
    ensures i == j
  {
    if i < j {
      EndsNoMore(c, run, i, j, s);
    } else if j < i {
      EndsNoMore(c, run, j, i, s);
    }
  }

  lemma {:induction false} EndIsRecorded(c: Config, run: seq<Action>, i: nat, s: SessionId)
    requires EndedAt(c, run, i, s)
    ensures Exec(c, INIT, run[..i + 1]).Some? && s in Exec(c, INIT, run[..i + 1]).value.ended
  {
    assert run[..i + 1] == run[..i] + [run[i]];
    ExecOneMore(c, INIT, run[..i], Exec(c, INIT, run[..i]).value, run[i]);
  }

  lemma {:induction false} EndsNoMore(c: Config, run: seq<Action>, i: nat, j: nat, s: SessionId)
    requires Exec(c, INIT, run).Some? && EndedAt(c, run, i, s) && i < j <= |run|
    ensures Exec(c, INIT, run[..j]).Some?
    ensures var t := Exec(c, INIT, run[..j]).value.tables; s in t.sessions ==> t.sessions[s].status != Active
  {
    SplitRun(c, run, j);
    SplitRun(c, run[..j], i + 1);
    assert run[..j][..i + 1] == run[..i + 1];
    EndIsRecorded(c, run, i, s);
    var after := Exec(c, INIT, run[..i + 1]).value;
    Invariants.ReachableInv(c, run[..i + 1]);
    Lifecycle.EndedForGood(c, after, s, run[..j][i + 1..], Exec(c, INIT, run[..j]).value);
  }

  lemma {:induction false} CleanupDeletes(c: Config, st: State, s: SessionId, cutoff: string, fault: Fault)
    requires s in st.tables.sessions && fault != Some(0)
    ensures var row := st.tables.sessions[s];
            s !in Apply(c, st, Cleanup(cutoff, fault)).tables.sessions <==>
            row.status == Completed && row.endedAt.Some? && TextLess(row.endedAt.value, cutoff)
  {
  }

  /**
   A cleanup that meets no fault deletes an active session never, and a completed one exactly when its end was
   issued with a time before the cutoff.
   */
  lemma {:induction false} CleanupFollowsTheEnd(c: Config, run: seq<Action>, st: State, s: SessionId, cutoff: string,
                                                fault: Fault)
    requires Exec(c, INIT, run) == Some(st) && s in st.tables.sessions && fault != Some(0)
    ensures s !in Apply(c, st, Cleanup(cutoff, fault)).tables.sessions <==>
            exists i: nat :: EndedAt(c, run, i, s) && TextLess(run[i].now, cutoff)
  {
    var row := st.tables.sessions[s];
    CleanupDeletes(c, st, s, cutoff, fault);
    if row.status == Completed {
      var i := EndTimeIsTheEnds(c, run, st, s);
      forall j: nat | EndedAt(c, run, j, s) ensures j == i {
        EndedOnce(c, run, i, j, s);
      }
    } else {
      forall i: nat ensures !EndedAt(c, run, i, s) {
        ActiveNeverEnded(c, run, st, s, i);
      }
    }
  }

  lemma {:induction false} ActiveNeverEnded(c: Config, run: seq<Action>, st: State, s: SessionId, i: nat)
    requires Exec(c, INIT, run) == Some(st) && s in st.tables.sessions && st.tables.sessions[s].status == Active
    ensures !EndedAt(c, run, i, s)
  {
    assert run[..|run|] == run;
    if EndedAt(c, run, i, s) {
      EndsNoMore(c, run, i, |run|, s);
    }
  }

  /**
   Retention is measured from the end: a cleanup at `now` that keeps sessions for `hours` deletes a session ended at
   `ended` exactly when more than that many hours have passed.
   */
  lemma {:induction false} RetainedFromTheEnd(c: Config, run: seq<Action>, st: State, s: SessionId, i: nat,
                                              ended: DateTime, now: DateTime, cutoff: DateTime, hours: nat)
    requires Exec(c, INIT, run) == Some(st) && s in st.tables.sessions && EndedAt(c, run, i, s)
    requires Timestamps.Valid(ended) && Timestamps.Valid(cutoff)
    ensures run[i].now == Rfc3339(ended) && Instant(cutoff) == Instant(now) - hours * 3600 * 1_000_000_000 ==>
              (s !in Apply(c, st, Cleanup(Rfc3339(cutoff), None)).tables.sessions <==>
               Instant(now) - Instant(ended) > hours * 3600 * 1_000_000_000)
  {
    CleanupFollowsTheEnd(c, run, st, s, Rfc3339(cutoff), None);
    forall j: nat | EndedAt(c, run, j, s) ensures j == i {
      EndedOnce(c, run, i, j, s);
    }
    AgeAtCutoff(ended, now, cutoff, hours);
  }

  lemma {:induction false} AgeAtCutoff(ended: DateTime, now: DateTime, cutoff: DateTime, hours: nat)
    requires Timestamps.Valid(ended) && Timestamps.Valid(cutoff)
    ensures Instant(cutoff) == Instant(now) - hours * 3600 * 1_000_000_000 ==>
              (TextLess(Rfc3339(ended), Rfc3339(cutoff)) <==>
               Instant(now) - Instant(ended) > hours * 3600 * 1_000_000_000)
  {
    TextOrderIsTimeOrder(ended, cutoff);
    Older(Instant(ended), Instant(now), Instant(cutoff), hours * 3600 * 1_000_000_000);
  }

  lemma Older(ended: int, now: int, cutoff: int, period: int)
    ensures cutoff == now - period ==> (ended < cutoff <==> now - ended > period)
  {
  }
}
