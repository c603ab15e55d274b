/** Sequence vocabulary shared by the models: selecting, flattening and duplicate-freedom. */
module Seqs {
  datatype Option<+T> = None | Some(value: T)

  function Max(a: nat, b: nat): nat {
    if a < b then b else a
  }

  ghost predicate NoDuplicates<T>(xs: seq<T>) {
    forall i, j :: 0 <= i < j < |xs| ==> xs[i] != xs[j]
  }

  /** `order` lists every member of `s` exactly once; the order is the iteration order of a hash set. */
  ghost predicate Enumerates<T>(order: seq<T>, s: set<T>) {
    NoDuplicates(order) && (forall x :: x in order ==> x in s) && (forall x :: x in s ==> x in order)
  }

  function Filter<T>(xs: seq<T>, keep: T -> bool): seq<T> {
    if xs == [] then []
    else if keep(xs[0]) then [xs[0]] + Filter(xs[1..], keep)
    else Filter(xs[1..], keep)
  }

  function Flatten<T>(xss: seq<seq<T>>): seq<T> {
    if xss == [] then [] else xss[0] + Flatten(xss[1..])
  }

  lemma {:induction false} FilterConcat<T>(xs: seq<T>, ys: seq<T>, keep: T -> bool)
    ensures Filter(xs + ys, keep) == Filter(xs, keep) + Filter(ys, keep)
  {
    if xs == [] {
      assert xs + ys == ys;
    } else {
      assert (xs + ys)[1..] == xs[1..] + ys;
      FilterConcat(xs[1..], ys, keep);
    }
  }

  lemma FilterOne<T>(xs: seq<T>, x: T, keep: T -> bool)
    ensures Filter(xs + [x], keep) == Filter(xs, keep) + if keep(x) then [x] else []
  {
    FilterConcat(xs, [x], keep);
  }

  lemma FilterLast<T>(xs: seq<T>, keep: T -> bool)
    requires xs != []
    ensures Filter(xs, keep) == Filter(xs[..|xs| - 1], keep) + if keep(xs[|xs| - 1]) then [xs[|xs| - 1]] else []
  {
    assert xs == xs[..|xs| - 1] + [xs[|xs| - 1]];
    FilterOne(xs[..|xs| - 1], xs[|xs| - 1], keep);
  }

  lemma {:induction false} FilterMembers<T>(xs: seq<T>, keep: T -> bool)
    ensures forall x :: x in Filter(xs, keep) <==> x in xs && keep(x)
    ensures |Filter(xs, keep)| <= |xs|
  {
    if xs != [] {
      FilterMembers(xs[1..], keep);
    }
  }

  lemma {:induction false} FilterAgree<T>(xs: seq<T>, p: T -> bool, q: T -> bool)
    requires forall x :: x in xs ==> p(x) == q(x)
    ensures Filter(xs, p) == Filter(xs, q)
  {
    if xs != [] {
      FilterAgree(xs[1..], p, q);
    }
  }

  lemma {:induction false} FilterTwice<T>(xs: seq<T>, p: T -> bool, q: T -> bool, both: T -> bool)
    requires forall x :: x in xs ==> both(x) == (p(x) && q(x))
    ensures Filter(Filter(xs, p), q) == Filter(xs, both)
  {
    if xs != [] {
      FilterTwice(xs[1..], p, q, both);
    }
  }

  lemma {:induction false} FilterAll<T>(xs: seq<T>, keep: T -> bool)
    requires forall x :: x in xs ==> keep(x)
    ensures Filter(xs, keep) == xs
  {
    if xs != [] {
      FilterAll(xs[1..], keep);
    }
  }

  lemma {:induction false} FilterNone<T>(xs: seq<T>, keep: T -> bool)
    requires forall x :: x in xs ==> !keep(x)
    ensures Filter(xs, keep) == []
  {
    if xs != [] {
      FilterNone(xs[1..], keep);
    }
  }

  lemma {:induction false} ConcatAssociates<T>(a: seq<T>, b: seq<T>, c: seq<T>)
    ensures a + (b + c) == a + b + c
  {
  }

  lemma {:induction false} FlattenConcat<T>(xss: seq<seq<T>>, yss: seq<seq<T>>)
    ensures Flatten(xss + yss) == Flatten(xss) + Flatten(yss)
  {
    if xss == [] {
      assert xss + yss == yss;
    } else {
      assert (xss + yss)[1..] == xss[1..] + yss;
      FlattenConcat(xss[1..], yss);
    }
  }

  lemma FlattenOne<T>(xss: seq<seq<T>>, xs: seq<T>)
    ensures Flatten(xss + [xs]) == Flatten(xss) + xs
  {
    FlattenConcat(xss, [xs]);
    assert [xs][1..] == [];
    assert Flatten([xs]) == xs + Flatten([]) == xs;
  }
}
