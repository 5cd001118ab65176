/** Counting the elements of a sequence that satisfy a predicate.

    The protocols below keep counters that are meant to equal "how many threads
    are at such a point"; these lemmas say how that number moves with one step. */
module Counting {

  function Count<T>(xs: seq<T>, p: T -> bool): nat {
    if xs == [] then 0 else Count(xs[..|xs| - 1], p) + if p(xs[|xs| - 1]) then 1 else 0
  }

  function One(b: bool): nat { if b then 1 else 0 }

  lemma {:induction false} CountUpdate<T>(xs: seq<T>, i: nat, x: T, p: T -> bool)
    requires i < |xs|
    ensures Count(xs[i := x], p) + One(p(xs[i])) == Count(xs, p) + One(p(x))
  {
    var k := |xs| - 1;
    if i == k {
      assert xs[i := x][..k] == xs[..k];
    } else {
      assert xs[i := x][..k] == xs[..k][i := x];
      CountUpdate(xs[..k], i, x, p);
    }
  }

  lemma {:induction false} CountPointwise<T, U>(xs: seq<T>, p: T -> bool, ys: seq<U>, q: U -> bool)
    requires |xs| == |ys|
    requires forall i :: 0 <= i < |xs| ==> p(xs[i]) == q(ys[i])
    ensures Count(xs, p) == Count(ys, q)
  {
    if xs != [] {
      CountPointwise(xs[..|xs| - 1], p, ys[..|ys| - 1], q);
    }
  }

  lemma {:induction false} CountBound<T>(xs: seq<T>, p: T -> bool)
    ensures Count(xs, p) <= |xs|
    ensures Count(xs, p) == |xs| <==> forall i :: 0 <= i < |xs| ==> p(xs[i])
    ensures Count(xs, p) == 0 <==> forall i :: 0 <= i < |xs| ==> !p(xs[i])
  {
    if xs != [] {
      var ys := xs[..|xs| - 1];
      CountBound(ys, p);
      assert forall i :: 0 <= i < |ys| ==> ys[i] == xs[i];
    }
  }

  /** A count of one that a given element accounts for leaves nothing for the others. */
  lemma CountUnique<T>(xs: seq<T>, i: nat, p: T -> bool)
    requires i < |xs| && p(xs[i]) && Count(xs, p) == 1
    ensures forall j :: 0 <= j < |xs| && j != i ==> !p(xs[j])
  {
    forall j | 0 <= j < |xs| && j != i
      ensures !p(xs[j])
    {
      if p(xs[j]) {
        CountTwo(xs, i, j, p);
      }
    }
  }

  lemma {:induction false} CountTwo<T>(xs: seq<T>, i: nat, j: nat, p: T -> bool)
    requires i < |xs| && j < |xs| && i != j && p(xs[i]) && p(xs[j])
    ensures Count(xs, p) >= 2
  {
    var k := |xs| - 1;
    if i < k && j < k {
      CountTwo(xs[..k], i, j, p);
    } else {
      CountBound(xs[..k], p);
      var o := if i == k then j else i;
      assert xs[..k][o] == xs[o];
    }
  }

  /** Every element that fails p is missing from the count. */
  lemma {:induction false} CountMissing<T>(xs: seq<T>, i: nat, p: T -> bool)
    requires i < |xs| && !p(xs[i])
    ensures Count(xs, p) < |xs|
  {
    CountBound(xs, p);
  }

  lemma CountMissingTwo<T>(xs: seq<T>, i: nat, j: nat, p: T -> bool)
    requires i < |xs| && j < |xs| && i != j && !p(xs[i]) && !p(xs[j])
    ensures Count(xs, p) + 1 < |xs|
  {
    CountTwo(xs, i, j, x => !p(x));
    CountSplit(xs, p, x => !p(x));
  }

  lemma {:induction false} CountSplit<T>(xs: seq<T>, p: T -> bool, q: T -> bool)
    requires forall i :: 0 <= i < |xs| ==> !(p(xs[i]) && q(xs[i]))
    ensures Count(xs, p) + Count(xs, q) <= |xs|
  {
    if xs != [] {
      CountSplit(xs[..|xs| - 1], p, q);
    }
  }

  /** Three exclusive classes that leave out an element. */
  lemma CountThree<T>(xs: seq<T>, i: nat, p: T -> bool, q: T -> bool, r: T -> bool)
    requires i < |xs| && !p(xs[i]) && !q(xs[i]) && !r(xs[i])
    requires forall j :: 0 <= j < |xs| ==> !(p(xs[j]) && q(xs[j])) && !(p(xs[j]) && r(xs[j])) && !(q(xs[j]) && r(xs[j]))
    ensures Count(xs, p) + Count(xs, q) + Count(xs, r) < |xs|
  {
    var pq := x => p(x) || q(x);
    var pqr := x => pq(x) || r(x);
    CountUnion(xs, p, q, pq);
    CountUnion(xs, pq, r, pqr);
    CountMissing(xs, i, pqr);
  }

  lemma {:induction false} CountUnion<T>(xs: seq<T>, p: T -> bool, q: T -> bool, pq: T -> bool)
    requires forall i :: 0 <= i < |xs| ==> !(p(xs[i]) && q(xs[i])) && pq(xs[i]) == (p(xs[i]) || q(xs[i]))
    ensures Count(xs, pq) == Count(xs, p) + Count(xs, q)
  {
    if xs != [] {
      CountUnion(xs[..|xs| - 1], p, q, pq);
    }
  }

  lemma {:induction false} CountMonotone<T>(xs: seq<T>, p: T -> bool, q: T -> bool)
    requires forall i :: 0 <= i < |xs| && p(xs[i]) ==> q(xs[i])
    ensures Count(xs, p) <= Count(xs, q)
  {
    if xs != [] {
      CountMonotone(xs[..|xs| - 1], p, q);
    }
  }

  // ---------- weights ----------

  function Weigh<T>(xs: seq<T>, w: T -> nat): nat {
    if xs == [] then 0 else Weigh(xs[..|xs| - 1], w) + w(xs[|xs| - 1])
  }

  lemma {:induction false} WeighUpdate<T>(xs: seq<T>, i: nat, x: T, w: T -> nat)
    requires i < |xs|
    ensures Weigh(xs[i := x], w) + w(xs[i]) == Weigh(xs, w) + w(x)
  {
    var k := |xs| - 1;
    if i == k {
      assert xs[i := x][..k] == xs[..k];
    } else {
      assert xs[i := x][..k] == xs[..k][i := x];
      WeighUpdate(xs[..k], i, x, w);
    }
  }

  /** The numbers below n. */
  function Upto(n: nat): (s: set<nat>)
    ensures |s| == n && forall x :: x in s <==> 0 <= x < n
  {
    if n == 0 then {} else Upto(n - 1) + {n - 1}
  }
}
