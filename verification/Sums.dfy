/** Sums of natural numbers over lists of threads. */
module Sums {
  import opened Basics

  ghost function Sum(f: nat -> nat, ts: seq<nat>): nat {
    if ts == [] then 0 else f(ts[0]) + Sum(f, ts[1..])
  }

  lemma {:induction false} SumSame(f: nat -> nat, g: nat -> nat, ts: seq<nat>)
    requires forall t :: t in ts ==> f(t) == g(t)
    ensures Sum(f, ts) == Sum(g, ts)
  {
    if ts == [] {
    } else {
      SumSame(f, g, ts[1..]);
    }
  }

  lemma {:induction false} SumChange(f: nat -> nat, g: nat -> nat, ts: seq<nat>, w: nat)
    requires Distinct(ts) && w in ts
    requires forall t :: t in ts && t != w ==> f(t) == g(t)
    ensures Sum(g, ts) == Sum(f, ts) - f(w) + g(w)
    ensures Sum(f, ts) >= f(w)
  {
    if ts[0] == w {
      SumSame(f, g, ts[1..]);
    } else {
      SumChange(f, g, ts[1..], w);
    }
  }

  lemma {:induction false} SumZero(f: nat -> nat, ts: seq<nat>)
    ensures Sum(f, ts) == 0 <==> forall t :: t in ts ==> f(t) == 0
  {
    if ts == [] {
    } else {
      SumZero(f, ts[1..]);
      assert ts[0] in ts;
      assert forall t :: t in ts <==> t == ts[0] || t in ts[1..];
    }
  }

  lemma {:induction false} SumFull(f: nat -> nat, ts: seq<nat>)
    requires forall t :: t in ts ==> f(t) <= 1
    ensures Sum(f, ts) <= |ts|
    ensures Sum(f, ts) == |ts| <==> forall t :: t in ts ==> f(t) == 1
  {
    if ts == [] {
    } else {
      SumFull(f, ts[1..]);
      assert ts[0] in ts;
      assert forall t :: t in ts <==> t == ts[0] || t in ts[1..];
    }
  }

  lemma {:induction false} SumAtMost(f: nat -> nat, ts: seq<nat>, b: nat)
    requires forall t :: t in ts ==> f(t) <= b
    ensures Sum(f, ts) <= b * |ts|
  {
    if ts == [] {
    } else {
      SumAtMost(f, ts[1..], b);
      assert b * |ts| == b * |ts[1..]| + b;
    }
  }

  /** Where `g` exceeds `f` by at most `e`, except at `w`. */
  lemma {:induction false} SumBelow(f: nat -> nat, g: nat -> nat, e: nat -> nat, ts: seq<nat>, w: nat)
    requires Distinct(ts) && forall t :: t in ts && t != w ==> g(t) <= f(t) + e(t)
    ensures w in ts ==> Sum(g, ts) + f(w) <= Sum(f, ts) + g(w) + Sum(e, ts)
    ensures w !in ts ==> Sum(g, ts) <= Sum(f, ts) + Sum(e, ts)
  {
    if ts == [] {
    } else {
      SumBelow(f, g, e, ts[1..], w);
      assert ts[0] in ts && ts[0] !in ts[1..];
    }
  }
}
