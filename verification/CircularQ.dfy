/** The bounded sequence that a ring buffer stands for: pushing into a full one drops the oldest item. */
module Bounded {

  function Push<T>(q: seq<T>, cap: nat, x: T): (r: seq<T>)
    requires |q| <= cap
    ensures |r| <= cap
  {
    if |q| < cap then q + [x] else (q + [x])[1..]
  }

  /** A client's use of the ring. `PopOp` on an empty ring is undefined in the source and is not a run. */
  datatype Op<T> = PushOp(x: T) | PopOp

  datatype Ring<T> = Ring(items: seq<T>, overruns: nat)

  function Step<T>(r: Ring<T>, cap: nat, op: Op<T>): Ring<T>
    requires |r.items| <= cap
    requires op.PopOp? ==> r.items != []
  {
    match op
    case PushOp(x) => Ring(Push(r.items, cap, x), r.overruns + if |r.items| < cap then 0 else 1)
    case PopOp => Ring(r.items[1..], r.overruns)
  }

  function Fresh<T>(): Ring<T> { Ring([], 0) }

  ghost predicate Legal<T>(r: Ring<T>, cap: nat, ops: seq<Op<T>>)
    requires |r.items| <= cap
    decreases |ops|
  {
    ops != [] ==> (ops[0].PopOp? ==> r.items != []) && Legal(Step(r, cap, ops[0]), cap, ops[1..])
  }

  function Run<T>(r: Ring<T>, cap: nat, ops: seq<Op<T>>): Ring<T>
    requires |r.items| <= cap && Legal(r, cap, ops)
    decreases |ops|
  {
    if ops == [] then r else Run(Step(r, cap, ops[0]), cap, ops[1..])
  }

  function PushedItems<T>(ops: seq<Op<T>>): seq<T> {
    if ops == [] then []
    else (if ops[0].PushOp? then [ops[0].x] else []) + PushedItems(ops[1..])
  }

  function Pops<T>(ops: seq<Op<T>>): nat {
    if ops == [] then 0 else (if ops[0].PopOp? then 1 else 0) + Pops(ops[1..])
  }

  /** Whatever the mix of operations, the ring holds the newest part of what went in, in order, and
      everything that is no longer there was either popped or counted as an overrun. */
  lemma {:induction false} RunKeepsNewest<T>(r: Ring<T>, cap: nat, ops: seq<Op<T>>)
    requires |r.items| <= cap && Legal(r, cap, ops)
    ensures var all := r.items + PushedItems(ops);
            var gone := Pops(ops) + Run(r, cap, ops).overruns - r.overruns;
            0 <= gone <= |all| && Run(r, cap, ops).items == all[gone..]
    ensures |Run(r, cap, ops).items| <= cap
    decreases |ops|
  {
    if ops == [] {
    } else {
      var r' := Step(r, cap, ops[0]);
      RunKeepsNewest(r', cap, ops[1..]);
      var all, all' := r.items + PushedItems(ops), r'.items + PushedItems(ops[1..]);
      var gone' := Pops(ops[1..]) + Run(r', cap, ops[1..]).overruns - r'.overruns;
      StepKeepsNewest(r, cap, ops);
      if ops[0].PopOp? || r'.overruns > r.overruns { TailOfTail(all, gone'); }
    }
  }

  lemma TailOfTail<T>(all: seq<T>, k: int)
    requires 0 <= k < |all|
    ensures all[1..][k..] == all[k + 1..]
  {
  }

  lemma StepKeepsNewest<T>(r: Ring<T>, cap: nat, ops: seq<Op<T>>)
    requires |r.items| <= cap && ops != [] && Legal(r, cap, ops)
    ensures var r' := Step(r, cap, ops[0]);
            var all, all' := r.items + PushedItems(ops), r'.items + PushedItems(ops[1..]);
            if ops[0].PopOp? || r'.overruns > r.overruns then |all| > 0 && all' == all[1..] else all' == all
  {
    var rest := PushedItems(ops[1..]);
    match ops[0]
    case PushOp(x) =>
      assert r.items + PushedItems(ops) == (r.items + [x]) + rest;
      if |r.items| >= cap {
        assert (r.items + [x])[1..] + rest == ((r.items + [x]) + rest)[1..];
      }
    case PopOp =>
      assert PushedItems(ops) == rest;
      assert r.items[1..] + rest == (r.items + rest)[1..];
  }

  /** Pushing only: exactly the last `cap` items survive. */
  lemma {:induction false} PushOnlyKeepsLast<T>(cap: nat, ops: seq<Op<T>>)
    requires Legal(Fresh<T>(), cap, ops) && Pops(ops) == 0
    ensures var xs := PushedItems(ops);
            var r := Run(Fresh<T>(), cap, ops);
            r.overruns == (if |xs| <= cap then 0 else |xs| - cap) && r.items == xs[r.overruns..]
  {
    RunKeepsNewest(Fresh<T>(), cap, ops);
    OverrunOnlyWhenFull(Fresh<T>(), cap, ops);
    assert [] + PushedItems(ops) == PushedItems(ops);
  }

  lemma {:induction false} OverrunOnlyWhenFull<T>(r: Ring<T>, cap: nat, ops: seq<Op<T>>)
    requires |r.items| <= cap && Legal(r, cap, ops) && Pops(ops) == 0
    ensures Run(r, cap, ops).overruns > r.overruns ==> |Run(r, cap, ops).items| == cap
    ensures |r.items| == cap ==> |Run(r, cap, ops).items| == cap
    ensures Run(r, cap, ops).overruns >= r.overruns
    decreases |ops|
  {
    if ops == [] {
    } else {
      OverrunOnlyWhenFull(Step(r, cap, ops[0]), cap, ops[1..]);
    }
  }
}

/** `circular_q`: a ring over a fixed vector in which one slot is kept free to tell full from empty. */
module CircularQueue {
  import opened Bounded

  lemma Wrap(a: nat, m: nat)
    requires 0 < m && a < 2 * m
    ensures a % m == if a < m then a else a - m
  {
    var k := a / m;
    assert a == k * m + a % m;
    assert k >= 2 ==> k * m >= 2 * m;
    assert k == 1 ==> k * m == m;
  }

  /** The items of the ring `v` from `head` up to, not including, `tail`. */
  ghost function Segment<T>(v: seq<T>, head: nat, tail: nat): (s: seq<T>)
    requires head < |v| && tail < |v|
    ensures |s| == if tail >= head then tail - head else |v| - (head - tail)
    ensures forall i :: 0 <= i < |s| ==> s[i] == if head + i < |v| then v[head + i] else v[head + i - |v|]
  {
    if tail >= head then v[head..tail] else v[head..] + v[..tail]
  }

  /** Where the next slot after `i` is. */
  ghost function Next(i: nat, n: nat): nat
    requires i < n
  {
    if i + 1 == n then 0 else i + 1
  }

  /** An index into the vector, wrapped around. */
  method Reduce(i: nat, n: nat) returns (r: nat)
    requires 0 < n && i < 2 * n
    ensures r == if i < n then i else i - n
  {
    Wrap(i, n);
    r := i % n;
  }

  lemma StoreAtTail<T>(v: seq<T>, head: nat, tail: nat, x: T)
    requires head < |v| && tail < |v|
    ensures var v' := v[tail := x];
            var tail' := Next(tail, |v|);
            if tail' == head then Segment(v', Next(head, |v|), tail') == (Segment(v, head, tail) + [x])[1..]
            else Segment(v', head, tail') == Segment(v, head, tail) + [x]
  {
  }

  lemma DropHead<T>(v: seq<T>, head: nat, tail: nat)
    requires head < |v| && tail < |v| && head != tail
    ensures Segment(v, Next(head, |v|), tail) == Segment(v, head, tail)[1..]
  {
  }

  /** Storing at the tail and moving on, with the head giving way if it is met, is a push. */
  lemma PushSegment<T>(v: seq<T>, head: nat, tail: nat, x: T)
    requires head < |v| && tail < |v|
    ensures var q, tail' := Segment(v, head, tail), Next(tail, |v|);
            var head' := if tail' == head then Next(head, |v|) else head;
            && Segment(v[tail := x], head', tail') == Push(q, |v| - 1, x)
            && (tail' == head <==> |q| == |v| - 1)
  {
    StoreAtTail(v, head, tail, x);
  }

  class CircularQ<T(0)> {
    var maxItems: nat     // capacity + 1; 0 in the disabled state
    var head: nat
    var tail: nat
    var overrun: nat
    var v: array<T>

    ghost predicate Valid()
      reads this
    {
      if maxItems == 0 then head == 0 && tail == 0
      else v.Length == maxItems && head < maxItems && tail < maxItems
    }

    /** The items from the oldest to the newest. */
    ghost function Contents(): (s: seq<T>)
      requires Valid()
      reads this, v
    {
      if maxItems == 0 then []
      else Segment(v[..], head, tail)
    }

    ghost function Capacity(): nat
      reads this
    {
      if maxItems == 0 then 0 else maxItems - 1
    }

    /** What a client can see: the items and the overrun counter. */
    ghost function Model(): Ring<T>
      requires Valid()
      reads this, v
    {
      Ring(Contents(), overrun)
    }

    constructor Disabled()
      ensures Valid() && fresh(v) && maxItems == 0 && Contents() == [] && overrun == 0
    {
      maxItems, head, tail, overrun := 0, 0, 0, 0;
      v := new T[0];
    }

    constructor (capacity: nat)
      ensures Valid() && fresh(v) && maxItems == capacity + 1
      ensures Contents() == [] && overrun == 0 && Capacity() == capacity
    {
      maxItems := capacity + 1;
      head, tail, overrun := 0, 0, 0;
      v := new T[capacity + 1];
    }

    /** A disabled ring ignores the item; an enabled one stores it, dropping the oldest if it is full. */
    method PushBack(item: T)
      requires Valid()
      modifies this`head, this`tail, this`overrun, v
      ensures Valid() && |Contents()| <= Capacity() && |old(Contents())| <= Capacity()
      ensures maxItems == 0 ==> Model() == old(Model())
      ensures maxItems > 0 ==> Model() == Step(old(Model()), Capacity(), PushOp(item))
    {
      if maxItems > 0 {
        ghost var before := v[..];
        PushSegment(before, head, tail, item);
        v[tail] := item;
        assert v[..] == before[tail := item];
        tail := Reduce(tail + 1, maxItems);
        if tail == head {
          head := Reduce(head + 1, maxItems);
          overrun := overrun + 1;
        }
      }
    }

    method Front() returns (x: T)
      requires Valid() && Contents() != []
      ensures x == Contents()[0]
    {
      x := v[head];
    }

    method Size() returns (n: nat)
      requires Valid()
      ensures n == |Contents()|
    {
      if tail >= head { n := tail - head; } else { n := maxItems - (head - tail); }
    }

    method At(i: nat) returns (x: T)
      requires Valid() && i < |Contents()|
      ensures x == Contents()[i]
    {
      var slot := Reduce(head + i, maxItems);
      x := v[slot];
    }

    method PopFront()
      requires Valid() && Contents() != []
      modifies this`head
      ensures Valid() && |old(Contents())| <= Capacity()
      ensures Model() == Step(old(Model()), Capacity(), PopOp)
    {
      DropHead(v[..], head, tail);
      head := Reduce(head + 1, maxItems);
    }

    method Empty() returns (b: bool)
      requires Valid()
      ensures b <==> Contents() == []
    {
      b := tail == head;
    }

    /** A disabled ring is never full, although it takes nothing. */
    method Full() returns (b: bool)
      requires Valid()
      ensures b <==> maxItems > 0 && |Contents()| == Capacity()
    {
      if maxItems > 0 {
        var next := Reduce(tail + 1, maxItems);
        b := next == head;
      } else {
        b := false;
      }
    }

    method ResetOverrunCounter()
      requires Valid()
      modifies this`overrun
      ensures Valid() && Model() == Ring(old(Contents()), 0)
    {
      overrun := 0;
    }

    /** Move: takes everything over and leaves `other` disabled. A ring moved into itself is left disabled. */
    method MoveFrom(other: CircularQ<T>)
      requires Valid() && other.Valid()
      modifies this, other
      ensures Valid() && other.Valid()
      ensures other != this ==> Model() == old(other.Model()) && maxItems == old(other.maxItems) && v == old(other.v)
      ensures other.maxItems == 0 && other.Model() == Ring([], 0) && fresh(other.v)
    {
      maxItems, head, tail, overrun, v := other.maxItems, other.head, other.tail, other.overrun, other.v;
      other.maxItems, other.head, other.tail, other.overrun := 0, 0, 0, 0;
      other.v := new T[0];
    }
  }

  function Min(a: nat, b: nat): nat { if a <= b then a else b }

  /** The ring-buffer sink. `Lim == 0` asks for everything. */
  class RingbufferSink<T(0)> {
    const q: CircularQ<T>

    constructor (n: nat)
      ensures fresh(q) && fresh(q.v) && q.Valid() && q.Contents() == [] && q.Capacity() == n && q.maxItems > 0
    {
      q := new CircularQ(n);
    }

    method SinkIt(msg: T)
      requires q.Valid() && q.maxItems > 0
      modifies q, q.v
      ensures q.Valid() && q.maxItems == old(q.maxItems) && q.v == old(q.v)
      ensures |old(q.Contents())| <= q.Capacity() && q.Contents() == Push(old(q.Contents()), q.Capacity(), msg)
    {
      q.PushBack(msg);
    }

    /** The last `lim` messages, oldest first. */
    method LastRaw(lim: nat) returns (ret: seq<T>)
      requires q.Valid()
      ensures var all := q.Contents();
              ret == if lim == 0 || lim >= |all| then all else all[|all| - lim..]
    {
      ghost var all := q.Contents();
      var available := q.Size();
      var n := if lim > 0 then Min(lim, available) else available;
      ret := [];
      var i := available - n;
      while i < available
        invariant available - n <= i <= available == |all|
        invariant ret == all[available - n..i]
      {
        var x := q.At(i);
        ret := ret + [x];
        i := i + 1;
      }
    }
  }
}
