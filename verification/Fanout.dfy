/** The data of the frame distributor and what its critical sections do to it.

    Buffers are heap cells with an address. The phase is the state of the one distributor that is inside
    its iteration; `Distributor` shows that the input mutex leaves room for only one. */
module Fanout {
  import opened Basics
  import opened Decimation

  type Addr = nat
  type Name = string

  /** A `VideoBuffer` by value: everything `memcpy` copies, and the bytes it points to. */
  datatype Frame = Frame(meta: int, timestamp: int, bytes: seq<Byte>)

  /** A registered event. `step` is what `insert_event` leaves in `_fps`. */
  datatype Info = Info(step: nat, isRun: bool)

  datatype Phase =
    | Waiting
    | Taken(cur: Addr)                       // a frame is off the input queue and numbered
    | Scanning(cur: Addr, todo: set<Name>)   // events still to be looked at
    | Scanned(cur: Addr)                     // about to delete the input frame

  datatype Owner = Input | Output(n: Name) | Hand | Consumer | Nobody

  /** History of a registration: the round it starts with, what the queue held, what was popped since. */
  datatype Reg = Reg(start: nat, base: seq<Frame>, got: seq<Frame>)

  /** From `owner` on the fields are history. */
  datatype State = State(
    fps: nat,
    input: seq<Addr>,
    frameNo: nat,
    output: map<Name, seq<Addr>>,
    info: map<Name, Info>,
    heap: map<Addr, Frame>,
    next: Addr,
    held: set<Addr>,           // with consumers
    phase: Phase,
    owner: map<Addr, Owner>,
    freed: seq<Addr>,          // every `delete`, in order
    pushed: seq<Frame>,
    stamps: seq<int>,          // the clock read when each frame was taken
    begun: nat,                // scans begun
    regs: map<Name, Reg>
  )

  datatype Op =
    | Push(frame: Frame)
    | Take(now: int)
    | Begin
    | Skip(n: Name)
    | Deliver(n: Name)
    | EndScan
    | Free
    | Insert(n: Name, fps: nat, isRun: bool)
    | Remove(n: Name)
    | Pop(n: Name)
    | Stop(n: Name)
    | Delete(a: Addr)

  // ---------------------------------------------------------------- memory

  /** Reading through a dangling pointer gives garbage, which the properties below exclude. */
  function Deref(heap: map<Addr, Frame>, a: Addr): Frame { if a in heap then heap[a] else Frame(0, 0, []) }

  function Values(heap: map<Addr, Frame>, q: seq<Addr>): (v: seq<Frame>)
    ensures |v| == |q|
    ensures forall i :: 0 <= i < |q| ==> v[i] == Deref(heap, q[i])
  {
    seq(|q|, i requires 0 <= i < |q| => Deref(heap, q[i]))
  }

  function Alloc(s: State, frame: Frame, o: Owner): State {
    s.(heap := s.heap[s.next := frame], owner := s.owner[s.next := o], next := s.next + 1)
  }

  function FreeAll(s: State, q: seq<Addr>): State {
    s.(heap := s.heap - Addresses(q), owner := s.owner - Addresses(q), freed := s.freed + q)
  }

  function Addresses(q: seq<Addr>): set<Addr> { set a | a in q }

  // ---------------------------------------------------------------- operations

  function Cur(p: Phase): seq<Addr> { if p.Waiting? then [] else [p.cur] }

  predicate Due(s: State, n: Name)
    requires n in s.info
  {
    s.info[n].step > 0 && s.frameNo % s.info[n].step == 0
  }

  predicate Enabled(s: State, op: Op) {
    match op
    case Push(_) => true
    case Take(_) => s.phase.Waiting? && s.input != []
    case Begin => s.phase.Taken?
    case Skip(n) => s.phase.Scanning? && n in s.phase.todo && n in s.info && s.info[n].step > 0 && !Due(s, n)
    case Deliver(n) => s.phase.Scanning? && n in s.phase.todo && n in s.info && Due(s, n)
    case EndScan => s.phase.Scanning? && s.phase.todo == {}
    case Free => s.phase.Scanned?
    case Insert(n, fps, _) => !s.phase.Scanning? && n !in s.info && 1 <= fps <= s.fps
    case Remove(n) => !s.phase.Scanning?
    case Pop(n) => n in s.info && s.info[n].isRun && n in s.output && s.output[n] != []
    case Stop(n) => !s.phase.Scanning? && n in s.info && !s.info[n].isRun
    case Delete(a) => a in s.held
  }

  /** The copy that an event receives. */
  function Stamped(frame: Frame, now: int): Frame { frame.(timestamp := now) }

  function Apply(s: State, op: Op): State
    requires Enabled(s, op)
  {
    match op
    case Push(frame) =>
      Alloc(s, frame, Input).(input := s.input + [s.next], pushed := s.pushed + [frame])
    case Take(now) =>
      var a := s.input[0];
      s.(input := s.input[1..], frameNo := NextFrameNo(s.frameNo, s.fps), phase := Taken(a),
         owner := s.owner[a := Hand], stamps := s.stamps + [now])
    case Begin => s.(phase := Scanning(s.phase.cur, s.info.Keys), begun := s.begun + 1)
    case Skip(n) => s.(phase := Scanning(s.phase.cur, s.phase.todo - {n}))
    case Deliver(n) =>
      var now := if s.stamps == [] then 0 else s.stamps[|s.stamps| - 1];
      var copy := Stamped(Deref(s.heap, s.phase.cur), now);
      var phase := Scanning(s.phase.cur, s.phase.todo - {n});
      if n in s.output then
        Alloc(s, copy, Output(n)).(output := s.output[n := s.output[n] + [s.next]], phase := phase)
      else
        Alloc(s, copy, Nobody).(phase := phase)
    case EndScan => s.(phase := Scanned(s.phase.cur))
    case Free => FreeAll(s, [s.phase.cur]).(phase := Waiting)
    case Insert(n, fps, isRun) =>
      var q := if n in s.output then s.output[n] else [];
      s.(info := s.info[n := Info(StepFor(s.fps, fps), isRun)], output := s.output[n := q],
         regs := s.regs[n := Reg(s.begun, Values(s.heap, q), [])])
    case Remove(n) =>
      var s' := if n in s.output then FreeAll(s, s.output[n]) else s;
      s'.(output := s.output - {n}, info := s.info - {n}, regs := s.regs - {n})
    case Pop(n) =>
      var a := s.output[n][0];
      var r := if n in s.regs then s.regs[n] else Reg(0, [], []);
      s.(output := s.output[n := s.output[n][1..]], held := s.held + {a}, owner := s.owner[a := Consumer],
         regs := s.regs[n := r.(got := r.got + [Deref(s.heap, a)])])
    case Stop(n) => s.(info := s.info - {n}, regs := s.regs - {n})
    case Delete(a) => FreeAll(s, [a]).(held := s.held - {a})
  }

  // ---------------------------------------------------------------- what an event should receive

  /** The frames of rounds `lo` to `hi` that are due to an event with step `k`, in order, with their stamps. */
  ghost function Expected(s: State, k: nat, lo: nat, hi: nat): seq<Frame>
    requires 0 < s.fps && 0 < k && hi <= |s.stamps| <= |s.pushed|
  {
    if hi <= lo then []
    else Expected(s, k, lo, hi - 1)
         + if Selected(s.fps, k, hi - 1) then [Frame(s.pushed[hi - 1].meta, s.stamps[hi - 1], s.pushed[hi - 1].bytes)]
           else []
  }

  /** The event has not yet been looked at in the scan under way. */
  predicate Pending(s: State, n: Name) { s.phase.Scanning? && n in s.phase.todo }

  /** Rounds that event `n` has been through. */
  function Rounds(s: State, n: Name): int { if Pending(s, n) then s.begun - 1 else s.begun }

  // ---------------------------------------------------------------- invariants

  /** `q` holds exactly the live addresses owned by `o`, each once. */
  ghost predicate Holds(s: State, q: seq<Addr>, o: Owner) {
    && Distinct(q)
    && (forall a :: a in q <==> a in s.owner && s.owner[a] == o)
  }

  ghost predicate OutputsHold(s: State) { forall n :: n in s.output ==> Holds(s, s.output[n], Output(n)) }

  ghost predicate MemInv(s: State) {
    && s.owner.Keys == s.heap.Keys
    && (forall a :: a in s.heap ==> a < s.next)
    && Distinct(s.freed)
    && (forall a :: a in s.freed ==> a < s.next && a !in s.heap)
  }

  ghost predicate OwnersKnown(s: State) {
    && (forall a :: a in s.owner && s.owner[a].Output? ==> s.owner[a].n in s.output)
    && (forall a :: a in s.held <==> a in s.owner && s.owner[a] == Consumer)
    && (forall a :: a in s.owner ==> !s.owner[a].Nobody?)
  }

  ghost predicate PlaceInv(s: State) {
    && Holds(s, s.input, Input)
    && OutputsHold(s)
    && Holds(s, Cur(s.phase), Hand)
    && OwnersKnown(s)
  }

  ghost predicate NameInv(s: State) {
    && (forall n :: n in s.info ==> n in s.output && 0 < s.info[n].step && n in s.regs)
    && (forall n :: n in s.regs ==> n in s.info)
    && (s.phase.Scanning? ==> s.phase.todo <= s.info.Keys)
  }

  ghost predicate CountInv(s: State) {
    && 0 < s.fps
    && |s.stamps| <= |s.pushed|
    && |s.stamps| == s.begun + (if s.phase.Taken? then 1 else 0)
    && s.frameNo == (if s.stamps == [] then 0 else FrameNo(s.fps, |s.stamps| - 1))
    && (!s.phase.Waiting? ==> s.stamps != [])
    && (s.phase.Scanning? ==> s.begun >= 1)
  }

  ghost predicate InputInv(s: State) {
    && |s.stamps| <= |s.pushed|
    && Values(s.heap, s.input) == s.pushed[|s.stamps|..]
    && (!s.phase.Waiting? ==> s.stamps != [] && Deref(s.heap, s.phase.cur) == s.pushed[|s.stamps| - 1])
  }

  /** What an event has popped, followed by what its queue holds, is what the queue held at registration
      followed by exactly the frames due to it since then. */
  ghost predicate Delivered(s: State, n: Name)
    requires CountInv(s) && NameInv(s) && n in s.info
  {
    && s.regs[n].start <= Rounds(s, n)
    && s.regs[n].got + Values(s.heap, s.output[n])
         == s.regs[n].base + Expected(s, s.info[n].step, s.regs[n].start, Rounds(s, n))
  }

  ghost predicate DeliveryInv(s: State)
    requires CountInv(s) && NameInv(s)
  {
    forall n :: n in s.info ==> Delivered(s, n)
  }

  ghost predicate Inv(s: State) {
    MemInv(s) && PlaceInv(s) && NameInv(s) && CountInv(s) && InputInv(s) && DeliveryInv(s)
  }

  ghost predicate Init(s: State) {
    && 0 < s.fps && s.input == [] && s.frameNo == 0 && s.output == map[] && s.info == map[]
    && s.heap == map[] && s.held == {} && s.phase.Waiting? && s.owner == map[] && s.freed == []
    && s.pushed == [] && s.stamps == [] && s.begun == 0 && s.regs == map[]
  }

  lemma InitInv(s: State)
    requires Init(s)
    ensures Inv(s)
  {
  }

  // ---------------------------------------------------------------- names and counters

  lemma NameStep(s: State, op: Op)
    requires NameInv(s) && Enabled(s, op)
    ensures NameInv(Apply(s, op))
  {
    match op
    case Insert(n, fps, _) => StepUsable(s.fps, fps);
    case _ =>
  }

  lemma CountTake(s: State, now: int)
    requires CountInv(s) && |Values(s.heap, s.input)| == |s.pushed| - |s.stamps| && Enabled(s, Take(now))
    ensures CountInv(Apply(s, Take(now)))
  {
    NextIsFrameNo(s.fps, if s.stamps == [] then 0 else |s.stamps| - 1);
  }

  lemma CountElse(s: State, op: Op)
    requires CountInv(s) && Enabled(s, op) && !op.Take?
    ensures CountInv(Apply(s, op))
  {
  }

  lemma CountStep(s: State, op: Op)
    requires CountInv(s) && InputInv(s) && Enabled(s, op)
    ensures CountInv(Apply(s, op))
  {
    if op.Take? {
      assert Values(s.heap, s.input) == s.pushed[|s.stamps|..];
      CountTake(s, op.now);
    } else {
      CountElse(s, op);
    }
  }

  // ---------------------------------------------------------------- memory and places

  lemma AllocMem(s: State, frame: Frame, o: Owner)
    requires MemInv(s)
    ensures MemInv(Alloc(s, frame, o))
  {
  }

  lemma FreeAllMem(s: State, q: seq<Addr>)
    requires MemInv(s) && Distinct(q) && forall a :: a in q ==> a in s.heap
    ensures MemInv(FreeAll(s, q))
  {
    var s' := FreeAll(s, q);
    forall i, j | 0 <= i < j < |s'.freed| ensures s'.freed[i] != s'.freed[j] {
      if i < |s.freed| <= j {
        assert s.freed[i] in s.freed && q[j - |s.freed|] in q;
      }
    }
  }

  lemma MemDeliver(s: State, n: Name)
    requires MemInv(s) && Enabled(s, Deliver(n))
    ensures MemInv(Apply(s, Deliver(n)))
  {
    var now := if s.stamps == [] then 0 else s.stamps[|s.stamps| - 1];
    AllocMem(s, Stamped(Deref(s.heap, s.phase.cur), now), if n in s.output then Output(n) else Nobody);
  }

  lemma MemFree(s: State, op: Op)
    requires MemInv(s) && PlaceInv(s) && Enabled(s, op) && (op.Free? || op.Remove? || op.Delete?)
    ensures MemInv(Apply(s, op))
  {
    match op
    case Free =>
      assert s.phase.cur in Cur(s.phase);
      FreeAllMem(s, [s.phase.cur]);
    case Remove(n) => if n in s.output { FreeAllMem(s, s.output[n]); }
    case Delete(a) => FreeAllMem(s, [a]);
  }

  lemma MemStep(s: State, op: Op)
    requires MemInv(s) && PlaceInv(s) && Enabled(s, op)
    ensures MemInv(Apply(s, op))
  {
    match op
    case Push(frame) => AllocMem(s, frame, Input);
    case Take(_) => assert s.input[0] in s.input;
    case Deliver(n) => MemDeliver(s, n);
    case Pop(n) => assert s.output[n][0] in s.output[n];
    case Begin =>
    case Skip(_) =>
    case EndScan =>
    case Insert(_, _, _) =>
    case Stop(_) =>
    case _ => MemFree(s, op);
  }

  lemma HoldsTail(s: State, s': State, q: seq<Addr>, o: Owner, p: Owner)
    requires Holds(s, q, o) && q != [] && o != p && s'.owner == s.owner[q[0] := p]
    ensures Holds(s', q[1..], o)
  {
    var t := q[1..];
    forall a ensures a in t <==> a in s'.owner && s'.owner[a] == o {
      assert q == [q[0]] + t;
      if a in t {
        var i :| 0 <= i < |t| && t[i] == a;
        assert q[i + 1] == a && q[0] != q[i + 1];
      }
    }
  }

  lemma HoldsAppend(s: State, s': State, q: seq<Addr>, o: Owner)
    requires Holds(s, q, o) && MemInv(s) && s'.owner == s.owner[s.next := o]
    ensures Holds(s', q + [s.next], o)
  {
    forall i | 0 <= i < |q| ensures q[i] != s.next { assert q[i] in q; }
    forall a ensures a in q + [s.next] <==> a in s'.owner && s'.owner[a] == o {
      assert a in q + [s.next] <==> a in q || a == s.next;
    }
  }

  lemma HoldsOther(s: State, s': State, q: seq<Addr>, o: Owner, a: Addr, p: Owner)
    requires Holds(s, q, o) && p != o && s'.owner == s.owner[a := p] && a !in q
    ensures Holds(s', q, o)
  {
  }

  lemma HoldsFreed(s: State, s': State, q: seq<Addr>, o: Owner, gone: seq<Addr>)
    requires Holds(s, q, o) && s'.owner == s.owner - Addresses(gone)
    requires forall a :: a in gone ==> a !in q
    ensures Holds(s', q, o)
  {
  }

  lemma PlacePush(s: State, frame: Frame)
    requires MemInv(s) && PlaceInv(s)
    ensures PlaceInv(Apply(s, Push(frame)))
  {
    var s' := Apply(s, Push(frame));
    HoldsAppend(s, s', s.input, Input);
    forall n | n in s'.output ensures Holds(s', s'.output[n], Output(n)) {
      HoldsOther(s, s', s.output[n], Output(n), s.next, Input);
    }
    HoldsOther(s, s', Cur(s.phase), Hand, s.next, Input);
  }

  lemma PlaceTake(s: State, now: int)
    requires MemInv(s) && PlaceInv(s) && Enabled(s, Take(now))
    ensures PlaceInv(Apply(s, Take(now)))
  {
    var s' := Apply(s, Take(now));
    var a := s.input[0];
    assert a in s.input;
    HoldsTail(s, s', s.input, Input, Hand);
    forall n | n in s'.output ensures Holds(s', s'.output[n], Output(n)) {
      HoldsOther(s, s', s.output[n], Output(n), a, Hand);
    }
  }

  lemma OutputsDeliver(s: State, n: Name)
    requires MemInv(s) && OutputsHold(s) && n in s.output && Enabled(s, Deliver(n))
    ensures OutputsHold(Apply(s, Deliver(n)))
  {
    var s' := Apply(s, Deliver(n));
    HoldsAppend(s, s', s.output[n], Output(n));
    forall m | m in s'.output && m != n ensures Holds(s', s'.output[m], Output(m)) {
      HoldsOther(s, s', s.output[m], Output(m), s.next, Output(n));
    }
  }

  lemma OwnersDeliver(s: State, n: Name)
    requires MemInv(s) && OwnersKnown(s) && Enabled(s, Deliver(n)) && n in s.output
    ensures OwnersKnown(Apply(s, Deliver(n)))
  {
  }

  lemma OwnersRemove(s: State, n: Name)
    requires OwnersKnown(s) && Enabled(s, Remove(n)) && n in s.output && Holds(s, s.output[n], Output(n))
    ensures OwnersKnown(Apply(s, Remove(n)))
  {
  }

  lemma OwnersPop(s: State, n: Name)
    requires OwnersKnown(s) && Enabled(s, Pop(n))
    ensures OwnersKnown(Apply(s, Pop(n)))
  {
  }

  lemma InsideDeliver(s: State, n: Name)
    requires MemInv(s) && Holds(s, s.input, Input) && Holds(s, Cur(s.phase), Hand)
    requires n in s.output && Enabled(s, Deliver(n))
    ensures var s' := Apply(s, Deliver(n)); Holds(s', s'.input, Input) && Holds(s', Cur(s'.phase), Hand)
  {
    var s' := Apply(s, Deliver(n));
    HoldsOther(s, s', s.input, Input, s.next, Output(n));
    HoldsOther(s, s', Cur(s.phase), Hand, s.next, Output(n));
  }

  lemma PlaceDeliver(s: State, n: Name)
    requires MemInv(s) && PlaceInv(s) && NameInv(s) && Enabled(s, Deliver(n))
    ensures PlaceInv(Apply(s, Deliver(n)))
  {
    OutputsDeliver(s, n);
    InsideDeliver(s, n);
    OwnersDeliver(s, n);
  }

  lemma PlaceFree(s: State)
    requires MemInv(s) && PlaceInv(s) && Enabled(s, Free)
    ensures PlaceInv(Apply(s, Free))
  {
    var s' := Apply(s, Free);
    var gone := Cur(s.phase);
    HoldsFreed(s, s', s.input, Input, gone);
    forall n | n in s'.output ensures Holds(s', s'.output[n], Output(n)) {
      HoldsFreed(s, s', s.output[n], Output(n), gone);
    }
  }

  lemma OutputsRemove(s: State, n: Name)
    requires OutputsHold(s) && n in s.output && Enabled(s, Remove(n))
    ensures OutputsHold(Apply(s, Remove(n)))
  {
    var s', gone := Apply(s, Remove(n)), s.output[n];
    forall m | m in s'.output ensures Holds(s', s'.output[m], Output(m)) {
      HoldsFreed(s, s', s.output[m], Output(m), gone);
    }
  }

  lemma PlaceRemove(s: State, n: Name)
    requires MemInv(s) && PlaceInv(s) && Enabled(s, Remove(n))
    ensures PlaceInv(Apply(s, Remove(n)))
  {
    var s' := Apply(s, Remove(n));
    if n in s.output {
      OutputsRemove(s, n);
      HoldsFreed(s, s', s.input, Input, s.output[n]);
      HoldsFreed(s, s', Cur(s.phase), Hand, s.output[n]);
      OwnersRemove(s, n);
    }
  }

  lemma OutputsPop(s: State, n: Name)
    requires OutputsHold(s) && Enabled(s, Pop(n))
    ensures OutputsHold(Apply(s, Pop(n)))
  {
    var s', a := Apply(s, Pop(n)), s.output[n][0];
    assert a in s.output[n];
    HoldsTail(s, s', s.output[n], Output(n), Consumer);
    forall m | m in s'.output && m != n ensures Holds(s', s'.output[m], Output(m)) {
      HoldsOther(s, s', s.output[m], Output(m), a, Consumer);
    }
  }

  lemma PlacePop(s: State, n: Name)
    requires MemInv(s) && PlaceInv(s) && Enabled(s, Pop(n))
    ensures PlaceInv(Apply(s, Pop(n)))
  {
    var s' := Apply(s, Pop(n));
    var a := s.output[n][0];
    assert a in s.output[n];
    OutputsPop(s, n);
    OwnersPop(s, n);
    HoldsOther(s, s', s.input, Input, a, Consumer);
    HoldsOther(s, s', Cur(s.phase), Hand, a, Consumer);
  }

  lemma PlaceDelete(s: State, a: Addr)
    requires MemInv(s) && PlaceInv(s) && Enabled(s, Delete(a))
    ensures PlaceInv(Apply(s, Delete(a)))
  {
    var s' := Apply(s, Delete(a));
    HoldsFreed(s, s', s.input, Input, [a]);
    forall m | m in s'.output ensures Holds(s', s'.output[m], Output(m)) {
      HoldsFreed(s, s', s.output[m], Output(m), [a]);
    }
    HoldsFreed(s, s', Cur(s.phase), Hand, [a]);
  }

  lemma PlaceInsert(s: State, op: Op)
    requires MemInv(s) && PlaceInv(s) && Enabled(s, op) && op.Insert?
    ensures PlaceInv(Apply(s, op))
  {
    var s' := Apply(s, op);
    assert s'.owner == s.owner;
    forall m | m in s'.output ensures Holds(s', s'.output[m], Output(m)) {
      if m in s.output { assert Holds(s, s.output[m], Output(m)); }
    }
  }

  lemma PlaceStep(s: State, op: Op)
    requires MemInv(s) && PlaceInv(s) && NameInv(s) && Enabled(s, op)
    ensures PlaceInv(Apply(s, op))
  {
    match op
    case Push(frame) => PlacePush(s, frame);
    case Take(now) => PlaceTake(s, now);
    case Deliver(n) => PlaceDeliver(s, n);
    case Free => PlaceFree(s);
    case Insert(_, _, _) => PlaceInsert(s, op);
    case Remove(n) => PlaceRemove(s, n);
    case Pop(n) => PlacePop(s, n);
    case Delete(a) => PlaceDelete(s, a);
    case _ =>
      var s' := Apply(s, op);
      forall m | m in s'.output ensures Holds(s', s'.output[m], Output(m)) { assert Holds(s, s.output[m], Output(m)); }
      assert Cur(s'.phase) == Cur(s.phase);
  }

  // ---------------------------------------------------------------- contents

  lemma ValuesSame(h: map<Addr, Frame>, h': map<Addr, Frame>, q: seq<Addr>)
    requires forall a :: a in q ==> Deref(h, a) == Deref(h', a)
    ensures Values(h, q) == Values(h', q)
  {
  }

  lemma ValuesConcat(h: map<Addr, Frame>, q: seq<Addr>, r: seq<Addr>)
    ensures Values(h, q + r) == Values(h, q) + Values(h, r)
  {
  }

  /** An operation leaves every live buffer it does not delete as it was. */
  lemma HeapStays(s: State, op: Op, a: Addr)
    requires MemInv(s) && PlaceInv(s) && NameInv(s) && Enabled(s, op) && a in s.heap
    requires op.Free? ==> a != s.phase.cur
    requires op.Remove? && op.n in s.output ==> a !in s.output[op.n]
    requires op.Delete? ==> a != op.a
    ensures a in Apply(s, op).heap && Apply(s, op).heap[a] == s.heap[a]
  {
  }

  lemma InputStays(s: State, op: Op)
    requires MemInv(s) && PlaceInv(s) && NameInv(s) && Enabled(s, op)
    ensures Values(Apply(s, op).heap, s.input) == Values(s.heap, s.input)
  {
    forall a | a in s.input ensures Deref(s.heap, a) == Deref(Apply(s, op).heap, a) {
      assert op.Free? ==> s.phase.cur in Cur(s.phase);
      HeapStays(s, op, a);
    }
    ValuesSame(s.heap, Apply(s, op).heap, s.input);
  }

  lemma CurStays(s: State, op: Op)
    requires MemInv(s) && PlaceInv(s) && NameInv(s) && Enabled(s, op) && !s.phase.Waiting? && !op.Free?
    ensures Deref(Apply(s, op).heap, s.phase.cur) == Deref(s.heap, s.phase.cur)
  {
    assert s.phase.cur in Cur(s.phase);
    HeapStays(s, op, s.phase.cur);
  }

  lemma InputPush(s: State, frame: Frame)
    requires MemInv(s) && PlaceInv(s) && NameInv(s) && InputInv(s)
    ensures InputInv(Apply(s, Push(frame)))
  {
    var s' := Apply(s, Push(frame));
    InputStays(s, Push(frame));
    if !s.phase.Waiting? { CurStays(s, Push(frame)); }
    ValuesConcat(s'.heap, s.input, [s.next]);
    assert Values(s'.heap, [s.next]) == [frame];
    assert s'.pushed[|s.stamps|..] == s.pushed[|s.stamps|..] + [frame];
  }

  lemma InputTake(s: State, now: int)
    requires InputInv(s) && Enabled(s, Take(now))
    ensures InputInv(Apply(s, Take(now)))
  {
    var s' := Apply(s, Take(now));
    var k := |s.stamps|;
    var v := Values(s.heap, s.input);
    assert v[0] == s.pushed[k];
    assert s'.pushed[k + 1..] == s.pushed[k..][1..];
    assert Values(s'.heap, s.input[1..]) == v[1..];
  }

  lemma InputCarries(s: State, s': State)
    requires InputInv(s) && s'.input == s.input && s'.pushed == s.pushed && s'.stamps == s.stamps
    requires Values(s'.heap, s.input) == Values(s.heap, s.input)
    requires s'.phase.Waiting?
             || (Cur(s'.phase) == Cur(s.phase) && Deref(s'.heap, s.phase.cur) == Deref(s.heap, s.phase.cur))
    ensures InputInv(s')
  {
    if !s'.phase.Waiting? { assert Cur(s'.phase)[0] == s'.phase.cur; }
  }

  lemma InputElse(s: State, op: Op)
    requires MemInv(s) && PlaceInv(s) && NameInv(s) && InputInv(s) && Enabled(s, op) && !op.Push? && !op.Take?
    ensures InputInv(Apply(s, op))
  {
    SameInput(s, op);
    InputStays(s, op);
    if !s.phase.Waiting? && !op.Free? { CurStays(s, op); }
    InputCarries(s, Apply(s, op));
  }

  lemma SameInput(s: State, op: Op)
    requires Enabled(s, op) && !op.Push? && !op.Take?
    ensures var s' := Apply(s, op);
            && s'.input == s.input && s'.pushed == s.pushed && s'.stamps == s.stamps
            && Cur(s'.phase) == (if op.Free? then [] else Cur(s.phase))
            && (s'.phase.Waiting? <==> s.phase.Waiting? || op.Free?)
  {
  }

  lemma InputStep(s: State, op: Op)
    requires MemInv(s) && PlaceInv(s) && NameInv(s) && InputInv(s) && Enabled(s, op)
    ensures InputInv(Apply(s, op))
  {
    match op
    case Push(frame) => InputPush(s, frame);
    case Take(now) => InputTake(s, now);
    case _ => InputElse(s, op);
  }

  lemma {:induction false} ExpectedSame(s: State, s': State, k: nat, lo: nat, hi: nat)
    requires 0 < s.fps && 0 < k && hi <= |s.stamps| <= |s.pushed|
    requires s'.fps == s.fps && s.stamps <= s'.stamps && s.pushed <= s'.pushed && |s'.stamps| <= |s'.pushed|
    ensures Expected(s', k, lo, hi) == Expected(s, k, lo, hi)
    decreases hi
  {
    if hi <= lo {
    } else {
      ExpectedSame(s, s', k, lo, hi - 1);
    }
  }

  /** How many frames that is: the decimation count of the rounds. */
  lemma {:induction false} ExpectedCount(s: State, k: nat, lo: nat, hi: nat)
    requires 0 < s.fps && 0 < k && lo <= hi <= |s.stamps| <= |s.pushed|
    ensures |Expected(s, k, lo, hi)| == Copies(s.fps, k, hi) - Copies(s.fps, k, lo)
    decreases hi
  {
    if hi == lo {
    } else {
      ExpectedCount(s, k, lo, hi - 1);
    }
  }

  /** Which frames they are: those of the rounds whose number is a multiple of the step, in order, with the metadata and
      the bytes that were pushed and the stamp of the round. */
  lemma {:induction false} ExpectedRounds(s: State, k: nat, lo: nat, hi: nat) returns (rounds: seq<nat>)
    requires 0 < s.fps && 0 < k && lo <= hi <= |s.stamps| <= |s.pushed|
    ensures forall i, j :: 0 <= i < j < |rounds| ==> rounds[i] < rounds[j]
    ensures forall r :: r in rounds <==> lo <= r < hi && (r % s.fps + 1) % k == 0
    ensures |Expected(s, k, lo, hi)| == |rounds|
    ensures forall i :: 0 <= i < |rounds| ==>
              var r, x := rounds[i], Expected(s, k, lo, hi)[i];
              r < hi && x.meta == s.pushed[r].meta && x.bytes == s.pushed[r].bytes && x.timestamp == s.stamps[r]
    decreases hi
  {
    if hi == lo {
      rounds := [];
    } else {
      rounds := ExpectedRounds(s, k, lo, hi - 1);
      if Selected(s.fps, k, hi - 1) { rounds := rounds + [hi - 1]; }
    }
  }

  lemma QueueStays(s: State, op: Op, n: Name)
    requires MemInv(s) && PlaceInv(s) && NameInv(s) && Enabled(s, op) && n in s.output && op != Remove(n)
    ensures Values(Apply(s, op).heap, s.output[n]) == Values(s.heap, s.output[n])
  {
    forall a | a in s.output[n] ensures Deref(s.heap, a) == Deref(Apply(s, op).heap, a) {
      assert op.Free? ==> s.phase.cur in Cur(s.phase);
      if op.Remove? && op.n in s.output { assert Holds(s, s.output[op.n], Output(op.n)); }
      HeapStays(s, op, a);
    }
    ValuesSame(s.heap, Apply(s, op).heap, s.output[n]);
  }

  /** Histories only grow. */
  lemma HistoryGrows(s: State, op: Op)
    requires Enabled(s, op)
    ensures var s' := Apply(s, op); s'.fps == s.fps && s.stamps <= s'.stamps && s.pushed <= s'.pushed
  {
  }

  /** The scanned frame at a round's end: one more round of `Expected`. */
  lemma DeliverOne(s: State, n: Name)
    requires CountInv(s) && NameInv(s) && s.phase.Scanning? && n in s.phase.todo && n in s.info && Delivered(s, n)
    requires Deref(s.heap, s.phase.cur) == s.pushed[|s.stamps| - 1]
    ensures var k, b := s.info[n].step, s.begun;
            var now := s.stamps[|s.stamps| - 1];
            && Expected(s, k, s.regs[n].start, b)
                 == Expected(s, k, s.regs[n].start, b - 1)
                    + (if Due(s, n) then [Stamped(Deref(s.heap, s.phase.cur), now)] else [])
            && (Due(s, n) <==> Selected(s.fps, k, b - 1))
  {
    assert s.begun == |s.stamps|;
  }

  lemma DeliverySkip(s: State, n: Name)
    requires NameInv(s) && CountInv(s) && InputInv(s) && Enabled(s, Skip(n))
    requires Delivered(s, n) && NameInv(Apply(s, Skip(n))) && CountInv(Apply(s, Skip(n)))
    ensures Delivered(Apply(s, Skip(n)), n)
  {
    DeliverOne(s, n);
    ExpectedSame(s, Apply(s, Skip(n)), s.info[n].step, s.regs[n].start, s.begun);
  }

  /** One more frame on both sides. */
  lemma DeliveredNext(s: State, s': State, n: Name, x: Frame, e: seq<Frame>)
    requires CountInv(s) && NameInv(s) && CountInv(s') && NameInv(s') && n in s.info && n in s'.info
    requires s'.regs[n] == s.regs[n] && s.regs[n].start <= Rounds(s', n)
    requires s.regs[n].got + Values(s.heap, s.output[n]) == s.regs[n].base + e
    requires Values(s'.heap, s'.output[n]) == Values(s.heap, s.output[n]) + [x]
    requires Expected(s', s'.info[n].step, s.regs[n].start, Rounds(s', n)) == e + [x]
    ensures Delivered(s', n)
  {
    var got, base, v := s.regs[n].got, s.regs[n].base, Values(s.heap, s.output[n]);
    assert got + (v + [x]) == (got + v) + [x];
    assert base + (e + [x]) == (base + e) + [x];
  }

  lemma ExpectedAfterDeliver(s: State, n: Name, x: Frame)
    requires CountInv(s) && NameInv(s) && InputInv(s) && Enabled(s, Deliver(n)) && Delivered(s, n)
    requires x == Stamped(Deref(s.heap, s.phase.cur), s.stamps[|s.stamps| - 1])
    ensures var k, lo, b := s.info[n].step, s.regs[n].start, s.begun;
            Expected(Apply(s, Deliver(n)), k, lo, b) == Expected(s, k, lo, b - 1) + [x]
  {
    DeliverOne(s, n);
    ExpectedSame(s, Apply(s, Deliver(n)), s.info[n].step, s.regs[n].start, s.begun);
  }

  lemma DeliveryDeliver(s: State, n: Name)
    requires MemInv(s) && PlaceInv(s) && NameInv(s) && CountInv(s) && InputInv(s) && Enabled(s, Deliver(n))
    requires Delivered(s, n) && NameInv(Apply(s, Deliver(n))) && CountInv(Apply(s, Deliver(n)))
    ensures Delivered(Apply(s, Deliver(n)), n)
  {
    var x := Stamped(Deref(s.heap, s.phase.cur), s.stamps[|s.stamps| - 1]);
    QueueAfterDeliver(s, n, x);
    ExpectedAfterDeliver(s, n, x);
    DeliveredNext(s, Apply(s, Deliver(n)), n, x, Expected(s, s.info[n].step, s.regs[n].start, s.begun - 1));
  }

  lemma QueueAfterDeliver(s: State, n: Name, x: Frame)
    requires MemInv(s) && PlaceInv(s) && NameInv(s) && Enabled(s, Deliver(n)) && s.stamps != []
    requires x == Stamped(Deref(s.heap, s.phase.cur), s.stamps[|s.stamps| - 1])
    ensures var s' := Apply(s, Deliver(n));
            n in s'.output && Values(s'.heap, s'.output[n]) == Values(s.heap, s.output[n]) + [x]
  {
    var s' := Apply(s, Deliver(n));
    QueueStays(s, Deliver(n), n);
    ValuesConcat(s'.heap, s.output[n], [s.next]);
    assert Values(s'.heap, [s.next]) == [x];
  }

  lemma DeliveryInsert(s: State, op: Op)
    requires Inv(s) && Enabled(s, op) && op.Insert? && NameInv(Apply(s, op)) && CountInv(Apply(s, op))
    ensures Delivered(Apply(s, op), op.n)
  {
    var s' := Apply(s, op);
    var n := op.n;
    assert [] + Values(s'.heap, s'.output[n]) == s'.regs[n].base + [];
  }

  lemma ShiftFirst(got: seq<Frame>, v: seq<Frame>)
    requires v != []
    ensures got + v == (got + [v[0]]) + v[1..]
  {
  }

  lemma DeliveryPop(s: State, n: Name)
    requires NameInv(s) && CountInv(s) && Enabled(s, Pop(n)) && Delivered(s, n)
    requires NameInv(Apply(s, Pop(n))) && CountInv(Apply(s, Pop(n)))
    ensures Delivered(Apply(s, Pop(n)), n)
  {
    var s' := Apply(s, Pop(n));
    var r, q := s.regs[n], s.output[n];
    ShiftFirst(r.got, Values(s.heap, q));
    assert Values(s'.heap, s'.output[n]) == Values(s.heap, q)[1..];
    assert s'.regs[n] == r.(got := r.got + [Values(s.heap, q)[0]]);
    ExpectedSame(s, s', s.info[n].step, r.start, Rounds(s, n));
  }

  /** Whether `op` is about the event `n`. */
  predicate Concerns(op: Op, n: Name) {
    (op.Skip? || op.Deliver? || op.Insert? || op.Pop? || op.Remove? || op.Stop?) && op.n == n
  }

  /** Everything recorded about event `n` is as before. */
  ghost predicate SameEvent(s: State, s': State, n: Name)
    requires n in s.info && n in s.output && n in s.regs
  {
    && n in s'.info && s'.info[n] == s.info[n]
    && n in s'.output && s'.output[n] == s.output[n]
    && n in s'.regs && s'.regs[n] == s.regs[n]
  }

  lemma SameRecords(s: State, op: Op, n: Name)
    requires NameInv(s) && Enabled(s, op) && n in s.info && !Concerns(op, n)
    ensures SameEvent(s, Apply(s, op), n)
  {
  }

  lemma SameRounds(s: State, op: Op, n: Name)
    requires Enabled(s, op) && n in s.info && !Concerns(op, n)
    ensures Rounds(Apply(s, op), n) == Rounds(s, n)
  {
  }

  /** The other events, and all events in operations that concern none. */
  lemma DeliveryOther(s: State, op: Op, n: Name)
    requires Inv(s) && Enabled(s, op) && NameInv(Apply(s, op)) && CountInv(Apply(s, op))
    requires n in s.info && n in Apply(s, op).info && !Concerns(op, n)
    ensures Delivered(Apply(s, op), n)
  {
    assert Delivered(s, n);
    QueueStays(s, op, n);
    HistoryGrows(s, op);
    SameRecords(s, op, n);
    SameRounds(s, op, n);
    ExpectedSame(s, Apply(s, op), s.info[n].step, s.regs[n].start, Rounds(s, n));
  }

  lemma KnownName(s: State, op: Op, n: Name)
    requires Enabled(s, op) && n in Apply(s, op).info
    ensures Concerns(op, n) ==> op.Skip? || op.Deliver? || op.Insert? || op.Pop?
    ensures !Concerns(op, n) ==> n in s.info
  {
  }

  lemma DeliveredAfter(s: State, op: Op, n: Name)
    requires Inv(s) && Enabled(s, op) && NameInv(Apply(s, op)) && CountInv(Apply(s, op)) && n in Apply(s, op).info
    ensures Delivered(Apply(s, op), n)
  {
    KnownName(s, op, n);
    if !Concerns(op, n) { DeliveryOther(s, op, n); }
    else if op.Skip? { assert Delivered(s, n); DeliverySkip(s, n); }
    else if op.Deliver? { assert Delivered(s, n); DeliveryDeliver(s, n); }
    else if op.Insert? { DeliveryInsert(s, op); }
    else { assert Delivered(s, n); DeliveryPop(s, n); }
  }

  lemma DeliveryStep(s: State, op: Op)
    requires Inv(s) && Enabled(s, op) && NameInv(Apply(s, op)) && CountInv(Apply(s, op))
    ensures DeliveryInv(Apply(s, op))
  {
    forall n | n in Apply(s, op).info ensures Delivered(Apply(s, op), n) { DeliveredAfter(s, op, n); }
  }

  lemma InvStep(s: State, op: Op)
    requires Inv(s) && Enabled(s, op)
    ensures Inv(Apply(s, op))
  {
    NameStep(s, op);
    CountStep(s, op);
    MemStep(s, op);
    PlaceStep(s, op);
    InputStep(s, op);
    DeliveryStep(s, op);
  }
}
