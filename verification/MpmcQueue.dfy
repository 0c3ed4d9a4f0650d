/** The multi-producer multi-consumer blocking queue as a transition system over its threads.

    Each critical section under `queue_mutex_` is one step. A notification is sent after the
    mutex has been released, so it is a step of its own: between the two a thread "owes" it.
    Sleeping, being woken (by a notification, spuriously or by a timeout) and re-testing the
    wait predicate are separate steps too. Any number of threads may take part, in any role. */
module MpmcQueue {
  import opened Basics
  import opened Bounded

  type Tid = nat

  /** Where a thread stands inside the queue's operations. */
  datatype Pc<T> =
    | Idle
    | PWant(item: T)               // about to enter the critical section of `enqueue`
    | PAsleep(item: T)             // waits on `pop_cv_`
    | PWoken(item: T)              // woken from `pop_cv_`, about to re-test `full()`
    | PNotify                      // pushed an item, owes `push_cv_.notify_one()`
    | PDiscard                     // found no room, owes the increment of `discard_counter_`
    | CWant(timed: bool)           // about to enter the critical section of `dequeue`/`dequeue_for`
    | CAsleep(timed: bool)         // waits on `push_cv_`
    | CWoken(timed: bool, expired: bool)
    | CNotify(item: T)             // popped `item`, owes `pop_cv_.notify_one()`

  /** An item that left the queue, either to a consumer or overwritten by a newer one. */
  datatype Removal<T> = Removal(item: T, delivered: bool)

  /** `accepted`, `removed`, `rejected` and the two marks are history. */
  datatype State<T> = State(
    cap: nat,
    q: seq<T>,
    overrun: nat,
    discard: nat,
    pc: map<Tid, Pc<T>>,
    accepted: seq<T>,
    removed: seq<Removal<T>>,
    overrunMark: nat,       // |removed| when the overrun counter was last reset
    rejected: seq<T>,
    discardMark: int        // |rejected| minus the increments still owed, when the discard counter was last reset
  )

  datatype Step<T> =
    | StartEnqueue(t: Tid, item: T)
    | PTry(t: Tid)
    | Nowait(t: Tid, item: T)
    | IfHaveRoom(t: Tid, item: T)
    | Discard(t: Tid)
    | NotifyPush(t: Tid, w: Option<Tid>)
    | StartDequeue(t: Tid, timed: bool)
    | CTry(t: Tid)
    | NotifyPop(t: Tid, w: Option<Tid>)
    | WakeConsumer(t: Tid)
    | WakeProducer(t: Tid)
    | Timeout(t: Tid)
    | ResetOverrun
    | ResetDiscard

  // ---------------------------------------------------------------- thread sets

  datatype Kind =
    | Elsewhere | OwesPush | OwesPop | ConsumerAsleep | ConsumerWoken | ProducerAsleep | ProducerWoken | OwesDiscard

  function KindOf<T>(p: Pc<T>): Kind {
    match p
    case PNotify => OwesPush
    case CNotify(_) => OwesPop
    case CAsleep(_) => ConsumerAsleep
    case CWoken(_, _) => ConsumerWoken
    case PAsleep(_) => ProducerAsleep
    case PWoken(_) => ProducerWoken
    case PDiscard => OwesDiscard
    case _ => Elsewhere
  }

  ghost function Threads<T>(s: State<T>, k: Kind): set<Tid> { set t | t in s.pc && KindOf(s.pc[t]) == k }

  /** How many threads are at a place of kind `k`. */
  ghost function Count<T>(s: State<T>, k: Kind): nat { |Threads(s, k)| }

  // ---------------------------------------------------------------- steps

  predicate Sized<T>(s: State<T>) { 0 < s.cap && |s.q| <= s.cap }

  predicate Full<T>(s: State<T>) { |s.q| == s.cap }

  /** `push_back` of the ring: when it is full the oldest item is overwritten. */
  function Pushed<T>(s: State<T>, x: T): State<T>
    requires Sized(s)
  {
    var s' := s.(q := Push(s.q, s.cap, x), accepted := s.accepted + [x]);
    if |s.q| < s.cap then s'
    else s'.(overrun := s.overrun + 1, removed := s.removed + [Removal((s.q + [x])[0], false)])
  }

  function Popped<T>(s: State<T>): State<T>
    requires s.q != []
  {
    s.(q := s.q[1..], removed := s.removed + [Removal(s.q[0], true)])
  }

  function At<T>(s: State<T>, t: Tid, p: Pc<T>): (s': State<T>)
    ensures t in s.pc ==> s'.pc.Keys == s.pc.Keys
  {
    s.(pc := s.pc[t := p])
  }

  /** `notify_one` wakes one sleeper if there is one. */
  ghost predicate NotifyChoice(sleepers: set<Tid>, w: Option<Tid>) {
    match w
    case None => sleepers == {}
    case Some(u) => u in sleepers
  }

  ghost predicate Enabled<T>(s: State<T>, step: Step<T>) {
    match step
    case StartEnqueue(t, _) => t in s.pc && s.pc[t].Idle?
    case PTry(t) => t in s.pc && (s.pc[t].PWant? || s.pc[t].PWoken?)
    case Nowait(t, _) => t in s.pc && s.pc[t].Idle?
    case IfHaveRoom(t, _) => t in s.pc && s.pc[t].Idle?
    case Discard(t) => t in s.pc && s.pc[t].PDiscard?
    case NotifyPush(t, w) => t in s.pc && s.pc[t].PNotify? && NotifyChoice(Threads(s, ConsumerAsleep), w)
    case StartDequeue(t, _) => t in s.pc && s.pc[t].Idle?
    case CTry(t) => t in s.pc && (s.pc[t].CWant? || s.pc[t].CWoken?)
    case NotifyPop(t, w) => t in s.pc && s.pc[t].CNotify? && NotifyChoice(Threads(s, ProducerAsleep), w)
    case WakeConsumer(t) => t in s.pc && s.pc[t].CAsleep?
    case WakeProducer(t) => t in s.pc && s.pc[t].PAsleep?
    case Timeout(t) => t in s.pc && s.pc[t].CAsleep? && s.pc[t].timed
    case ResetOverrun => true
    case ResetDiscard => true
  }

  ghost function Apply<T>(s: State<T>, step: Step<T>): (s': State<T>)
    requires Sized(s) && Enabled(s, step)
    ensures Sized(s') && s'.pc.Keys == s.pc.Keys
  {
    match step
    case StartEnqueue(t, x) => At(s, t, PWant(x))
    case PTry(t) =>
      var x := s.pc[t].item;
      if Full(s) then At(s, t, PAsleep(x)) else At(Pushed(s, x), t, PNotify)
    case Nowait(t, x) => At(Pushed(s, x), t, PNotify)
    case IfHaveRoom(t, x) =>
      if Full(s) then At(s.(rejected := s.rejected + [x]), t, PDiscard) else At(Pushed(s, x), t, PNotify)
    case Discard(t) => At(s.(discard := s.discard + 1), t, Idle)
    case NotifyPush(t, w) =>
      var s' := At(s, t, Idle);
      (match w case None => s' case Some(u) => At(s', u, CWoken(s.pc[u].timed, false)))
    case StartDequeue(t, timed) => At(s, t, CWant(timed))
    case CTry(t) =>
      if s.q != [] then At(Popped(s), t, CNotify(s.q[0]))
      else if s.pc[t].CWoken? && s.pc[t].expired then At(s, t, Idle)   // `dequeue_for` returns false
      else At(s, t, CAsleep(s.pc[t].timed))
    case NotifyPop(t, w) =>
      var s' := At(s, t, Idle);
      (match w case None => s' case Some(u) => At(s', u, PWoken(s.pc[u].item)))
    case WakeConsumer(t) => At(s, t, CWoken(s.pc[t].timed, false))
    case WakeProducer(t) => At(s, t, PWoken(s.pc[t].item))
    case Timeout(t) => At(s, t, CWoken(true, true))
    case ResetOverrun => s.(overrun := 0, overrunMark := |s.removed|)
    case ResetDiscard => s.(discard := 0, discardMark := |s.rejected| - Count(s, OwesDiscard))
  }

  // ---------------------------------------------------------------- invariants

  function Items<T>(h: seq<Removal<T>>): seq<T> {
    if h == [] then [] else Items(h[..|h| - 1]) + [h[|h| - 1].item]
  }

  function Delivered<T>(h: seq<Removal<T>>): seq<T> {
    if h == [] then []
    else Delivered(h[..|h| - 1]) + if h[|h| - 1].delivered then [h[|h| - 1].item] else []
  }

  function Overruns<T>(h: seq<Removal<T>>): nat {
    if h == [] then 0 else Overruns(h[..|h| - 1]) + if h[|h| - 1].delivered then 0 else 1
  }

  /** What was accepted is what left, in that order, followed by what is still queued. */
  ghost predicate FifoInv<T>(s: State<T>) {
    && Sized(s)
    && s.accepted == Items(s.removed) + s.q
    && s.overrunMark <= |s.removed|
    && s.overrun == Overruns(s.removed[s.overrunMark..])
  }

  ghost predicate DiscardInv<T>(s: State<T>) {
    s.discard + s.discardMark + Count(s, OwesDiscard) == |s.rejected|
  }

  /** No lost wake-up for consumers. */
  ghost predicate ConsumerWake<T>(s: State<T>) {
    Count(s, ConsumerAsleep) > 0 ==> |s.q| <= Count(s, OwesPush) + Count(s, ConsumerWoken)
  }

  /** No lost wake-up for producers. */
  ghost predicate ProducerWake<T>(s: State<T>) {
    Count(s, ProducerAsleep) > 0 ==> s.cap - |s.q| <= Count(s, OwesPop) + Count(s, ProducerWoken)
  }

  ghost predicate Inv<T>(s: State<T>) {
    FifoInv(s) && DiscardInv(s) && ConsumerWake(s) && ProducerWake(s)
  }

  ghost predicate Init<T>(s: State<T>) {
    && Sized(s) && s.q == [] && s.overrun == 0 && s.discard == 0
    && (forall t :: t in s.pc ==> s.pc[t].Idle?)
    && s.accepted == [] && s.removed == [] && s.overrunMark == 0 && s.rejected == [] && s.discardMark == 0
  }

  lemma InitInv<T>(s: State<T>)
    requires Init(s)
    ensures Inv(s)
  {
    assert Threads(s, OwesDiscard) == {};
    assert Threads(s, ConsumerAsleep) == {};
    assert Threads(s, ProducerAsleep) == {};
  }

  /** A thread that moves is counted once less where it was and once more where it goes. */
  lemma CountAt<T>(s: State<T>, t: Tid, p: Pc<T>, k: Kind)
    requires t in s.pc
    ensures Count(At(s, t, p), k) == Count(s, k) - One(KindOf(s.pc[t]) == k) + One(KindOf(p) == k)
    ensures KindOf(s.pc[t]) == k ==> Count(s, k) > 0
  {
    var before, after := Threads(s, k), Threads(At(s, t, p), k);
    var rest := before - {t};
    assert rest == after - {t};
    assert t in before <==> KindOf(s.pc[t]) == k;
    assert t in after <==> KindOf(p) == k;
    assert |before| == |rest| + One(t in before);
    assert |after| == |rest| + One(t in after);
  }

  lemma SamePcs<T>(s: State<T>, s': State<T>, k: Kind)
    requires s.pc == s'.pc
    ensures Count(s, k) == Count(s', k)
  {
    assert Threads(s, k) == Threads(s', k);
  }

  lemma CountsAt<T>(s: State<T>, t: Tid, p: Pc<T>)
    requires t in s.pc
    ensures forall k :: Count(At(s, t, p), k) == Count(s, k) - One(KindOf(s.pc[t]) == k) + One(KindOf(p) == k)
    ensures Count(s, KindOf(s.pc[t])) > 0
  {
    forall k ensures Count(At(s, t, p), k) == Count(s, k) - One(KindOf(s.pc[t]) == k) + One(KindOf(p) == k) {
      CountAt(s, t, p, k);
    }
    CountAt(s, t, p, KindOf(s.pc[t]));
  }

  lemma ItemsAppend<T>(h: seq<Removal<T>>, r: Removal<T>)
    ensures Items(h + [r]) == Items(h) + [r.item]
    ensures Delivered(h + [r]) == Delivered(h) + if r.delivered then [r.item] else []
    ensures Overruns(h + [r]) == Overruns(h) + if r.delivered then 0 else 1
  {
    assert (h + [r])[..|h|] == h;
  }

  /** Appending an item while the oldest one leaves: the history and the queue together have one item more. */
  lemma AppendShift<T>(gone: seq<T>, q: seq<T>, x: T)
    ensures (gone + q) + [x] == (gone + [(q + [x])[0]]) + (q + [x])[1..]
    ensures (gone + q) + [x] == gone + (q + [x])
  {
  }

  lemma FifoPushed<T>(s: State<T>, x: T)
    requires FifoInv(s)
    ensures FifoInv(Pushed(s, x))
  {
    AppendShift(Items(s.removed), s.q, x);
    if |s.q| == s.cap {
      var r := Removal((s.q + [x])[0], false);
      ItemsAppend(s.removed, r);
      assert (s.removed + [r])[s.overrunMark..] == s.removed[s.overrunMark..] + [r];
      ItemsAppend(s.removed[s.overrunMark..], r);
    }
  }

  lemma FifoPopped<T>(s: State<T>)
    requires FifoInv(s) && s.q != []
    ensures FifoInv(Popped(s))
  {
    var r := Removal(s.q[0], true);
    var before, after := s.removed, s.removed + [r];
    ItemsAppend(before, r);
    assert Items(before) + s.q == Items(after) + s.q[1..];
    assert after[s.overrunMark..] == before[s.overrunMark..] + [r];
    ItemsAppend(before[s.overrunMark..], r);
  }

  lemma FifoStep<T>(s: State<T>, step: Step<T>)
    requires FifoInv(s) && Enabled(s, step)
    ensures FifoInv(Apply(s, step))
  {
    match step
    case PTry(t) => if !Full(s) { FifoPushed(s, s.pc[t].item); }
    case Nowait(t, x) => FifoPushed(s, x);
    case IfHaveRoom(t, x) => if !Full(s) { FifoPushed(s, x); }
    case CTry(t) => if s.q != [] { FifoPopped(s); }
    case ResetOverrun => assert s.removed[|s.removed|..] == [];
    case _ =>
  }

  // ---------------------------------------------------------------- the counts, step by step

  ghost predicate Counts<T>(s: State<T>) { DiscardInv(s) && ConsumerWake(s) && ProducerWake(s) }

  /** One thread goes from a place of kind `a` to one of kind `b`. */
  ghost predicate Shift<T>(s: State<T>, s': State<T>, a: Kind, b: Kind) {
    Count(s, a) > 0 && forall k :: Count(s', k) == Count(s, k) - One(a == k) + One(b == k)
  }

  lemma MoveOne<T>(s: State<T>, s': State<T>, t: Tid, p: Pc<T>)
    requires t in s.pc && s'.pc == s.pc[t := p]
    ensures Shift(s, s', KindOf(s.pc[t]), KindOf(p))
  {
    CountsAt(s, t, p);
    forall k ensures Count(s', k) == Count(At(s, t, p), k) { SamePcs(s', At(s, t, p), k); }
  }

  /** What one thread may do to the counts and to the number of items queued. */
  predicate Allowed(a: Kind, b: Kind, queued: int, queued': int, cap: int) {
    || (queued' == queued && a == Elsewhere && b == Elsewhere)
    || (queued' == queued && a == ConsumerAsleep && b == ConsumerWoken)
    || (queued' == queued && a == ProducerAsleep && b == ProducerWoken)
    || (queued' == queued == 0 && (a == Elsewhere || a == ConsumerWoken) && (b == ConsumerAsleep || b == Elsewhere))
    || (queued' == queued == cap && (a == Elsewhere || a == ProducerWoken) && b == ProducerAsleep)
    || (queued <= queued' <= queued + 1 && a == Elsewhere && b == OwesPush)
    || (queued' == queued + 1 && a == ProducerWoken && b == OwesPush)
    || (queued' == queued - 1 && (a == Elsewhere || a == ConsumerWoken) && b == OwesPop)
  }

  lemma ShiftKeeps<T>(s: State<T>, s': State<T>, a: Kind, b: Kind)
    requires Counts(s) && Shift(s, s', a, b) && Allowed(a, b, |s.q|, |s'.q|, s.cap) && s'.cap == s.cap
    requires s'.discard == s.discard && s'.discardMark == s.discardMark && s'.rejected == s.rejected
    ensures Counts(s')
  {
  }

  /** A notification that finds nobody to wake. */
  lemma NobodyToWake<T>(s: State<T>, s': State<T>, a: Kind)
    requires Counts(s) && Shift(s, s', a, Elsewhere) && s' == s.(pc := s'.pc)
    requires (a == OwesPush && Count(s, ConsumerAsleep) == 0) || (a == OwesPop && Count(s, ProducerAsleep) == 0)
    ensures Counts(s')
  {
  }

  /** A notification that wakes a sleeper. */
  lemma WakesOne<T>(s: State<T>, m: State<T>, s': State<T>, push: bool)
    requires Counts(s) && m == s.(pc := m.pc) && s' == s.(pc := s'.pc)
    requires Shift(s, m, if push then OwesPush else OwesPop, Elsewhere)
    requires if push then Shift(m, s', ConsumerAsleep, ConsumerWoken) else Shift(m, s', ProducerAsleep, ProducerWoken)
    ensures Counts(s')
  {
  }

  lemma NotifiesNobody<T>(s: State<T>, step: Step<T>)
    requires Sized(s) && Counts(s) && Enabled(s, step)
    requires (step.NotifyPush? || step.NotifyPop?) && step.w.None?
    ensures Counts(Apply(s, step))
  {
    var s' := Apply(s, step);
    MoveOne(s, s', step.t, Idle);
    NobodyToWake(s, s', KindOf(s.pc[step.t]));
  }

  /** `t` has paid the notification it owed and `u` is woken by it. */
  lemma Notified<T>(s: State<T>, s': State<T>, t: Tid, u: Tid, p: Pc<T>, push: bool)
    requires Counts(s) && t in s.pc && u in s.pc && t != u && s' == s.(pc := s.pc[t := Idle][u := p])
    requires KindOf(s.pc[t]) == if push then OwesPush else OwesPop
    requires KindOf(s.pc[u]) == if push then ConsumerAsleep else ProducerAsleep
    requires KindOf(p) == if push then ConsumerWoken else ProducerWoken
    ensures Counts(s')
  {
    var m := At(s, t, Idle);
    MoveOne(s, m, t, Idle);
    MoveOne(m, s', u, p);
    WakesOne(s, m, s', push);
  }

  lemma NotifiesSomebody<T>(s: State<T>, step: Step<T>)
    requires Sized(s) && Counts(s) && Enabled(s, step)
    requires (step.NotifyPush? || step.NotifyPop?) && step.w.Some?
    ensures Counts(Apply(s, step))
  {
    var s' := Apply(s, step);
    Notified(s, s', step.t, step.w.value, s'.pc[step.w.value], step.NotifyPush?);
  }

  /** Steps that move one thread and may change the queue, but refuse no item. */
  predicate Single<T>(step: Step<T>) {
    step.StartEnqueue? || step.PTry? || step.Nowait? || step.StartDequeue? || step.CTry? || step.WakeConsumer?
    || step.WakeProducer? || step.Timeout?
  }

  lemma SingleIsAllowed<T>(s: State<T>, step: Step<T>)
    requires Sized(s) && Enabled(s, step) && (Single(step) || (step.IfHaveRoom? && !Full(s)))
    ensures var s', t := Apply(s, step), step.t;
            && t in s.pc && t in s'.pc && s'.pc == s.pc[t := s'.pc[t]]
            && Allowed(KindOf(s.pc[t]), KindOf(s'.pc[t]), |s.q|, |s'.q|, s.cap)
            && s'.cap == s.cap && s'.discard == s.discard
            && s'.discardMark == s.discardMark && s'.rejected == s.rejected
  {
  }

  lemma SingleStep<T>(s: State<T>, step: Step<T>)
    requires Sized(s) && Counts(s) && Enabled(s, step) && (Single(step) || (step.IfHaveRoom? && !Full(s)))
    ensures Counts(Apply(s, step))
  {
    var s', t := Apply(s, step), step.t;
    SingleIsAllowed(s, step);
    MoveOne(s, s', t, s'.pc[t]);
    ShiftKeeps(s, s', KindOf(s.pc[t]), KindOf(s'.pc[t]));
  }

  /** An item is refused, and the refusal is counted. */
  lemma RefusalKeeps<T>(s: State<T>, s': State<T>, a: Kind, b: Kind)
    requires Counts(s) && Shift(s, s', a, b) && s'.q == s.q && s'.cap == s.cap && s'.discardMark == s.discardMark
    requires if a == OwesDiscard then b == Elsewhere && s'.discard == s.discard + 1 && s'.rejected == s.rejected
             else a == Elsewhere && b == OwesDiscard && s'.discard == s.discard && |s'.rejected| == |s.rejected| + 1
    ensures Counts(s')
  {
  }

  lemma RefusalStep<T>(s: State<T>, step: Step<T>)
    requires Sized(s) && Counts(s) && Enabled(s, step) && ((step.IfHaveRoom? && Full(s)) || step.Discard?)
    ensures Counts(Apply(s, step))
  {
    var s', t := Apply(s, step), step.t;
    MoveOne(s, s', t, s'.pc[t]);
    RefusalKeeps(s, s', KindOf(s.pc[t]), KindOf(s'.pc[t]));
  }

  lemma ResetStep<T>(s: State<T>, step: Step<T>)
    requires Sized(s) && Counts(s) && Enabled(s, step) && (step.ResetOverrun? || step.ResetDiscard?)
    ensures Counts(Apply(s, step))
  {
    forall k ensures Count(Apply(s, step), k) == Count(s, k) { SamePcs(s, Apply(s, step), k); }
  }

  /** Every step of every thread keeps the invariant. */
  lemma InvStep<T>(s: State<T>, step: Step<T>)
    requires Inv(s) && Enabled(s, step)
    ensures Inv(Apply(s, step))
  {
    FifoStep(s, step);
    match step
    case NotifyPush(_, w) => if w.None? { NotifiesNobody(s, step); } else { NotifiesSomebody(s, step); }
    case NotifyPop(_, w) => if w.None? { NotifiesNobody(s, step); } else { NotifiesSomebody(s, step); }
    case ResetOverrun => ResetStep(s, step);
    case ResetDiscard => ResetStep(s, step);
    case Discard(_) => RefusalStep(s, step);
    case IfHaveRoom(_, _) => if Full(s) { RefusalStep(s, step); } else { SingleStep(s, step); }
    case _ => SingleStep(s, step);
  }

  // ---------------------------------------------------------------- whole runs

  ghost predicate LegalRun<T>(s: State<T>, steps: seq<Step<T>>)
    requires Sized(s)
    decreases |steps|
  {
    steps != [] ==> Enabled(s, steps[0]) && LegalRun(Apply(s, steps[0]), steps[1..])
  }

  ghost function Final<T>(s: State<T>, steps: seq<Step<T>>): (s': State<T>)
    requires Sized(s) && LegalRun(s, steps)
    ensures Sized(s')
    decreases |steps|
  {
    if steps == [] then s else Final(Apply(s, steps[0]), steps[1..])
  }

  lemma {:induction false} RunInv<T>(s: State<T>, steps: seq<Step<T>>)
    requires Inv(s) && LegalRun(s, steps)
    ensures Inv(Final(s, steps))
    decreases |steps|
  {
    if steps == [] {
    } else {
      InvStep(s, steps[0]);
      RunInv(Apply(s, steps[0]), steps[1..]);
    }
  }

  /** The ring operations that a run performs, in the order of its critical sections. */
  ghost function RingOps<T>(s: State<T>, steps: seq<Step<T>>): seq<Op<T>>
    requires Sized(s) && LegalRun(s, steps)
    decreases |steps|
  {
    if steps == [] then [] else RingOp(s, steps[0]) + RingOps(Apply(s, steps[0]), steps[1..])
  }

  ghost function RingOp<T>(s: State<T>, step: Step<T>): seq<Op<T>>
    requires Sized(s) && Enabled(s, step)
  {
    match step
    case PTry(t) => if Full(s) then [] else [PushOp(s.pc[t].item)]
    case Nowait(_, x) => [PushOp(x)]
    case IfHaveRoom(_, x) => if Full(s) then [] else [PushOp(x)]
    case CTry(_) => if s.q == [] then [] else [PopOp]
    case _ => []
  }

  function AfterOp<T>(r: Ring<T>, cap: nat, op: seq<Op<T>>): (r': Ring<T>)
    requires |r.items| <= cap && |op| <= 1 && (op != [] && op[0].PopOp? ==> r.items != [])
    ensures |r'.items| <= cap
  {
    if op == [] then r else Bounded.Step(r, cap, op[0])
  }

  lemma PrependOps<T>(r: Ring<T>, cap: nat, op: seq<Op<T>>, ops: seq<Op<T>>)
    requires |r.items| <= cap && |op| <= 1 && (op != [] && op[0].PopOp? ==> r.items != [])
    requires Legal(AfterOp(r, cap, op), cap, ops)
    ensures Legal(r, cap, op + ops)
    ensures Bounded.Run(r, cap, op + ops) == Bounded.Run(AfterOp(r, cap, op), cap, ops)
    ensures PushedItems(op + ops) == PushedItems(op) + PushedItems(ops)
  {
    if op == [] {
      assert op + ops == ops;
    } else {
      assert (op + ops)[1..] == ops;
      assert op[1..] == [];
    }
  }

  /** From `s` to `s'` the queue did what `ops` do to a ring `r` with the same items. */
  ghost predicate ActsLike<T>(s: State<T>, s': State<T>, r: Ring<T>, ops: seq<Op<T>>)
    requires |r.items| <= s.cap
  {
    && Legal(r, s.cap, ops)
    && Bounded.Run(r, s.cap, ops).items == s'.q
    && s'.accepted == s.accepted + PushedItems(ops)
    && Bounded.Run(r, s.cap, ops).overruns - r.overruns == Overruns(s'.removed) - Overruns(s.removed)
  }

  /** Any interleaving of any number of threads is a sequential use of the ring: the queue holds what a ring `r` with
      the same items would hold after the same operations one by one, and what was accepted is what those pushed. */
  lemma {:induction false} Linearizable<T>(s: State<T>, steps: seq<Step<T>>, r: Ring<T>)
    requires Sized(s) && LegalRun(s, steps) && r.items == s.q
    ensures ActsLike(s, Final(s, steps), r, RingOps(s, steps))
    decreases |steps|
  {
    if steps == [] {
    } else {
      var step := steps[0];
      var s1 := Apply(s, step);
      var op, ops := RingOp(s, step), RingOps(s1, steps[1..]);
      OneRingOp(s, step, r);
      Linearizable(s1, steps[1..], AfterOp(r, s.cap, op));
      ActsLikeTrans(s, s1, Final(s, steps), r, op, ops);
    }
  }

  lemma ActsLikeTrans<T>(s: State<T>, s1: State<T>, s': State<T>, r: Ring<T>, op: seq<Op<T>>, ops: seq<Op<T>>)
    requires |r.items| <= s.cap == s1.cap && |op| <= 1 && (op != [] && op[0].PopOp? ==> r.items != [])
    requires ActsLike(s1, s', AfterOp(r, s.cap, op), ops)
    requires s1.accepted == s.accepted + PushedItems(op)
    requires AfterOp(r, s.cap, op).overruns - r.overruns == Overruns(s1.removed) - Overruns(s.removed)
    ensures ActsLike(s, s', r, op + ops)
  {
    PrependOps(r, s.cap, op, ops);
    Associative(s.accepted, PushedItems(op), PushedItems(ops));
  }

  lemma Associative<T>(a: seq<T>, b: seq<T>, c: seq<T>)
    ensures (a + b) + c == a + (b + c)
  {
  }

  lemma PushedIsStep<T>(s: State<T>, x: T, r: Ring<T>)
    requires Sized(s) && r.items == s.q
    ensures var s', r' := Pushed(s, x), Bounded.Step(r, s.cap, PushOp(x));
            && r'.items == s'.q && s'.cap == s.cap && s'.accepted == s.accepted + [x]
            && r'.overruns - r.overruns == Overruns(s'.removed) - Overruns(s.removed)
  {
    if |s.q| >= s.cap {
      ItemsAppend(s.removed, Removal((s.q + [x])[0], false));
    }
  }

  lemma PoppedIsStep<T>(s: State<T>, r: Ring<T>)
    requires Sized(s) && s.q != [] && r.items == s.q
    ensures var s', r' := Popped(s), Bounded.Step<T>(r, s.cap, PopOp);
            && r'.items == s'.q && s'.cap == s.cap && s'.accepted == s.accepted
            && r'.overruns - r.overruns == Overruns(s'.removed) - Overruns(s.removed)
  {
    ItemsAppend(s.removed, Removal(s.q[0], true));
  }

  lemma OneRingOp<T>(s: State<T>, step: Step<T>, r: Ring<T>)
    requires Sized(s) && Enabled(s, step) && r.items == s.q
    ensures var op, s' := RingOp(s, step), Apply(s, step);
            && s'.cap == s.cap && |op| <= 1
            && (op != [] && op[0].PopOp? ==> s.q != [])
            && (var r' := AfterOp(r, s.cap, op);
                r'.items == s'.q && r'.overruns - r.overruns == Overruns(s'.removed) - Overruns(s.removed))
            && s'.accepted == s.accepted + PushedItems(op)
  {
    var op := RingOp(s, step);
    if op == [] {
    } else if op[0].PushOp? {
      assert op[1..] == [];
      PushedIsStep(s, op[0].x, r);
    } else {
      assert op[1..] == [];
      PoppedIsStep(s, r);
    }
  }

  ghost predicate IsReset<T>(step: Step<T>) { step.ResetOverrun? || step.ResetDiscard? }

  lemma {:induction false} MarksStay<T>(s: State<T>, steps: seq<Step<T>>)
    requires Sized(s) && LegalRun(s, steps) && forall step :: step in steps ==> !IsReset(step)
    ensures Final(s, steps).overrunMark == s.overrunMark && Final(s, steps).discardMark == s.discardMark
    decreases |steps|
  {
    if steps == [] {
    } else {
      assert !IsReset(steps[0]);
      MarksStay(Apply(s, steps[0]), steps[1..]);
    }
  }

  predicate Subsequence<T(==)>(a: seq<T>, b: seq<T>)
    decreases |b|
  {
    if b == [] then a == []
    else Subsequence(a, b[..|b| - 1])
         || (a != [] && a[|a| - 1] == b[|b| - 1] && Subsequence(a[..|a| - 1], b[..|b| - 1]))
  }

  lemma {:induction false} DeliveredInOrder<T>(h: seq<Removal<T>>)
    ensures Subsequence(Delivered(h), Items(h))
    ensures |Items(h)| == |h| == |Delivered(h)| + Overruns(h)
  {
    if h == [] {
    } else {
      var h0, r := h[..|h| - 1], h[|h| - 1];
      DeliveredInOrder(h0);
      var a, b := Delivered(h), Items(h);
      assert b[..|b| - 1] == Items(h0) && b[|b| - 1] == r.item;
      if r.delivered {
        assert a == Delivered(h0) + [r.item];
        assert a[..|a| - 1] == Delivered(h0) && a[|a| - 1] == r.item;
      } else {
        assert a == Delivered(h0);
      }
    }
  }

  lemma {:induction false} OverrunsSplit<T>(h: seq<Removal<T>>, k: nat)
    requires k <= |h|
    ensures Overruns(h) == Overruns(h[..k]) + Overruns(h[k..])
  {
    if k == |h| {
      assert h[..k] == h && h[k..] == [];
    } else {
      var n := |h| - 1;
      OverrunsSplit(h[..n], k);
      assert h[..n][..k] == h[..k] && h[..n][k..] == h[k..n];
      assert h[k..][..n - k] == h[k..n] && h[k..][n - k] == h[n];
    }
  }

  lemma {:induction false} RemovedGrows<T>(s: State<T>, steps: seq<Step<T>>)
    requires Sized(s) && LegalRun(s, steps)
    ensures s.removed <= Final(s, steps).removed
    decreases |steps|
  {
    if steps == [] {
    } else {
      RemovedGrows(Apply(s, steps[0]), steps[1..]);
    }
  }

  /** The counters over any part of a run in which none is reset: each grows by exactly what was lost in that part, a
      rejected item counting as soon as its increment is owed. */
  lemma CountersSince<T>(s: State<T>, steps: seq<Step<T>>)
    requires Inv(s) && LegalRun(s, steps) && forall step :: step in steps ==> !IsReset(step)
    ensures var s' := Final(s, steps);
            && s'.overrun - s.overrun == Overruns(s'.removed) - Overruns(s.removed)
            && (s'.discard + Count(s', OwesDiscard)) - (s.discard + Count(s, OwesDiscard))
                 == |s'.rejected| - |s.rejected|
  {
    RunInv(s, steps);
    MarksStay(s, steps);
    RemovedGrows(s, steps);
    OverrunsSplit(s.removed, s.overrunMark);
    var removed := Final(s, steps).removed;
    OverrunsSplit(removed, s.overrunMark);
    assert removed[..s.overrunMark] == s.removed[..s.overrunMark];
  }

  /** The three overflow policies, in a run from an empty queue with any resets in its first part and none in the rest:
      every accepted item is delivered, queued or overwritten, deliveries keep the order of acceptance, and in the rest
      the counters grow by exactly the overwritten and the rejected items. After a reset a counter starts from zero. */
  lemma Accounting<T>(s: State<T>, before: seq<Step<T>>, after: seq<Step<T>>)
    requires Init(s) && LegalRun(s, before) && LegalRun(Final(s, before), after)
    requires forall step :: step in after ==> !IsReset(step)
    ensures var m, s' := Final(s, before), Final(Final(s, before), after);
            && |s'.accepted| == |Delivered(s'.removed)| + |s'.q| + Overruns(s'.removed)
            && s'.accepted == Items(s'.removed) + s'.q
            && Subsequence(Delivered(s'.removed), Items(s'.removed))
            && |s'.q| <= s'.cap
            && s'.overrun - m.overrun == Overruns(s'.removed) - Overruns(m.removed)
            && (s'.discard + Count(s', OwesDiscard)) - (m.discard + Count(m, OwesDiscard))
                 == |s'.rejected| - |m.rejected|
    ensures before == [] ==> Final(s, before).overrun == Overruns(Final(s, before).removed) == 0
    ensures before != [] && before[|before| - 1].ResetOverrun? ==> Final(s, before).overrun == 0
    ensures before != [] && before[|before| - 1].ResetDiscard? ==> Final(s, before).discard == 0
  {
    InitInv(s);
    RunInv(s, before);
    var m := Final(s, before);
    RunInv(m, after);
    CountersSince(m, after);
    DeliveredInOrder(Final(m, after).removed);
    if before != [] { LastStep(s, before); }
  }

  lemma {:induction false} LastStep<T>(s: State<T>, steps: seq<Step<T>>)
    requires Sized(s) && LegalRun(s, steps) && steps != []
    ensures steps[|steps| - 1].ResetOverrun? ==> Final(s, steps).overrun == 0
    ensures steps[|steps| - 1].ResetDiscard? ==> Final(s, steps).discard == 0
    decreases |steps|
  {
    if |steps| == 1 {
      assert steps[1..] == [];
    } else {
      LastStep(Apply(s, steps[0]), steps[1..]);
    }
  }

  lemma {:induction false} NoOverrunDelivers<T>(h: seq<Removal<T>>)
    requires Overruns(h) == 0
    ensures Delivered(h) == Items(h)
  {
    if h == [] {
    } else {
      NoOverrunDelivers(h[..|h| - 1]);
    }
  }

  lemma {:induction false} OnlyNowaitOverruns<T>(s: State<T>, steps: seq<Step<T>>)
    requires Sized(s) && LegalRun(s, steps) && forall step :: step in steps ==> !step.Nowait?
    ensures Overruns(Final(s, steps).removed) == Overruns(s.removed)
    decreases |steps|
  {
    if steps == [] {
    } else {
      var step := steps[0];
      assert !step.Nowait?;
      var s1 := Apply(s, step);
      if s1.removed != s.removed {
        ItemsAppend(s.removed, s1.removed[|s.removed|]);
      }
      OnlyNowaitOverruns(s1, steps[1..]);
    }
  }

  lemma {:induction false} OnlyIfHaveRoomRejects<T>(s: State<T>, steps: seq<Step<T>>)
    requires Sized(s) && LegalRun(s, steps) && forall step :: step in steps ==> !step.IfHaveRoom?
    ensures Final(s, steps).rejected == s.rejected
    decreases |steps|
  {
    if steps == [] {
    } else {
      assert !steps[0].IfHaveRoom?;
      OnlyIfHaveRoomRejects(Apply(s, steps[0]), steps[1..]);
    }
  }

  // ---------------------------------------------------------------- what goes in and what comes out

  /** What each thread has last called the blocking `enqueue` with. */
  function Offered<T>(offers: map<Tid, T>, step: Step<T>): map<Tid, T> {
    if step.StartEnqueue? then offers[step.t := step.item] else offers
  }

  predicate Offers<T(==)>(offers: map<Tid, T>, t: Tid, p: Pc<T>) {
    p.PWant? || p.PAsleep? || p.PWoken? ==> t in offers && p.item == offers[t]
  }

  ghost predicate AllOffer<T>(s: State<T>, offers: map<Tid, T>) { forall t :: t in s.pc ==> Offers(offers, t, s.pc[t]) }

  /** The item that a step adds to the queue, by what its thread was called with. */
  ghost function Entered<T>(s: State<T>, step: Step<T>, offers: map<Tid, T>): seq<T> {
    match step
    case PTry(t) => if Full(s) || t !in offers then [] else [offers[t]]
    case Nowait(_, x) => [x]
    case IfHaveRoom(_, x) => if Full(s) then [] else [x]
    case _ => []
  }

  ghost function AllEntered<T>(s: State<T>, steps: seq<Step<T>>, offers: map<Tid, T>): seq<T>
    requires Sized(s) && LegalRun(s, steps)
    decreases |steps|
  {
    if steps == [] then []
    else Entered(s, steps[0], offers) + AllEntered(Apply(s, steps[0]), steps[1..], Offered(offers, steps[0]))
  }

  /** The item that a consumer goes away with. */
  ghost function Got<T>(s: State<T>, step: Step<T>): seq<T>
    requires Sized(s) && Enabled(s, step)
  {
    if step.CTry? && Apply(s, step).pc[step.t].CNotify? then [Apply(s, step).pc[step.t].item] else []
  }

  ghost function AllGot<T>(s: State<T>, steps: seq<Step<T>>): seq<T>
    requires Sized(s) && LegalRun(s, steps)
    decreases |steps|
  {
    if steps == [] then [] else Got(s, steps[0]) + AllGot(Apply(s, steps[0]), steps[1..])
  }

  lemma OfferStep<T>(s: State<T>, step: Step<T>, offers: map<Tid, T>)
    requires Sized(s) && Enabled(s, step) && AllOffer(s, offers)
    ensures AllOffer(Apply(s, step), Offered(offers, step))
  {
  }

  lemma AcceptedStep<T>(s: State<T>, step: Step<T>, offers: map<Tid, T>)
    requires Sized(s) && Enabled(s, step) && AllOffer(s, offers)
    ensures Apply(s, step).accepted == s.accepted + Entered(s, step, offers)
  {
    if step.PTry? { assert Offers(offers, step.t, s.pc[step.t]); }
  }

  lemma DeliveredStep<T>(s: State<T>, step: Step<T>)
    requires Sized(s) && Enabled(s, step)
    ensures Delivered(Apply(s, step).removed) == Delivered(s.removed) + Got(s, step)
  {
    var s' := Apply(s, step);
    if s'.removed != s.removed { ItemsAppend(s.removed, s'.removed[|s.removed|]); }
  }

  /** What was accepted is what the producers were called with, in the order in which they got in; what was delivered is
      what the consumers went away with, in order. */
  lemma {:induction false} InAndOut<T>(s: State<T>, steps: seq<Step<T>>, offers: map<Tid, T>)
    requires Sized(s) && LegalRun(s, steps) && AllOffer(s, offers)
    ensures Final(s, steps).accepted == s.accepted + AllEntered(s, steps, offers)
    ensures Delivered(Final(s, steps).removed) == Delivered(s.removed) + AllGot(s, steps)
    decreases |steps|
  {
    if steps == [] {
    } else {
      var step := steps[0];
      var s1 := Apply(s, step);
      OfferStep(s, step, offers);
      AcceptedStep(s, step, offers);
      DeliveredStep(s, step);
      InAndOut(s1, steps[1..], Offered(offers, step));
      Associative(s.accepted, Entered(s, step, offers), AllEntered(s1, steps[1..], Offered(offers, step)));
      Associative(Delivered(s.removed), Got(s, step), AllGot(s1, steps[1..]));
    }
  }

  /** How a consumer's attempt ends: with the oldest item if there is one; else, if it has waited as long as it may,
      with nothing; else it sleeps, timed or not as before. */
  lemma AttemptEnds<T>(s: State<T>, t: Tid)
    requires Sized(s) && Enabled(s, CTry(t))
    ensures var s', p := Apply(s, CTry(t)), s.pc[t];
            if s.q != [] then s'.pc[t] == CNotify(s.q[0]) && s'.q == s.q[1..]
            else s'.q == s.q && s'.pc[t] == if p.CWoken? && p.expired then Idle else CAsleep(p.timed)
    ensures s.pc[t].CWoken? && s.pc[t].expired ==> !Apply(s, CTry(t)).pc[t].CAsleep?
  {
  }

  /** With blocking `enqueue` only, nothing is ever lost or refused. */
  lemma BlockingLosesNothing<T>(s: State<T>, steps: seq<Step<T>>)
    requires Init(s) && LegalRun(s, steps)
    requires forall step :: step in steps ==> !step.Nowait? && !step.IfHaveRoom?
    ensures var s' := Final(s, steps);
            s'.accepted == Delivered(s'.removed) + s'.q && s'.rejected == []
  {
    InitInv(s);
    RunInv(s, steps);
    OnlyNowaitOverruns(s, steps);
    OnlyIfHaveRoomRejects(s, steps);
    NoOverrunDelivers(Final(s, steps).removed);
  }

  /** In every reachable state: while a consumer sleeps there are at least as many pending notifications and woken
      consumers as queued items, so that, if an item is queued, some thread is able to send a notification to consumers,
      or a woken consumer is able to take an item; and the same for producers and room. */
  lemma NoLostWakeup<T>(s: State<T>, steps: seq<Step<T>>)
    requires Init(s) && LegalRun(s, steps)
    ensures ConsumerWake(Final(s, steps)) && ProducerWake(Final(s, steps))
    ensures var s' := Final(s, steps);
            && ((exists t :: t in s'.pc && s'.pc[t].CAsleep?) && s'.q != [] ==>
                  exists step: Step<T> :: Enabled(s', step) &&
                    (step.NotifyPush? || (step.CTry? && s'.pc[step.t].CWoken?)))
            && ((exists t :: t in s'.pc && s'.pc[t].PAsleep?) && !Full(s') ==>
                  exists step: Step<T> :: Enabled(s', step) &&
                    (step.NotifyPop? || (step.PTry? && s'.pc[step.t].PWoken?)))
  {
    var s' := Final(s, steps);
    InitInv(s);
    RunInv(s, steps);
    if t :| t in s'.pc && s'.pc[t].CAsleep? && s'.q != [] { ConsumerHelped(s', t); }
    if t :| t in s'.pc && s'.pc[t].PAsleep? && !Full(s') { ProducerHelped(s', t); }
  }

  lemma SomeThread<T>(s: State<T>, k: Kind) returns (u: Tid)
    requires Count(s, k) > 0
    ensures u in s.pc && KindOf(s.pc[u]) == k
  {
    u :| u in Threads(s, k);
  }

  lemma ConsumerHelped<T>(s: State<T>, t: Tid)
    requires Inv(s) && t in s.pc && s.pc[t].CAsleep? && s.q != []
    ensures exists step: Step<T> :: Enabled(s, step) && (step.NotifyPush? || (step.CTry? && s.pc[step.t].CWoken?))
  {
    assert t in Threads(s, ConsumerAsleep);
    if Count(s, OwesPush) > 0 {
      var u := SomeThread(s, OwesPush);
      assert Enabled(s, NotifyPush(u, Some(t)));
    } else {
      var u := SomeThread(s, ConsumerWoken);
      assert Enabled(s, CTry(u));
    }
  }

  lemma ProducerHelped<T>(s: State<T>, t: Tid)
    requires Inv(s) && t in s.pc && s.pc[t].PAsleep? && !Full(s)
    ensures exists step: Step<T> :: Enabled(s, step) && (step.NotifyPop? || (step.PTry? && s.pc[step.t].PWoken?))
  {
    assert t in Threads(s, ProducerAsleep);
    if Count(s, OwesPop) > 0 {
      var u := SomeThread(s, OwesPop);
      assert Enabled(s, NotifyPop(u, Some(t)));
    } else {
      var u := SomeThread(s, ProducerWoken);
      assert Enabled(s, PTry(u));
    }
  }
}

/** The queue object itself: what each critical section does to the ring and the counters. A method that
    finds its wait predicate false reports that the caller has to sleep, and changes nothing. */
module MpmcBlockingQueue {
  import opened Bounded
  import opened CircularQueue

  class BlockingQueue<T(0)> {
    const q: CircularQ<T>
    var discardCounter: nat

    ghost predicate Valid()
      reads this, q
    {
      q.Valid() && q.maxItems > 0
    }

    ghost function Ring(): Ring<T>
      requires Valid()
      reads this, q, q.v
    {
      q.Model()
    }

    ghost function Capacity(): nat
      reads q
    {
      q.Capacity()
    }

    constructor (maxItems: nat)
      ensures Valid() && fresh(q) && fresh(q.v)
      ensures Ring() == Fresh() && Capacity() == maxItems && discardCounter == 0
    {
      q := new CircularQ(maxItems);
      discardCounter := 0;
    }

    method Enqueue(item: T) returns (sleeps: bool)
      requires Valid()
      modifies q, q.v
      ensures Valid() && Capacity() == old(Capacity()) && q.v == old(q.v)
      ensures |old(Ring().items)| <= Capacity() && (sleeps <==> |old(Ring().items)| == Capacity())
      ensures Ring() == if sleeps then old(Ring()) else Step(old(Ring()), Capacity(), PushOp(item))
    {
      sleeps := q.Full();
      if !sleeps { q.PushBack(item); }
    }

    method EnqueueNowait(item: T)
      requires Valid()
      modifies q, q.v
      ensures Valid() && Capacity() == old(Capacity()) && q.v == old(q.v)
      ensures |old(Ring().items)| <= Capacity() && Ring() == Step(old(Ring()), Capacity(), PushOp(item))
    {
      q.PushBack(item);
    }

    method EnqueueIfHaveRoom(item: T) returns (pushed: bool)
      requires Valid()
      modifies q, q.v, this
      ensures Valid() && Capacity() == old(Capacity()) && q.v == old(q.v)
      ensures |old(Ring().items)| <= Capacity() && (pushed <==> |old(Ring().items)| < Capacity())
      ensures Ring() == if pushed then Step(old(Ring()), Capacity(), PushOp(item)) else old(Ring())
      ensures discardCounter == old(discardCounter) + if pushed then 0 else 1
    {
      pushed := false;
      var full := q.Full();
      if !full {
        q.PushBack(item);
        pushed := true;
      }
      if !pushed { discardCounter := discardCounter + 1; }
    }

    method Dequeue(nothing: T) returns (sleeps: bool, item: T)
      requires Valid()
      modifies q
      ensures Valid() && Capacity() == old(Capacity()) && q.v == old(q.v)
      ensures |old(Ring().items)| <= Capacity() && (sleeps <==> old(Ring().items) == [])
      ensures !sleeps ==> item == old(Ring().items)[0] && Ring() == Step(old(Ring()), Capacity(), PopOp)
      ensures sleeps ==> item == nothing && Ring() == old(Ring())
    {
      sleeps := q.Empty();
      item := nothing;
      if !sleeps {
        item := q.Front();
        q.PopFront();
      }
    }
  }
}
