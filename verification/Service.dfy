/** How long it takes until every queued frame is served: each step of a call under way uses up part of a measure, so
    that the calls end, and when no more can be done every frame has been taken and every thread rests. */
module Service {
  import opened Arithmetic
  import opened Basics
  import opened Sums
  import opened Distributor

  // ---------------------------------------------------------------- the measure

  /** The threads, each once. */
  ghost predicate Threads(s: State, ts: seq<Tid>) {
    Distinct(ts) && forall t :: t in ts <==> t in s.pc
  }

  predicate Inserting(p: Pc) { (p.RWant? || p.RHold?) && p.req.Insert? }

  ghost function Insertions(s: State): nat -> nat { t => One(t in s.pc && Inserting(s.pc[t])) }

  /** How many events there can be as long as no call starts. */
  ghost function Events(s: State, ts: seq<Tid>): nat { |s.data.info| + Sum(Insertions(s), ts) }

  /** For looking at an event: its steps, and those of the consumers that its delivery wakes. */
  function PerEvent(threads: nat): nat { 2 * threads + 3 }

  /** For a frame: the events it is looked at for, and six steps more. */
  function PerFrame(threads: nat, events: nat): nat { PerEvent(threads) * events + 6 }

  /** What a thread at place `p` can still use up. */
  function Weight(p: Pc, enable: bool, threads: nat, frame: nat): nat {
    match p
    case DTop => if enable then 3 else 1
    case DWant => if enable then 2 else 3
    case DWoken => if enable then 2 else 3
    case DCheck => if enable then 1 else 2
    case DNeedInfo(_) => frame
    case DScan(_, todo) => PerEvent(threads) * |todo| + 5
    case DNeedEvent(_, todo, _) => PerEvent(threads) * |todo| + 4
    case DCopy(_, todo, _) => PerEvent(threads) * |todo| + 3
    case DDone(_) => 4
    case PWant(_) => frame + 5
    case PHold(_) => frame + 4
    case RWant(_) => 5
    case RHold(_) => 4
    case RNeedEvent(_) => 3
    case RHoldEvent(_) => 2
    case RApply(_) => 1
    case CWant(_) => 2
    case CHold(_) => 1
    case SWant => 3 * threads + 2
    case SHold => 3 * threads + 1
    case _ => 0
  }

  ghost function Weights(s: State, threads: nat, frame: nat): nat -> nat {
    t => if t in s.pc then Weight(s.pc[t], s.enable, threads, frame) else 0
  }

  ghost function Cost(s: State, ts: seq<Tid>, frame: nat): nat {
    Sum(Weights(s, |ts|, frame), ts) + frame * |s.data.input|
  }

  ghost function Measure(s: State, ts: seq<Tid>): nat { Cost(s, ts, PerFrame(|ts|, Events(s, ts))) }

  // ---------------------------------------------------------------- kinds of steps

  /** By how much the weight of another thread can grow: it is woken. */
  function Woken(step: Step, u: Tid): nat {
    match step
    case PPush(_, Some(v)) => if u == v then 3 else 0
    case DDeliver(_) => 2
    case SRun(_) => 3
    case _ => 0
  }

  ghost function Gains(step: Step): nat -> nat { u => Woken(step, u) }

  // ---------------------------------------------------------------- events

  lemma InfoGrows(s: State, step: Step)
    requires Enabled(s, step)
    ensures |Apply(s, step).data.info| <= |s.data.info| + if step.RInsert? then 1 else 0
  {
    var op := OpOf(s, step);
    if op.Some? { DataInfoGrows(s.data, op.value); OnlyInsertInserts(s, step); }
  }

  lemma OnlyInsertInserts(s: State, step: Step)
    requires step.t in s.pc && Guard(s, step) && OpOf(s, step).Some?
    ensures OpOf(s, step).value.Insert? ==> step.RInsert?
  {
  }

  lemma DataInfoGrows(d: F.State, op: F.Op)
    requires F.Enabled(d, op)
    ensures |F.Apply(d, op).info| <= |d.info| + if op.Insert? then 1 else 0
  {
    var d' := F.Apply(d, op);
    match op
    case Insert(n, _, _) => assert d'.info.Keys == d.info.Keys + {n};
    case Remove(n) => Fewer(d.info, n);
    case Stop(n) => Fewer(d.info, n);
    case _ =>
  }

  lemma Fewer(m: map<F.Name, F.Info>, n: F.Name)
    ensures |m - {n}| <= |m|
  {
    var k := (m - {n}).Keys;
    assert k == m.Keys - {n};
    assert |m - {n}| == |k| && |m| == |m.Keys|;
  }

  lemma InsertingActor(s: State, step: Step)
    requires step.t in s.pc && Guard(s, step) && !Starts(step)
    ensures Inserting(Target(s, step)) ==> Inserting(s.pc[step.t])
    ensures step.RInsert? ==> Inserting(s.pc[step.t]) && !Inserting(Target(s, step))
  {
  }

  lemma InsertingOther(s: State, step: Step, u: Tid)
    requires step.t in s.pc && Guard(s, step) && u in s.pc
    ensures u in Wake(s, step) && (Inserting(Wake(s, step)[u]) <==> Inserting(s.pc[u]))
  {
  }

  lemma InsertionsStep(s: State, step: Step, ts: seq<Tid>)
    requires Threads(s, ts) && Enabled(s, step) && !Starts(step)
    ensures Sum(Insertions(Apply(s, step)), ts) + (if step.RInsert? then 1 else 0) <= Sum(Insertions(s), ts)
  {
    var f, g := Insertions(s), Insertions(Apply(s, step));
    forall u | u in ts && u != step.t ensures f(u) == g(u) { InsertingOther(s, step, u); }
    InsertingActor(s, step);
    SumChange(f, g, ts, step.t);
  }

  lemma EventsStep(s: State, step: Step, ts: seq<Tid>)
    requires Threads(s, ts) && Enabled(s, step) && !Starts(step)
    ensures Events(Apply(s, step), ts) <= Events(s, ts)
  {
    InfoGrows(s, step);
    InsertionsStep(s, step, ts);
  }

  // ---------------------------------------------------------------- the thread that steps

  /** What the step may add to the weights of the other threads. */
  function Extra(step: Step, threads: nat): nat {
    if step.DDeliver? then 2 * threads else if step.SRun? then 3 * threads else if step.PPush? then 3 else 0
  }

  lemma OneLess(todo: set<F.Name>, n: F.Name, k: nat)
    requires n in todo
    ensures k * |todo - {n}| + k == k * |todo|
  {
    Distribute(|todo - {n}|, k);
    assert |todo| == |todo - {n}| + 1;
    assert k * |todo| == (|todo - {n}| + 1) * k;
  }

  /** One event fewer to look at. */
  lemma LooksFall(todo: set<F.Name>, n: F.Name, threads: nat, frame: nat, cur: F.Addr, enable: bool)
    requires n in todo
    ensures Weight(DScan(cur, todo - {n}), enable, threads, frame) + 2 * threads + 1
              <= Weight(DCopy(cur, todo, n), enable, threads, frame)
              < Weight(DScan(cur, todo), enable, threads, frame)
  {
    OneLess(todo, n, PerEvent(threads));
  }

  /** A scan step pays out of the weight of its place. */
  lemma ScanFalls(s: State, step: Step, threads: nat, frame: nat)
    requires step.t in s.pc && Guard(s, step) && ScanStep(step) && !step.DTake?
    requires step.DDeliver? ==> s.pc[step.t].n in s.pc[step.t].todo
    requires PerEvent(threads) * |s.data.info.Keys| + 6 <= frame
    ensures Weight(Target(s, step), s.enable, threads, frame) + Extra(step, threads) + 1
              <= Weight(s.pc[step.t], s.enable, threads, frame)
  {
    var p := s.pc[step.t];
    if step.DSkip? { LooksFall(p.todo, step.n, threads, frame, p.cur, s.enable); }
    else if step.DDeliver? { LooksFall(p.todo, p.n, threads, frame, p.cur, s.enable); }
    else { LocalFalls(p, Target(s, step), s.enable, threads, frame); }
  }

  lemma LocalFalls(p: Pc, p': Pc, enable: bool, threads: nat, frame: nat)
    requires
      || (p.DNeedInfo? && p'.DScan? && PerEvent(threads) * |p'.todo| + 6 <= frame)
      || (p.DScan? && p'.DNeedEvent? && p'.todo == p.todo)
      || (p.DNeedEvent? && p'.DCopy? && p'.todo == p.todo)
      || (p.DScan? && p'.DDone?)
      || (p.DDone? && p'.DTop?)
    ensures Weight(p', enable, threads, frame) + 1 <= Weight(p, enable, threads, frame)
  {
  }

  lemma RequestFalls(s: State, step: Step, threads: nat, frame: nat)
    requires step.t in s.pc && Guard(s, step) && RequestStepKind(step) && !Starts(step)
    ensures Weight(Target(s, step), s.enable, threads, frame) + 1 <= Weight(s.pc[step.t], s.enable, threads, frame)
  {
  }

  lemma PopFalls(s: State, step: Step, threads: nat, frame: nat)
    requires step.t in s.pc && Guard(s, step) && PopStepKind(step) && !Starts(step)
    ensures Weight(Target(s, step), s.enable, threads, frame) + 1
              <= Weight(s.pc[step.t], s.enable, threads, frame) + if Idles(step) then 4 else 0
  {
  }

  /** The waiting loop of a distributor, and the shutdown. */
  lemma WaitFalls(s: State, step: Step, threads: nat, frame: nat)
    requires step.t in s.pc && Guard(s, step) && !Starts(step) && !step.DTake? && !step.PPush?
    requires !ScanStep(step) && !RequestStepKind(step) && !PopStepKind(step)
    ensures Weight(Target(s, step), s.enable && !step.SRun?, threads, frame) + Extra(step, threads) + 1
              <= Weight(s.pc[step.t], s.enable, threads, frame) + if Idles(step) then 4 else 0
  {
  }

  /** A smaller cost of a frame lowers every weight. */
  lemma WeightMono(p: Pc, enable: bool, threads: nat, frame: nat, frame': nat)
    requires frame' <= frame
    ensures Weight(p, enable, threads, frame') <= Weight(p, enable, threads, frame)
  {
  }

  /** Taking and pushing a frame pay with it. */
  lemma FrameFalls(s: State, step: Step, threads: nat, frame: nat)
    requires step.t in s.pc && Guard(s, step) && (step.DTake? || step.PPush?)
    ensures step.DTake? ==>
              Weight(Target(s, step), s.enable, threads, frame) + 1
                <= Weight(s.pc[step.t], s.enable, threads, frame) + frame
    ensures step.PPush? ==>
              Weight(Target(s, step), s.enable, threads, frame) + frame + Extra(step, threads) + 1
                <= Weight(s.pc[step.t], s.enable, threads, frame)
  {
  }

  lemma OwnFalls(s: State, step: Step, threads: nat, frame: nat)
    requires step.t in s.pc && Guard(s, step) && !Starts(step)
    requires step.DDeliver? ==> s.pc[step.t].n in s.pc[step.t].todo
    requires PerEvent(threads) * |s.data.info.Keys| + 6 <= frame
    ensures Weight(Target(s, step), s.enable && !step.SRun?, threads, frame) + Extra(step, threads) + 1
              + (if step.PPush? then frame else 0)
              <= Weight(s.pc[step.t], s.enable, threads, frame) + (if Idles(step) then 4 else 0)
                 + if step.DTake? then frame else 0
  {
    if step.DTake? || step.PPush? { FrameFalls(s, step, threads, frame); }
    else if ScanStep(step) { ScanFalls(s, step, threads, frame); }
    else if RequestStepKind(step) { RequestFalls(s, step, threads, frame); }
    else if PopStepKind(step) { PopFalls(s, step, threads, frame); }
    else { WaitFalls(s, step, threads, frame); }
  }

  lemma InputLength(s: State, step: Step)
    requires Enabled(s, step)
    ensures |Apply(s, step).data.input| ==
              |s.data.input| + (if step.PPush? then 1 else 0) - if step.DTake? then 1 else 0
  {
    WhichOp(s, step);
    var op := OpOf(s, step);
    if op.Some? { DataInputLength(s.data, op.value); }
  }

  lemma WhichOp(s: State, step: Step)
    requires step.t in s.pc && Guard(s, step)
    ensures var op := OpOf(s, step);
            && (op.Some? && op.value.Push? <==> step.PPush?)
            && (op.Some? && op.value.Take? <==> step.DTake?)
  {
  }

  lemma DataInputLength(d: F.State, op: F.Op)
    requires F.Enabled(d, op)
    ensures |F.Apply(d, op).input| == |d.input| + (if op.Push? then 1 else 0) - if op.Take? then 1 else 0
  {
  }

  // ---------------------------------------------------------------- the others

  lemma Disabling(p: Pc, threads: nat, frame: nat)
    ensures Weight(p, false, threads, frame) <= Weight(p, true, threads, frame) + 3
  {
  }

  lemma WhoIsWoken(s: State, step: Step, u: Tid)
    requires step.t in s.pc && Guard(s, step) && u in s.pc && u in Wake(s, step) && Wake(s, step)[u] != s.pc[u]
    ensures var p, p' := s.pc[u], Wake(s, step)[u];
            || (p.DAsleep? && p'.DWoken? && Woken(step, u) == 3)
            || (p.CAsleep? && p'.CWant? && !step.SRun? && Woken(step, u) == 2)
  {
  }

  lemma WokenAll(step: Step, u: Tid)
    ensures step.SRun? ==> Woken(step, u) == 3
  {
  }

  /** A woken thread gains at most three. */
  lemma WokenWeight(s: State, step: Step, u: Tid, threads: nat, frame: nat)
    requires step.t in s.pc && Guard(s, step) && u in s.pc && u in Wake(s, step)
    ensures Weight(Wake(s, step)[u], s.enable && !step.SRun?, threads, frame)
              <= Weight(s.pc[u], s.enable, threads, frame) + Woken(step, u)
  {
    WokenAll(step, u);
    if Wake(s, step)[u] == s.pc[u] { Disabling(s.pc[u], threads, frame); } else { WhoIsWoken(s, step, u); }
  }

  lemma OthersGain(s: State, step: Step, u: Tid, threads: nat, frame: nat, frame': nat)
    requires Enabled(s, step) && u in s.pc && u != step.t && frame' <= frame
    ensures u in Apply(s, step).pc
    ensures var s' := Apply(s, step);
            Weight(s'.pc[u], s'.enable, threads, frame')
              <= Weight(s.pc[u], s.enable, threads, frame) + Woken(step, u)
  {
    SameThreads(s, step);
    WokenWeight(s, step, u, threads, frame);
    WeightMono(Wake(s, step)[u], s.enable && !step.SRun?, threads, frame, frame');
  }

  lemma NotifiedThere(s: State, step: Step)
    requires step.t in s.pc && Guard(s, step)
    ensures step.PPush? && step.w.Some? ==> step.w.value in s.pc
  {
  }

  lemma OneGains(e: nat -> nat, ts: seq<Tid>, v: Tid)
    requires Distinct(ts) && v in ts && forall u :: u in ts && u != v ==> e(u) == 0
    ensures Sum(e, ts) == e(v)
  {
    var zero: nat -> nat := _ => 0;
    SumZero(zero, ts);
    SumChange(zero, e, ts, v);
  }

  /** Together they gain what the step has paid for them. */
  lemma WokenTotal(step: Step, ts: seq<Tid>)
    requires Distinct(ts) && (step.PPush? && step.w.Some? ==> step.w.value in ts)
    ensures Sum(Gains(step), ts) <= Extra(step, |ts|)
  {
    if step.PPush? && step.w.Some? { OneGains(Gains(step), ts, step.w.value); }
    else if step.DDeliver? { SumAtMost(Gains(step), ts, 2); }
    else if step.SRun? { SumAtMost(Gains(step), ts, 3); }
    else { SumZero(Gains(step), ts); }
  }

  // ---------------------------------------------------------------- the measure falls

  lemma ThreadsStay(s: State, step: Step, ts: seq<Tid>)
    requires Threads(s, ts) && Enabled(s, step)
    ensures Threads(Apply(s, step), ts)
  {
    SameThreads(s, step);
    assert Apply(s, step).pc.Keys == s.pc.Keys;
  }

  lemma WeightGain(s: State, step: Step, u: Tid, threads: nat, frame: nat, frame': nat)
    requires Enabled(s, step) && u in s.pc && u != step.t && frame' <= frame
    ensures Weights(Apply(s, step), threads, frame')(u) <= Weights(s, threads, frame)(u) + Gains(step)(u)
  {
    OthersGain(s, step, u, threads, frame, frame');
  }

  /** The weights together, for a cost of a frame that does not grow. */
  lemma WeightsFall(s: State, step: Step, ts: seq<Tid>, frame: nat, frame': nat)
    requires Threads(s, ts) && Enabled(s, step) && frame' <= frame
    ensures var s', t, n := Apply(s, step), step.t, |ts|;
            Sum(Weights(s', n, frame'), ts) + Weight(s.pc[t], s.enable, n, frame)
              <= Sum(Weights(s, n, frame), ts) + Weight(s'.pc[t], s'.enable, n, frame) + Extra(step, n)
  {
    var s', n := Apply(s, step), |ts|;
    forall u | u in ts && u != step.t
      ensures Weights(s', n, frame')(u) <= Weights(s, n, frame)(u) + Gains(step)(u)
    {
      WeightGain(s, step, u, n, frame, frame');
    }
    SumBelow(Weights(s, n, frame), Weights(s', n, frame'), Gains(step), ts, step.t);
    NotifiedThere(s, step);
    WokenTotal(step, ts);
    WeightMono(s'.pc[step.t], s'.enable, n, frame, frame');
  }

  /** `x` frames that cost no more, one more of them or one fewer. */
  lemma FramesCost(x: nat, y: nat, frame: nat, frame': nat)
    requires frame' <= frame
    ensures y == x ==> frame' * y <= frame * x
    ensures y == x + 1 ==> frame' * y <= frame * x + frame
    ensures x == y + 1 ==> frame' * y + frame <= frame * x
  {
    MulMono(frame', frame, y);
    assert y == x + 1 ==> frame * y == frame * x + frame;
    assert x == y + 1 ==> frame * x == frame * y + frame;
  }

  lemma CostFalls(s: State, step: Step, ts: seq<Tid>, frame: nat, frame': nat)
    requires Threads(s, ts) && Enabled(s, step) && !Starts(step) && LocalOk(s, step.t)
    requires PerEvent(|ts|) * |s.data.info.Keys| + 6 <= frame && frame' <= frame
    ensures Cost(Apply(s, step), ts, frame') + 1 <= Cost(s, ts, frame) + if Idles(step) then 4 else 0
  {
    OwnFalls(s, step, |ts|, frame);
    WeightsFall(s, step, ts, frame, frame');
    InputLength(s, step);
    FramesCost(|s.data.input|, |Apply(s, step).data.input|, frame, frame');
  }

  /** Every step of the calls under way uses up the measure; an idle one gives back at most three. */
  lemma MeasureStep(s: State, step: Step, ts: seq<Tid>)
    requires Threads(s, ts) && Enabled(s, step) && !Starts(step) && LocalOk(s, step.t)
    ensures Threads(Apply(s, step), ts)
    ensures Measure(Apply(s, step), ts) + 1 <= Measure(s, ts) + if Idles(step) then 4 else 0
  {
    ThreadsStay(s, step, ts);
    EventsStep(s, step, ts);
    var k, m, m' := PerEvent(|ts|), Events(s, ts), Events(Apply(s, step), ts);
    assert |s.data.info.Keys| == |s.data.info|;
    MulMono(|s.data.info|, m, k);
    MulMono(m', m, k);
    CostFalls(s, step, ts, PerFrame(|ts|, m), PerFrame(|ts|, m'));
  }

  // ---------------------------------------------------------------- the end of the calls

  function IdleCount(steps: seq<Step>): nat {
    if steps == [] then 0 else One(Idles(steps[0])) + IdleCount(steps[1..])
  }

  ghost predicate NoStart(steps: seq<Step>) { forall i :: 0 <= i < |steps| ==> !Starts(steps[i]) }

  /** Once no call starts any more, there are at most `Measure` steps, and four more for every idle one. */
  lemma {:induction false} CallsEnd(s: State, steps: seq<Step>, ts: seq<Tid>)
    requires Inv(s) && Threads(s, ts) && LegalRun(s, steps) && NoStart(steps)
    ensures Threads(Final(s, steps), ts)
    ensures |steps| + Measure(Final(s, steps), ts) <= Measure(s, ts) + 4 * IdleCount(steps)
    decreases |steps|
  {
    if steps == [] {
    } else {
      var first, rest := steps[0], steps[1..];
      InvStep(s, first);
      assert LocalOk(s, first.t);
      MeasureStep(s, first, ts);
      forall i | 0 <= i < |rest| ensures !Starts(rest[i]) { assert rest[i] == steps[i + 1]; }
      CallsEnd(Apply(s, first), rest, ts);
    }
  }

  /** Nothing is left to do for a thread until a call starts. */
  ghost predicate Rests(s: State, t: Tid)
    requires t in s.pc
  {
    var p := s.pc[t];
    || p.Idle?
    || (p.DAsleep? && s.enable)
    || (p.DExit? && !s.enable)
    || (p.CAsleep? && p.n in s.data.output && s.data.output[p.n] == [])
  }

  lemma HolderOrWaiter(p: Pc)
    ensures
      || p.Idle? || p.DAsleep? || p.DExit? || p.CAsleep? || p.DTop?
      || Wants(p).Some? || Holds(p, InputLock) || Holds(p, InfoLock) || p.CHold?
  {
  }

  lemma HolderSteps(s: State, t: Tid, l: Lock)
    requires Inv(s) && t in s.pc && Holds(s.pc[t], l)
    ensures CanStep(s)
  {
    assert LockOk(s, t) && Holder(s, l) == Some(t);
    match l
    case InputLock => InputHolderSteps(s);
    case InfoLock => InfoHolderSteps(s);
    case EventLock(n) => EventHolderSteps(s, n);
  }

  lemma RestsOrSteps(s: State, t: Tid)
    requires Inv(s) && t in s.pc
    ensures CanStep(s) || Rests(s, t)
  {
    var p := s.pc[t];
    HolderOrWaiter(p);
    if Wants(p).Some? { WaiterMeansStep(s, t); }
    else if Holds(p, InputLock) { HolderSteps(s, t, InputLock); }
    else if Holds(p, InfoLock) { HolderSteps(s, t, InfoLock); }
    else if p.CHold? { HolderSteps(s, t, EventLock(p.n)); }
    else if p.DTop? { Witness(s, t, DTest(t)); }
    else { assert RequestOk(s, t); }
  }

  /** From any reachable state: once no call starts any more, the run has at most `Measure` steps beside idle ones, for
      each of which it can have three more; and where no step but idle ones is left, every thread rests, all frames have
      been taken off the input queue unless it was shut down, and every distributor has left it if it was. */
  lemma FramesAreServed(s0: State, prefix: seq<Step>, steps: seq<Step>, ts: seq<Tid>)
    requires Init(s0) && LegalRun(s0, prefix) && LegalRun(Final(s0, prefix), steps) && NoStart(steps)
    requires Threads(Final(s0, prefix), ts)
    ensures |steps| <= Measure(Final(s0, prefix), ts) + 4 * IdleCount(steps)
    ensures var s := Final(Final(s0, prefix), steps);
            !CanStep(s) ==>
              && (forall t :: t in s.pc ==> Rests(s, t))
              && (s.enable ==> s.data.input == [] && s.data.phase.Waiting?)
              && (!s.enable ==> forall t :: t in s.dist ==> t in s.pc && s.pc[t].DExit?)
  {
    InitInv(s0);
    RunInv(s0, prefix);
    var m := Final(s0, prefix);
    CallsEnd(m, steps, ts);
    RunInv(m, steps);
    var s := Final(m, steps);
    if !CanStep(s) {
      forall t | t in s.pc ensures Rests(s, t) { RestsOrSteps(s, t); }
      QuietInput(s);
    }
  }

  lemma QuietInput(s: State)
    requires Inv(s) && !CanStep(s) && forall t :: t in s.pc ==> Rests(s, t)
    ensures s.enable ==> s.data.input == [] && s.data.phase.Waiting?
    ensures !s.enable ==> forall t :: t in s.dist ==> t in s.pc && s.pc[t].DExit?
  {
    if s.inputLock.Some? { InputHolderSteps(s); }
    forall t | t in s.dist ensures t in s.pc && (s.pc[t].DAsleep? || s.pc[t].DExit?) { assert IsDist(s.pc[t]); }
  }
}
