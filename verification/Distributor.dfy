/** The frame distributor as a transition system: any number of distributor threads, cameras that push, and
    threads that register, remove and pop events, with every mutex and condition variable explicit.

    A mutex is held at certain places of a thread's code. Moving to a place where a mutex is held from one where
    it is not takes the mutex, which has to be free; moving the other way releases it. */
module Distributor {
  import opened Basics
  import F = Fanout

  type Tid = nat
  type Name = F.Name

  datatype Lock = InputLock | InfoLock | EventLock(n: Name)

  datatype Request = Insert(n: Name, fps: nat) | Remove(n: Name)

  datatype Pc =
    | Idle
    // distribute_buffer
    | DTop                                  // tests _q_enable
    | DWant
    | DCheck                                // evaluates the wait predicate
    | DAsleep
    | DWoken
    | DNeedInfo(cur: F.Addr)
    | DScan(cur: F.Addr, todo: set<Name>)
    | DNeedEvent(cur: F.Addr, todo: set<Name>, n: Name)
    | DCopy(cur: F.Addr, todo: set<Name>, n: Name)
    | DDone(cur: F.Addr)
    | DExit
    // push
    | PWant(frame: F.Frame)
    | PHold(frame: F.Frame)
    // insert_event, remove_event
    | RWant(req: Request)
    | RHold(req: Request)
    | RNeedEvent(n: Name)
    | RHoldEvent(n: Name)
    | RApply(n: Name)
    // pop
    | CWant(n: Name)
    | CHold(n: Name)
    | CAsleep(n: Name)
    // the destructor
    | SWant
    | SHold

  datatype State = State(
    data: F.State,
    enable: bool,
    dist: set<Tid>,
    inputLock: Option<Tid>,
    infoLock: Option<Tid>,
    eventLock: map<Name, Tid>,
    pc: map<Tid, Pc>
  )

  datatype Step =
    | DTest(t: Tid) | DLock(t: Tid) | DWait(t: Tid) | DQuit(t: Tid) | DTake(t: Tid, now: int) | DBegin(t: Tid)
    | DSkip(t: Tid, n: Name) | DChoose(t: Tid, n: Name) | DLockEvent(t: Tid) | DDeliver(t: Tid) | DEndScan(t: Tid)
    | DFree(t: Tid) | DSpurious(t: Tid)
    | PStart(t: Tid, frame: F.Frame) | PLock(t: Tid) | PPush(t: Tid, w: Option<Tid>)
    | RStart(t: Tid, req: Request) | RLock(t: Tid) | RInsert(t: Tid) | RRemove(t: Tid)
    | RLockEvent(t: Tid) | RUnlockEvent(t: Tid) | RErase(t: Tid)
    | CStart(t: Tid, n: Name) | CLock(t: Tid) | CWait(t: Tid) | CTake(t: Tid) | CSpurious(t: Tid)
    | CDelete(t: Tid, a: F.Addr)
    | SStart(t: Tid) | SLock(t: Tid) | SRun(t: Tid)

  // ---------------------------------------------------------------- who holds and wants what

  predicate Holds(p: Pc, l: Lock) {
    match l
    case InputLock =>
      p.DCheck? || p.DNeedInfo? || p.DScan? || p.DNeedEvent? || p.DCopy? || p.DDone? || p.PHold? || p.SHold?
    case InfoLock => p.DScan? || p.DNeedEvent? || p.DCopy? || p.RHold? || p.RNeedEvent? || p.RHoldEvent? || p.RApply?
    case EventLock(n) => (p.DCopy? || p.RHoldEvent? || p.CHold?) && p.n == n
  }

  function Wants(p: Pc): Option<Lock> {
    match p
    case DWant => Some(InputLock)
    case DWoken => Some(InputLock)
    case PWant(_) => Some(InputLock)
    case SWant => Some(InputLock)
    case DNeedInfo(_) => Some(InfoLock)
    case RWant(_) => Some(InfoLock)
    case DNeedEvent(_, _, n) => Some(EventLock(n))
    case RNeedEvent(n) => Some(EventLock(n))
    case CWant(n) => Some(EventLock(n))
    case _ => None
  }

  function Holder(s: State, l: Lock): Option<Tid> {
    match l
    case InputLock => s.inputLock
    case InfoLock => s.infoLock
    case EventLock(n) => if n in s.eventLock then Some(s.eventLock[n]) else None
  }

  /** The event mutex held at a place, if any. */
  function HeldEvent(p: Pc): Option<Name> {
    if p.DCopy? || p.RHoldEvent? || p.CHold? then Some(p.n) else None
  }

  predicate IsDist(p: Pc) {
    p.DTop? || p.DWant? || p.DCheck? || p.DAsleep? || p.DWoken? || p.DNeedInfo? || p.DScan? || p.DNeedEvent?
    || p.DCopy? || p.DDone? || p.DExit?
  }

  /** The part of the data that is local to a distributor inside its iteration. */
  function PhaseOf(p: Pc): F.Phase {
    match p
    case DNeedInfo(cur) => F.Taken(cur)
    case DScan(cur, todo) => F.Scanning(cur, todo)
    case DNeedEvent(cur, todo, _) => F.Scanning(cur, todo)
    case DCopy(cur, todo, _) => F.Scanning(cur, todo)
    case DDone(cur) => F.Scanned(cur)
    case _ => F.Waiting
  }

  function InsidePop(p: Pc): Option<Name> { if p.CWant? || p.CHold? || p.CAsleep? then Some(p.n) else None }

  function Removing(p: Pc): Option<Name> {
    match p
    case RWant(Remove(n)) => Some(n)
    case RHold(Remove(n)) => Some(n)
    case RNeedEvent(n) => Some(n)
    case RHoldEvent(n) => Some(n)
    case RApply(n) => Some(n)
    case _ => None
  }

  // ---------------------------------------------------------------- steps

  /** Removal of an event and a `pop` of it do not overlap: what the code does then is not modelled. */
  ghost predicate MayStart(s: State, req: Request) {
    match req
    case Insert(_, fps) => 1 <= fps <= s.data.fps
    case Remove(n) => forall t :: t in s.pc ==> InsidePop(s.pc[t]) != Some(n)
  }

  /** Where the thread goes, if the step is one for its place. */
  ghost function Next(s: State, step: Step): Option<Pc>
    requires step.t in s.pc
  {
    var p, d := s.pc[step.t], s.data;
    match step
    case DTest(_) => if p.DTop? then Some(if s.enable then DWant else DExit) else None
    case DLock(_) => if p.DWant? || p.DWoken? then Some(DCheck) else None
    case DWait(_) => if p.DCheck? && s.enable && d.input == [] then Some(DAsleep) else None
    case DQuit(_) => if p.DCheck? && !s.enable then Some(DTop) else None
    case DTake(_, _) => if p.DCheck? && s.enable && d.input != [] then Some(DNeedInfo(d.input[0])) else None
    case DBegin(_) => if p.DNeedInfo? then Some(DScan(p.cur, d.info.Keys)) else None
    case DSkip(_, n) =>
      if p.DScan? && n in p.todo && n in d.info && d.info[n].step > 0 && !F.Due(d, n)
      then Some(DScan(p.cur, p.todo - {n})) else None
    case DChoose(_, n) =>
      if p.DScan? && n in p.todo && n in d.info && F.Due(d, n) then Some(DNeedEvent(p.cur, p.todo, n)) else None
    case DLockEvent(_) => if p.DNeedEvent? then Some(DCopy(p.cur, p.todo, p.n)) else None
    case DDeliver(_) => if p.DCopy? then Some(DScan(p.cur, p.todo - {p.n})) else None
    case DEndScan(_) => if p.DScan? && p.todo == {} then Some(DDone(p.cur)) else None
    case DFree(_) => if p.DDone? then Some(DTop) else None
    case DSpurious(_) => if p.DAsleep? then Some(DWoken) else None
    case PStart(_, frame) => if p.Idle? then Some(PWant(frame)) else None
    case PLock(_) => if p.PWant? then Some(PHold(p.frame)) else None
    case PPush(_, w) => if p.PHold? && MayNotify(s, w) then Some(Idle) else None
    case RStart(_, req) => if p.Idle? && MayStart(s, req) then Some(RWant(req)) else None
    case RLock(_) => if p.RWant? then Some(RHold(p.req)) else None
    case RInsert(_) => if p.RHold? && p.req.Insert? then Some(Idle) else None
    case RRemove(_) =>
      if p.RHold? && p.req.Remove?
      then Some(if p.req.n in d.info then RNeedEvent(p.req.n) else RApply(p.req.n)) else None
    case RLockEvent(_) => if p.RNeedEvent? then Some(RHoldEvent(p.n)) else None
    case RUnlockEvent(_) => if p.RHoldEvent? then Some(RApply(p.n)) else None
    case RErase(_) => if p.RApply? then Some(Idle) else None
    case CStart(_, n) =>
      if p.Idle? && n in d.info && n in d.output && NobodyRemoves(s, n) then Some(CWant(n)) else None
    case CLock(_) => if p.CWant? then Some(CHold(p.n)) else None
    case CWait(_) => if p.CHold? && p.n in d.output && d.output[p.n] == [] then Some(CAsleep(p.n)) else None
    case CTake(_) => if p.CHold? && p.n in d.output && d.output[p.n] != [] then Some(Idle) else None
    case CSpurious(_) => if p.CAsleep? then Some(CWant(p.n)) else None
    case CDelete(_, a) => if p.Idle? && a in d.held then Some(Idle) else None
    case SStart(_) => if p.Idle? then Some(SWant) else None
    case SLock(_) => if p.SWant? then Some(SHold) else None
    case SRun(_) => if p.SHold? then Some(Idle) else None
  }

  /** `notify_one` wakes somebody if anybody sleeps. */
  ghost predicate MayNotify(s: State, w: Option<Tid>) {
    match w
    case None => forall u :: u in s.pc ==> !s.pc[u].DAsleep?
    case Some(u) => u in s.pc && s.pc[u].DAsleep?
  }

  ghost predicate NobodyRemoves(s: State, n: Name) { forall u :: u in s.pc ==> Removing(s.pc[u]) != Some(n) }

  ghost predicate Guard(s: State, step: Step)
    requires step.t in s.pc
  {
    Next(s, step).Some?
  }

  /** What the step does to the data. */
  ghost function OpOf(s: State, step: Step): Option<F.Op>
    requires step.t in s.pc && Guard(s, step)
  {
    var p := s.pc[step.t];
    match step
    case DTake(_, now) => Some(F.Take(now))
    case DBegin(_) => Some(F.Begin)
    case DSkip(_, n) => Some(F.Skip(n))
    case DDeliver(_) => Some(F.Deliver(p.n))
    case DEndScan(_) => Some(F.EndScan)
    case DFree(_) => Some(F.Free)
    case PPush(_, _) => Some(F.Push(p.frame))
    case RInsert(_) => if p.req.n in s.data.info then None else Some(F.Insert(p.req.n, p.req.fps, true))
    case RErase(_) => Some(F.Remove(p.n))
    case CTake(_) => Some(F.Pop(p.n))
    case CDelete(_, a) => Some(F.Delete(a))
    case _ => None
  }

  ghost function Target(s: State, step: Step): Pc
    requires step.t in s.pc && Guard(s, step)
  {
    Next(s, step).value
  }

  /** Every mutex that thread `t` takes by moving to `p` is free. */
  ghost predicate LocksFree(s: State, t: Tid, p: Pc)
    requires t in s.pc
  {
    forall l: Lock :: Holds(p, l) && !Holds(s.pc[t], l) ==> Holder(s, l).None?
  }

  ghost predicate Enabled(s: State, step: Step) {
    && step.t in s.pc
    && Guard(s, step)
    && LocksFree(s, step.t, Target(s, step))
    && (OpOf(s, step).Some? ==> F.Enabled(s.data, OpOf(s, step).value))
  }

  /** Threads that a notification wakes. */
  ghost function Wake(s: State, step: Step): map<Tid, Pc>
    requires step.t in s.pc && Guard(s, step)
  {
    match step
    case PPush(_, Some(u)) => s.pc[u := DWoken]
    case DDeliver(_) =>
      var n := s.pc[step.t].n;
      map u | u in s.pc :: if s.pc[u] == CAsleep(n) then CWant(n) else s.pc[u]
    case SRun(_) => map u | u in s.pc :: if s.pc[u].DAsleep? then DWoken else s.pc[u]
    case _ => s.pc
  }

  function Retake(held: Option<Tid>, t: Tid, before: bool, after: bool): Option<Tid> {
    if after then Some(t) else if before then None else held
  }

  function RetakeEvent(held: map<Name, Tid>, t: Tid, before: Option<Name>, after: Option<Name>): map<Name, Tid> {
    var released := if before.Some? then held - {before.value} else held;
    if after.Some? then released[after.value := t] else released
  }

  ghost function Apply(s: State, step: Step): State
    requires Enabled(s, step)
  {
    var t, p, p' := step.t, s.pc[step.t], Target(s, step);
    State(
      if OpOf(s, step).Some? then F.Apply(s.data, OpOf(s, step).value) else s.data,
      s.enable && !step.SRun?,
      s.dist,
      Retake(s.inputLock, t, Holds(p, InputLock), Holds(p', InputLock)),
      Retake(s.infoLock, t, Holds(p, InfoLock), Holds(p', InfoLock)),
      RetakeEvent(s.eventLock, t, HeldEvent(p), HeldEvent(p')),
      Wake(s, step)[t := p']
    )
  }

  // ---------------------------------------------------------------- mutual exclusion

  /** A thread is recorded as the holder of exactly the mutexes of its place. */
  ghost predicate LockOk(s: State, t: Tid)
    requires t in s.pc
  {
    forall l: Lock :: Holds(s.pc[t], l) <==> Holder(s, l) == Some(t)
  }

  ghost predicate LockInv(s: State) {
    && (forall t :: t in s.pc ==> LockOk(s, t))
    && (forall l: Lock :: Holder(s, l).Some? ==> Holder(s, l).value in s.pc)
  }

  lemma SameThreads(s: State, step: Step)
    requires step.t in s.pc && Guard(s, step)
    ensures Wake(s, step).Keys == s.pc.Keys
  {
  }

  lemma WokenHoldNothing(s: State, step: Step, u: Tid)
    requires step.t in s.pc && Guard(s, step) && u in s.pc && u != step.t
    ensures u in Wake(s, step)
    ensures var p, p' := s.pc[u], Wake(s, step)[u];
            || p' == p
            || (p.DAsleep? && p' == DWoken && (step.PPush? || step.SRun?))
            || (p.CAsleep? && p' == CWant(p.n) && step.DDeliver? && s.pc[step.t].n == p.n)
  {
  }

  /** The bookkeeping of the mutexes when a thread moves from `p` to `p'`. */
  ghost predicate Rebooked(s: State, s': State, t: Tid, p: Pc, p': Pc) {
    && s'.inputLock == Retake(s.inputLock, t, Holds(p, InputLock), Holds(p', InputLock))
    && s'.infoLock == Retake(s.infoLock, t, Holds(p, InfoLock), Holds(p', InfoLock))
    && s'.eventLock == RetakeEvent(s.eventLock, t, HeldEvent(p), HeldEvent(p'))
  }

  lemma RebookedHolder(s: State, s': State, t: Tid, p: Pc, p': Pc, l: Lock)
    requires Rebooked(s, s', t, p, p')
    ensures Holder(s', l) == if Holds(p', l) then Some(t) else if Holds(p, l) then None else Holder(s, l)
  {
  }

  lemma HolderAfter(s: State, step: Step, l: Lock)
    requires Enabled(s, step)
    ensures var s', t := Apply(s, step), step.t;
            Holder(s', l) == if Holds(s'.pc[t], l) then Some(t) else if Holds(s.pc[t], l) then None else Holder(s, l)
  {
    RebookedHolder(s, Apply(s, step), step.t, s.pc[step.t], Target(s, step), l);
  }

  lemma WokenHoldSame(s: State, step: Step, u: Tid, l: Lock)
    requires step.t in s.pc && Guard(s, step) && u in s.pc
    ensures u in Wake(s, step) && (Holds(Wake(s, step)[u], l) <==> Holds(s.pc[u], l))
  {
  }

  lemma LockOther(s: State, step: Step, u: Tid)
    requires Enabled(s, step) && u in s.pc && u != step.t && LockOk(s, u) && LockOk(s, step.t)
    ensures u in Apply(s, step).pc && LockOk(Apply(s, step), u)
  {
    var s' := Apply(s, step);
    forall l: Lock ensures u in s'.pc && (Holds(s'.pc[u], l) <==> Holder(s', l) == Some(u)) {
      WokenHoldSame(s, step, u, l);
      HolderAfter(s, step, l);
    }
  }

  lemma LockActor(s: State, step: Step)
    requires Enabled(s, step) && LockOk(s, step.t)
    ensures LockOk(Apply(s, step), step.t)
  {
    var s' := Apply(s, step);
    forall l: Lock ensures Holds(s'.pc[step.t], l) <==> Holder(s', l) == Some(step.t) { HolderAfter(s, step, l); }
  }

  lemma LockStep(s: State, step: Step)
    requires LockInv(s) && Enabled(s, step)
    ensures LockInv(Apply(s, step))
  {
    var s' := Apply(s, step);
    SameThreads(s, step);
    LockActor(s, step);
    assert s'.pc.Keys == s.pc.Keys;
    forall u | u in s'.pc && u != step.t ensures LockOk(s', u) { LockOther(s, step, u); }
    forall l: Lock | Holder(s', l).Some? ensures Holder(s', l).value in s'.pc { HolderAfter(s, step, l); }
  }

  // ---------------------------------------------------------------- one iteration at a time

  /** The phase of the data is the place of whoever holds the input mutex. */
  ghost predicate LinkInv(s: State) {
    s.data.phase ==
      if s.inputLock.Some? && s.inputLock.value in s.pc then PhaseOf(s.pc[s.inputLock.value]) else F.Waiting
  }

  /** Steps that end the wait for a frame or look at the next event. */
  predicate ScanStep(step: Step) {
    step.DTake? || step.DBegin? || step.DSkip? || step.DChoose? || step.DLockEvent? || step.DDeliver?
    || step.DEndScan? || step.DFree?
  }

  predicate RequestStepKind(step: Step) {
    step.RStart? || step.RLock? || step.RInsert? || step.RRemove?
    || step.RLockEvent? || step.RUnlockEvent? || step.RErase?
  }

  predicate PopStepKind(step: Step) {
    step.CStart? || step.CLock? || step.CWait? || step.CTake? || step.CSpurious? || step.CDelete?
  }

  ghost predicate PhaseMoves(s: State, step: Step)
    requires Enabled(s, step)
  {
    var p, p', s' := s.pc[step.t], Target(s, step), Apply(s, step);
    && (Holds(p, InputLock) ==> s'.data.phase == PhaseOf(p'))
    && (!Holds(p, InputLock) ==> s'.data.phase == s.data.phase && PhaseOf(p') == F.Waiting)
  }

  ghost predicate PhaseKnown(s: State, step: Step) {
    Enabled(s, step) && (Holds(s.pc[step.t], InputLock) ==> s.data.phase == PhaseOf(s.pc[step.t]))
  }

  lemma PhaseScan(s: State, step: Step)
    requires PhaseKnown(s, step) && ScanStep(step)
    ensures PhaseMoves(s, step)
  {
  }

  /** The places of requests and of pops are outside an iteration. */
  predicate Outside(p: Pc) { !Holds(p, InputLock) && PhaseOf(p) == F.Waiting }

  lemma RequestOutside(s: State, step: Step)
    requires step.t in s.pc && Guard(s, step) && RequestStepKind(step)
    ensures Outside(s.pc[step.t]) && Outside(Target(s, step))
  {
  }

  lemma PopOutside(s: State, step: Step)
    requires step.t in s.pc && Guard(s, step) && PopStepKind(step)
    ensures Outside(s.pc[step.t]) && Outside(Target(s, step))
  {
  }

  lemma OutsideOps(s: State, step: Step)
    requires step.t in s.pc && Guard(s, step) && (RequestStepKind(step) || PopStepKind(step)) && OpOf(s, step).Some?
    ensures var op := OpOf(s, step).value; op.Insert? || op.Remove? || op.Pop? || op.Delete?
  {
  }

  lemma DataPhaseStays(d: F.State, op: F.Op)
    requires F.Enabled(d, op) && (op.Insert? || op.Remove? || op.Pop? || op.Delete?)
    ensures F.Apply(d, op).phase == d.phase
  {
  }

  lemma PhaseOutside(s: State, step: Step)
    requires PhaseKnown(s, step) && (RequestStepKind(step) || PopStepKind(step))
    ensures PhaseMoves(s, step)
  {
    if RequestStepKind(step) { RequestOutside(s, step); } else { PopOutside(s, step); }
    if OpOf(s, step).Some? {
      OutsideOps(s, step);
      DataPhaseStays(s.data, OpOf(s, step).value);
    }
  }

  lemma PhaseElse(s: State, step: Step)
    requires PhaseKnown(s, step) && !ScanStep(step) && !RequestStepKind(step) && !PopStepKind(step)
    ensures PhaseMoves(s, step)
  {
  }

  lemma PhaseStep(s: State, step: Step)
    requires PhaseKnown(s, step)
    ensures PhaseMoves(s, step)
  {
    if ScanStep(step) { PhaseScan(s, step); }
    else if RequestStepKind(step) || PopStepKind(step) { PhaseOutside(s, step); }
    else { PhaseElse(s, step); }
  }

  lemma NoInputNoPhase(p: Pc)
    ensures !Holds(p, InputLock) ==> PhaseOf(p) == F.Waiting
  {
  }

  lemma LinkStep(s: State, step: Step)
    requires LockInv(s) && LinkInv(s) && Enabled(s, step)
    ensures LinkInv(Apply(s, step))
  {
    var s', t := Apply(s, step), step.t;
    assert LockOk(s, t);
    assert Holds(s.pc[t], InputLock) <==> Holder(s, InputLock) == Some(t);
    PhaseStep(s, step);
    HolderAfter(s, step, InputLock);
    NoInputNoPhase(s'.pc[t]);
    if Holds(s.pc[t], InputLock) {
    } else if Holds(s'.pc[t], InputLock) {
      assert Holder(s, InputLock).None?;
    } else if s.inputLock.Some? {
      var u := s.inputLock.value;
      assert Holder(s, InputLock) == Some(u) && u in s.pc;
      assert LockOk(s, u) && Holds(s.pc[u], InputLock);
      WokenHoldNothing(s, step, u);
    }
  }

  // ---------------------------------------------------------------- locals

  /** A distributor that goes for an event's mutex has an event that is still to be served and due. */
  ghost predicate LocalOk(s: State, t: Tid)
    requires t in s.pc
  {
    var p := s.pc[t];
    p.DNeedEvent? || p.DCopy? ==> p.n in p.todo && p.n in s.data.info && F.Due(s.data, p.n)
  }

  ghost predicate LocalInv(s: State) { forall t :: t in s.pc ==> LocalOk(s, t) }

  lemma InfoStays(s: State, step: Step, n: Name)
    requires Enabled(s, step) && n in s.data.info && F.Due(s.data, n)
    requires !step.DTake? && !step.RErase?
    ensures n in Apply(s, step).data.info && F.Due(Apply(s, step).data, n)
  {
    var op := OpOf(s, step);
    if op.Some? {
      RareOps(s, step);
      DueStays(s.data, op.value, n);
    }
  }

  lemma RareOps(s: State, step: Step)
    requires step.t in s.pc && Guard(s, step) && !step.DTake? && !step.RErase? && OpOf(s, step).Some?
    ensures var op := OpOf(s, step).value; !op.Take? && !op.Remove? && !op.Stop?
  {
  }

  lemma DueStays(d: F.State, op: F.Op, n: Name)
    requires F.Enabled(d, op) && !op.Take? && !op.Remove? && !op.Stop? && n in d.info && F.Due(d, n)
    ensures n in F.Apply(d, op).info && F.Due(F.Apply(d, op), n)
  {
  }

  lemma LocalStep(s: State, step: Step)
    requires LockInv(s) && LocalInv(s) && Enabled(s, step)
    ensures LocalInv(Apply(s, step))
  {
    var s', t := Apply(s, step), step.t;
    forall u | u in s'.pc ensures LocalOk(s', u) {
      assert LockOk(s, t) && LockOk(s, u) && LocalOk(s, u);
      if u == t {
        LocalActor(s, step);
      } else {
        WokenHoldNothing(s, step, u);
        var p := s.pc[u];
        if p.DNeedEvent? || p.DCopy? {
          assert Holds(p, InputLock) && Holds(p, InfoLock);
          assert Holder(s, InputLock) == Some(u) && Holder(s, InfoLock) == Some(u);
          WritersHold(s, step);
          InfoStays(s, step, p.n);
        }
      }
    }
  }

  lemma WritersHold(s: State, step: Step)
    requires Enabled(s, step)
    ensures step.DTake? ==> Holds(s.pc[step.t], InputLock)
    ensures step.RErase? ==> Holds(s.pc[step.t], InfoLock)
  {
  }

  lemma LocalActor(s: State, step: Step)
    requires Enabled(s, step) && LocalOk(s, step.t)
    ensures LocalOk(Apply(s, step), step.t)
  {
    if step.DChoose? || step.DLockEvent? {
      assert Apply(s, step).data == s.data;
    } else {
      LeavesLocal(s, step);
    }
  }

  lemma LeavesLocal(s: State, step: Step)
    requires Enabled(s, step) && !step.DChoose? && !step.DLockEvent?
    ensures !Target(s, step).DNeedEvent? && !Target(s, step).DCopy?
  {
  }

  // ---------------------------------------------------------------- roles and requests

  ghost predicate RoleInv(s: State) {
    && s.dist != {}
    && (forall t :: t in s.dist ==> t in s.pc)
    && (forall t :: t in s.pc ==> (t in s.dist <==> IsDist(s.pc[t])))
    && (forall t :: t in s.pc && s.pc[t].DExit? ==> !s.enable)
    && (forall t :: t in s.pc && s.pc[t].DAsleep? ==> s.enable)
  }

  lemma RoleActor(s: State, step: Step)
    requires step.t in s.pc && Guard(s, step)
    ensures IsDist(Target(s, step)) <==> IsDist(s.pc[step.t])
    ensures Target(s, step).DExit? ==> !s.enable
    ensures Target(s, step).DAsleep? ==> s.enable && !step.SRun?
  {
    if ScanStep(step) { RoleScan(s, step); }
    else if RequestStepKind(step) { RoleRequest(s, step); }
    else if PopStepKind(step) { RolePop(s, step); }
    else { RoleElse(s, step); }
  }

  lemma RoleScan(s: State, step: Step)
    requires step.t in s.pc && Guard(s, step) && ScanStep(step)
    ensures IsDist(Target(s, step)) && IsDist(s.pc[step.t]) && !Target(s, step).DExit? && !Target(s, step).DAsleep?
  {
  }

  lemma RoleRequest(s: State, step: Step)
    requires step.t in s.pc && Guard(s, step) && RequestStepKind(step)
    ensures !IsDist(Target(s, step)) && !IsDist(s.pc[step.t])
  {
  }

  lemma RolePop(s: State, step: Step)
    requires step.t in s.pc && Guard(s, step) && PopStepKind(step)
    ensures !IsDist(Target(s, step)) && !IsDist(s.pc[step.t])
  {
  }

  lemma RoleElse(s: State, step: Step)
    requires step.t in s.pc && Guard(s, step)
    requires !ScanStep(step) && !RequestStepKind(step) && !PopStepKind(step)
    ensures IsDist(Target(s, step)) <==> IsDist(s.pc[step.t])
    ensures Target(s, step).DExit? ==> !s.enable
    ensures Target(s, step).DAsleep? ==> s.enable && !step.SRun?
  {
  }

  lemma RoleOther(s: State, step: Step, u: Tid)
    requires step.t in s.pc && Guard(s, step) && u in s.pc
    ensures u in Wake(s, step)
    ensures var p, p' := s.pc[u], Wake(s, step)[u];
            && (IsDist(p') <==> IsDist(p)) && (p'.DExit? ==> p.DExit?) && (p'.DAsleep? ==> p.DAsleep? && !step.SRun?)
  {
  }

  lemma RoleStep(s: State, step: Step)
    requires RoleInv(s) && Enabled(s, step)
    ensures RoleInv(Apply(s, step))
  {
    var s' := Apply(s, step);
    RoleActor(s, step);
    SameThreads(s, step);
    assert s'.dist == s.dist && s'.enable == (s.enable && !step.SRun?);
    forall u | u in s'.pc
      ensures u in s.pc && (IsDist(s'.pc[u]) <==> IsDist(s.pc[u]))
      ensures (s'.pc[u].DExit? ==> !s'.enable) && (s'.pc[u].DAsleep? ==> s'.enable)
    {
      if u != step.t { RoleOther(s, step, u); }
    }
  }

  /** What a thread at place `p` relies on. */
  ghost predicate PlaceOk(d: F.State, p: Pc) {
    && ((p.RWant? || p.RHold?) && p.req.Insert? ==> 1 <= p.req.fps <= d.fps)
    && (InsidePop(p).Some? ==> InsidePop(p).value in d.info)
    && (p.CAsleep? ==> p.n in d.output && d.output[p.n] == [])
  }

  ghost predicate RequestOk(s: State, t: Tid)
    requires t in s.pc
  {
    PlaceOk(s.data, s.pc[t])
  }

  ghost predicate RequestInv(s: State) {
    && (forall t :: t in s.pc ==> RequestOk(s, t))
    && (forall t, u :: t in s.pc && u in s.pc && InsidePop(s.pc[t]).Some? ==> Removing(s.pc[u]) != InsidePop(s.pc[t]))
    && (forall n :: n in s.data.info ==> s.data.info[n].isRun)
  }

  lemma RequestActor(s: State, step: Step)
    requires Enabled(s, step) && RequestOk(s, step.t)
    ensures RequestOk(Apply(s, step), step.t)
  {
    var p' := Target(s, step);
    if RequestStepKind(step) { RequestActorR(s, step); }
    else if PopStepKind(step) { RequestActorC(s, step); PopperKeepsData(s, step); }
    else { OutsideRequests(s, step); }
    RateStays(s, step);
    assert Apply(s, step).pc[step.t] == p';
  }

  lemma RequestActorR(s: State, step: Step)
    requires step.t in s.pc && Guard(s, step) && RequestOk(s, step.t) && RequestStepKind(step)
    ensures PlaceOk(s.data, Target(s, step)) && InsidePop(Target(s, step)).None?
  {
  }

  lemma RequestActorC(s: State, step: Step)
    requires step.t in s.pc && Guard(s, step) && RequestOk(s, step.t) && PopStepKind(step)
    ensures PlaceOk(s.data, Target(s, step))
  {
  }

  lemma PopperKeepsData(s: State, step: Step)
    requires step.t in s.pc && Guard(s, step) && PopStepKind(step)
    ensures var p' := Target(s, step);
            !p'.RWant? && !p'.RHold? && (InsidePop(p').Some? ==> OpOf(s, step).None?)
  {
  }

  lemma OutsideRequests(s: State, step: Step)
    requires step.t in s.pc && Guard(s, step) && !RequestStepKind(step) && !PopStepKind(step)
    ensures var p := Target(s, step); InsidePop(p).None? && Removing(p).None? && !p.RWant? && !p.RHold?
  {
  }

  /** What a thread inside `pop` of `n` relies on is changed only by a delivery to `n` or the removal of `n`. */
  lemma OutputStays(s: State, step: Step, n: Name)
    requires Enabled(s, step) && F.NameInv(s.data) && n in s.data.info && !(step.RErase? && s.pc[step.t].n == n)
    ensures var d' := Apply(s, step).data;
            && n in d'.info && d'.fps == s.data.fps
            && (n in s.data.output && s.data.output[n] == [] && !(step.DDeliver? && s.pc[step.t].n == n) ==>
                  n in d'.output && d'.output[n] == [])
  {
    WhoseOp(s, step);
    match OpOf(s, step)
    case None =>
    case Some(op) => DataOutputStays(s.data, op, n);
  }

  lemma WhoseOp(s: State, step: Step)
    requires Enabled(s, step)
    ensures var op, s' := OpOf(s, step), Apply(s, step);
            && s'.data == (if op.Some? then F.Apply(s.data, op.value) else s.data)
            && (op.Some? && op.value.Deliver? ==> step.DDeliver? && op.value.n == s.pc[step.t].n)
            && (op.Some? && op.value.Remove? ==> step.RErase? && op.value.n == s.pc[step.t].n)
            && (op.Some? ==> !op.value.Stop?)
  {
  }

  lemma DataOutputStays(d: F.State, op: F.Op, n: Name)
    requires F.Enabled(d, op) && n in d.info && op != F.Remove(n) && !op.Stop?
    ensures var d' := F.Apply(d, op);
            && n in d'.info && d'.fps == d.fps
            && (n in d.output && d.output[n] == [] && op != F.Deliver(n) ==>
                  n in d'.output && d'.output[n] == [])
  {
  }

  /** Data operations do not touch what a thread inside `pop` relies on, except those on its own event. */
  lemma RequestBystander(s: State, step: Step, u: Tid)
    requires Enabled(s, step) && u in s.pc && u != step.t && RequestOk(s, u)
    requires InsidePop(s.pc[u]).Some? ==> Removing(s.pc[step.t]) != InsidePop(s.pc[u])
    requires F.NameInv(s.data)
    ensures u in Apply(s, step).pc && RequestOk(Apply(s, step), u)
  {
    RateStays(s, step);
    BystanderRequests(s, step, u);
    if InsidePop(s.pc[u]).Some? {
      EraserRemoves(s, step);
      OutputStays(s, step, InsidePop(s.pc[u]).value);
      if step.DDeliver? { SleeperOfDelivery(s, step, u); }
    }
  }

  lemma EraserRemoves(s: State, step: Step)
    requires step.t in s.pc && Guard(s, step)
    ensures step.RErase? ==> Removing(s.pc[step.t]) == Some(s.pc[step.t].n)
  {
  }

  lemma RateStays(s: State, step: Step)
    requires Enabled(s, step)
    ensures Apply(s, step).data.fps == s.data.fps
  {
    if OpOf(s, step).Some? { F.HistoryGrows(s.data, OpOf(s, step).value); }
  }

  lemma SleeperOfDelivery(s: State, step: Step, u: Tid)
    requires Enabled(s, step) && step.DDeliver? && u in s.pc && u != step.t
    ensures u in Apply(s, step).pc && Apply(s, step).pc[u] != CAsleep(s.pc[step.t].n)
  {
  }

  lemma BystanderRequests(s: State, step: Step, u: Tid)
    requires Enabled(s, step) && u in s.pc && u != step.t
    ensures var s' := Apply(s, step);
            && u in s'.pc
            && InsidePop(s'.pc[u]) == InsidePop(s.pc[u]) && Removing(s'.pc[u]) == Removing(s.pc[u])
            && (s'.pc[u].CAsleep? || s'.pc[u].RWant? || s'.pc[u].RHold? ==> s'.pc[u] == s.pc[u])
  {
    WokenHoldNothing(s, step, u);
  }

  lemma OverlapPair(s: State, step: Step, t: Tid, u: Tid)
    requires RequestInv(s) && Enabled(s, step) && t in s.pc && u in s.pc
    ensures var s' := Apply(s, step);
            t in s'.pc && u in s'.pc && (InsidePop(s'.pc[t]).Some? ==> Removing(s'.pc[u]) != InsidePop(s'.pc[t]))
  {
    var s' := Apply(s, step);
    PopOfActor(s, step);
    if t != step.t { BystanderRequests(s, step, t); }
    if u != step.t { BystanderRequests(s, step, u); }
    assert InsidePop(s.pc[t]).Some? ==> Removing(s.pc[u]) != InsidePop(s.pc[t]);
  }

  /** Who enters a `pop` or a removal does so when nobody is in the other on the same event. */
  lemma PopOfActor(s: State, step: Step)
    requires Enabled(s, step)
    ensures var p, p' := s.pc[step.t], Apply(s, step).pc[step.t];
            && (InsidePop(p').Some? && InsidePop(p') != InsidePop(p) ==>
                  forall u :: u in s.pc ==> Removing(s.pc[u]) != InsidePop(p'))
            && (Removing(p').Some? && Removing(p') != Removing(p) ==>
                  forall u :: u in s.pc ==> InsidePop(s.pc[u]) != Removing(p'))
            && (InsidePop(p').Some? ==> Removing(p').None?)
  {
    assert Apply(s, step).pc[step.t] == Target(s, step);
    if RequestStepKind(step) { EntersRemoval(s, step); }
    else if PopStepKind(step) { EntersPop(s, step); }
    else { OutsideRequests(s, step); }
  }

  lemma EntersRemoval(s: State, step: Step)
    requires Enabled(s, step) && RequestStepKind(step)
    ensures var p, p' := s.pc[step.t], Target(s, step);
            && InsidePop(p').None?
            && (Removing(p').Some? && Removing(p') != Removing(p) ==>
                  forall u :: u in s.pc ==> InsidePop(s.pc[u]) != Removing(p'))
  {
  }

  lemma EntersPop(s: State, step: Step)
    requires Enabled(s, step) && PopStepKind(step)
    ensures var p, p' := s.pc[step.t], Target(s, step);
            && Removing(p').None?
            && (InsidePop(p').Some? && InsidePop(p') != InsidePop(p) ==>
                  forall u :: u in s.pc ==> Removing(s.pc[u]) != InsidePop(p'))
  {
  }

  lemma RequestStep(s: State, step: Step)
    requires RequestInv(s) && F.NameInv(s.data) && Enabled(s, step)
    ensures RequestInv(Apply(s, step))
  {
    var s' := Apply(s, step);
    forall u | u in s'.pc ensures RequestOk(s', u) {
      assert RequestOk(s, u);
      if u == step.t { RequestActor(s, step); } else { RequestBystander(s, step, u); }
    }
    forall t, u | t in s'.pc && u in s'.pc && InsidePop(s'.pc[t]).Some?
      ensures Removing(s'.pc[u]) != InsidePop(s'.pc[t])
    {
      OverlapPair(s, step, t, u);
    }
    RunStays(s, step);
  }

  lemma RunStays(s: State, step: Step)
    requires Enabled(s, step) && forall n :: n in s.data.info ==> s.data.info[n].isRun
    ensures forall n :: n in Apply(s, step).data.info ==> Apply(s, step).data.info[n].isRun
  {
    if OpOf(s, step).Some? {
      InsertsRunning(s, step);
      DataRunStays(s.data, OpOf(s, step).value);
    }
  }

  lemma InsertsRunning(s: State, step: Step)
    requires step.t in s.pc && Guard(s, step) && OpOf(s, step).Some?
    ensures OpOf(s, step).value.Insert? ==> OpOf(s, step).value.isRun
  {
  }

  lemma DataRunStays(d: F.State, op: F.Op)
    requires F.Enabled(d, op) && (op.Insert? ==> op.isRun) && forall n :: n in d.info ==> d.info[n].isRun
    ensures forall n :: n in F.Apply(d, op).info ==> F.Apply(d, op).info[n].isRun
  {
  }

  // ---------------------------------------------------------------- no frame sleeps

  /** Whenever a frame waits and the queue is enabled, some distributor is not asleep. */
  ghost predicate WakeInv(s: State) {
    s.enable && s.data.input != [] ==> exists t :: t in s.dist && t in s.pc && !s.pc[t].DAsleep?
  }

  lemma InputGrows(s: State, step: Step)
    requires Enabled(s, step) && Apply(s, step).data.input != []
    ensures s.data.input != [] || step.PPush?
    ensures Apply(s, step).pc[step.t].DAsleep? ==> step.DWait? && s.data.input == []
    ensures Apply(s, step).dist == s.dist && (Apply(s, step).enable ==> s.enable)
  {
    assert Apply(s, step).pc[step.t] == Target(s, step);
    GoesToSleep(s, step);
    var op := OpOf(s, step);
    if op.Some? {
      OnlyPushFills(s.data, op.value);
      PushesFrame(s, step);
    }
  }

  lemma GoesToSleep(s: State, step: Step)
    requires step.t in s.pc && Guard(s, step)
    ensures Target(s, step).DAsleep? ==> step.DWait? && s.data.input == []
  {
  }

  lemma PushesFrame(s: State, step: Step)
    requires step.t in s.pc && Guard(s, step)
    ensures OpOf(s, step).Some? && OpOf(s, step).value.Push? ==> step.PPush?
  {
  }

  lemma OnlyPushFills(d: F.State, op: F.Op)
    requires F.Enabled(d, op)
    ensures F.Apply(d, op).input != [] ==> d.input != [] || op.Push?
  {
  }

  lemma WakeStep(s: State, step: Step)
    requires RoleInv(s) && WakeInv(s) && Enabled(s, step)
    ensures WakeInv(Apply(s, step))
  {
    var s' := Apply(s, step);
    if s'.enable && s'.data.input != [] {
      InputGrows(s, step);
      if step.t in s.dist {
        assert step.t in s'.dist && step.t in s'.pc && !s'.pc[step.t].DAsleep?;
      } else if s.data.input != [] {
        var u :| u in s.dist && u in s.pc && !s.pc[u].DAsleep?;
        WokenHoldNothing(s, step, u);
        assert u in s'.dist && u in s'.pc && !s'.pc[u].DAsleep?;
      } else {
        var u := if step.w.Some? then step.w.value else Any(s.dist);
        assert u in s.dist;
        assert u in s'.dist && u in s'.pc && !s'.pc[u].DAsleep?;
      }
    }
  }

  ghost function Any(d: set<Tid>): (t: Tid)
    requires d != {}
    ensures t in d
  {
    var t :| t in d; t
  }

  // ---------------------------------------------------------------- the invariant

  ghost predicate Control(s: State) {
    LockInv(s) && LinkInv(s) && LocalInv(s) && RoleInv(s) && RequestInv(s) && WakeInv(s)
  }

  ghost predicate Inv(s: State) { F.Inv(s.data) && Control(s) }

  ghost predicate Init(s: State) {
    && F.Init(s.data) && s.enable && s.dist != {}
    && s.inputLock == None && s.infoLock == None && s.eventLock == map[]
    && (forall t :: t in s.dist ==> t in s.pc)
    && (forall t :: t in s.pc ==> s.pc[t] == if t in s.dist then DTop else Idle)
  }

  lemma InitInv(s: State)
    requires Init(s)
    ensures Inv(s)
  {
    F.InitInv(s.data);
  }

  lemma InvStep(s: State, step: Step)
    requires Inv(s) && Enabled(s, step)
    ensures Inv(Apply(s, step))
  {
    if OpOf(s, step).Some? { F.InvStep(s.data, OpOf(s, step).value); }
    LockStep(s, step);
    LinkStep(s, step);
    LocalStep(s, step);
    RoleStep(s, step);
    RequestStep(s, step);
    WakeStep(s, step);
  }

  // ---------------------------------------------------------------- mutual exclusion makes the data operations safe

  lemma PhaseOfHolder(s: State, t: Tid)
    requires LockInv(s) && LinkInv(s) && t in s.pc && Holds(s.pc[t], InputLock)
    ensures s.data.phase == PhaseOf(s.pc[t])
  {
    assert LockOk(s, t);
    assert Holder(s, InputLock) == Some(t);
  }

  lemma NoScanBeside(s: State, t: Tid)
    requires LockInv(s) && LinkInv(s) && t in s.pc && Holds(s.pc[t], InfoLock) && !Holds(s.pc[t], InputLock)
    ensures !s.data.phase.Scanning?
  {
    if s.inputLock.Some? && s.inputLock.value in s.pc {
      var u := s.inputLock.value;
      assert LockOk(s, t) && LockOk(s, u);
      assert Holder(s, InputLock) == Some(u) && Holder(s, InfoLock) == Some(t);
      assert u != t;
      assert !Holds(s.pc[u], InfoLock);
    }
  }

  /** The conditions of a step that concern its thread and the mutexes. */
  ghost predicate Free(s: State, step: Step) {
    step.t in s.pc && Guard(s, step) && LocksFree(s, step.t, Target(s, step))
  }

  lemma ScanReady(s: State, step: Step)
    requires Free(s, step) && ScanStep(step) && LocalOk(s, step.t) && s.data.phase == PhaseOf(s.pc[step.t])
    ensures Enabled(s, step)
  {
  }

  lemma RequestReady(s: State, step: Step)
    requires Free(s, step) && RequestStepKind(step) && RequestOk(s, step.t)
    requires Holds(s.pc[step.t], InfoLock) ==> !s.data.phase.Scanning?
    ensures Enabled(s, step)
  {
  }

  lemma OtherReady(s: State, step: Step)
    requires Free(s, step) && !ScanStep(step) && !RequestStepKind(step) && RequestOk(s, step.t)
    requires forall n :: n in s.data.info ==> s.data.info[n].isRun
    ensures Enabled(s, step)
  {
  }

  lemma ScannerHoldsInput(s: State, step: Step)
    requires Free(s, step)
    ensures ScanStep(step) ==> Holds(s.pc[step.t], InputLock)
    ensures RequestStepKind(step) ==> !Holds(s.pc[step.t], InputLock)
  {
  }

  /** A thread that has its mutexes never finds the data in a state its next action is not made for:
      the condition on the data in `Enabled` follows from the rest. */
  lemma GuardSuffices(s: State, step: Step)
    requires Inv(s) && Free(s, step)
    ensures Enabled(s, step)
  {
    var t := step.t;
    ScannerHoldsInput(s, step);
    assert LocalOk(s, t) && RequestOk(s, t);
    if ScanStep(step) {
      PhaseOfHolder(s, t);
      ScanReady(s, step);
    } else if RequestStepKind(step) {
      if Holds(s.pc[t], InfoLock) { NoScanBeside(s, t); }
      RequestReady(s, step);
    } else {
      OtherReady(s, step);
    }
  }

  // ---------------------------------------------------------------- whole runs

  ghost predicate LegalRun(s: State, steps: seq<Step>)
    decreases |steps|
  {
    steps != [] ==> Enabled(s, steps[0]) && LegalRun(Apply(s, steps[0]), steps[1..])
  }

  ghost function Final(s: State, steps: seq<Step>): State
    requires LegalRun(s, steps)
    decreases |steps|
  {
    if steps == [] then s else Final(Apply(s, steps[0]), steps[1..])
  }

  lemma {:induction false} RunInv(s: State, steps: seq<Step>)
    requires Inv(s) && LegalRun(s, steps)
    ensures Inv(Final(s, steps))
    decreases |steps|
  {
    if steps == [] {
    } else {
      InvStep(s, steps[0]);
      RunInv(Apply(s, steps[0]), steps[1..]);
    }
  }

  // ---------------------------------------------------------------- ownership

  datatype Place = AtInput(i: nat) | AtOutput(n: Name, i: nat) | InHand(t: Tid) | AtConsumer

  /** The buffer at address `a` is referred to from `place`. */
  ghost predicate RefersTo(s: State, place: Place, a: F.Addr) {
    match place
    case AtInput(i) => i < |s.data.input| && s.data.input[i] == a
    case AtOutput(n, i) => n in s.data.output && i < |s.data.output[n]| && s.data.output[n][i] == a
    case InHand(t) => t in s.pc && !PhaseOf(s.pc[t]).Waiting? && PhaseOf(s.pc[t]).cur == a
    case AtConsumer => a in s.data.held
  }

  ghost predicate HasOwner(s: State, place: Place, a: F.Addr) {
    a in s.data.owner && s.data.owner[a] == match place
      case AtInput(_) => F.Input
      case AtOutput(n, _) => F.Output(n)
      case InHand(_) => F.Hand
      case AtConsumer => F.Consumer
  }

  lemma PlaceHasOwner(s: State, place: Place, a: F.Addr)
    requires Inv(s) && RefersTo(s, place, a)
    ensures HasOwner(s, place, a)
    ensures place.InHand? ==> s.inputLock == Some(place.t)
  {
    match place
    case AtInput(i) => assert a in s.data.input;
    case AtOutput(n, i) => assert a in s.data.output[n];
    case InHand(t) =>
      NoInputNoPhase(s.pc[t]);
      PhaseOfHolder(s, t);
      assert LockOk(s, t) && Holder(s, InputLock) == Some(t);
      assert a in F.Cur(s.data.phase);
    case AtConsumer =>
  }

  lemma OwnerHasPlace(s: State, a: F.Addr) returns (place: Place)
    requires Inv(s) && a in s.data.heap
    ensures RefersTo(s, place, a)
  {
    var d := s.data;
    match d.owner[a]
    case Input =>
      assert a in d.input;
      var i :| 0 <= i < |d.input| && d.input[i] == a;
      place := AtInput(i);
    case Output(n) =>
      assert a in d.output[n];
      var i :| 0 <= i < |d.output[n]| && d.output[n][i] == a;
      place := AtOutput(n, i);
    case Hand =>
      assert a in F.Cur(d.phase);
      place := InHand(s.inputLock.value);
    case Consumer => place := AtConsumer;
  }

  /** In every reachable state the live buffers are exactly those referred to from the input queue, an output queue,
      the distributor at work or a consumer, each from one place only; none is deleted twice or still referred to
      after deletion, and a registered event always has a queue, so that no copy is ever dropped. */
  lemma OnePlaceEach(s0: State, steps: seq<Step>)
    requires Init(s0) && LegalRun(s0, steps)
    ensures var s := Final(s0, steps);
            && (forall a :: a in s.data.heap <==> exists place :: RefersTo(s, place, a))
            && (forall a, p, p' :: RefersTo(s, p, a) && RefersTo(s, p', a) ==> p == p')
            && Distinct(s.data.freed)
            && (forall a :: a in s.data.freed ==> a !in s.data.heap)
            && (forall n :: n in s.data.info ==> n in s.data.output)
  {
    InitInv(s0);
    RunInv(s0, steps);
    var s := Final(s0, steps);
    forall a ensures a in s.data.heap <==> exists place :: RefersTo(s, place, a) {
      if a in s.data.heap { var place := OwnerHasPlace(s, a); }
      if place :| RefersTo(s, place, a) { PlaceHasOwner(s, place, a); }
    }
    forall a, p, p' | RefersTo(s, p, a) && RefersTo(s, p', a) ensures p == p' {
      PlaceHasOwner(s, p, a);
      PlaceHasOwner(s, p', a);
      SameOwnerSamePlace(s, p, p', a);
    }
  }

  lemma SameOwnerSamePlace(s: State, p: Place, p': Place, a: F.Addr)
    requires Inv(s) && RefersTo(s, p, a) && RefersTo(s, p', a) && HasOwner(s, p, a) && HasOwner(s, p', a)
    requires p.InHand? ==> s.inputLock == Some(p.t)
    requires p'.InHand? ==> s.inputLock == Some(p'.t)
    ensures p == p'
  {
    match p
    case AtInput(i) => assert Distinct(s.data.input);
    case AtOutput(n, i) => assert F.Holds(s.data, s.data.output[n], F.Output(n));
    case _ =>
  }

  // ---------------------------------------------------------------- no deadlock

  function Rank(l: Lock): nat {
    match l
    case InputLock => 0
    case InfoLock => 1
    case EventLock(_) => 2
  }

  /** Mutexes are taken in the order input, thread information, event. */
  lemma LockOrder(p: Pc, l: Lock)
    requires Wants(p).Some? && Holds(p, l)
    ensures Rank(l) < Rank(Wants(p).value)
  {
  }

  /** `t` waits for a mutex that `u` holds. */
  ghost predicate WaitsFor(s: State, t: Tid, u: Tid) {
    t in s.pc && Wants(s.pc[t]).Some? && Holder(s, Wants(s.pc[t]).value) == Some(u)
  }

  ghost predicate Chain(s: State, ts: seq<Tid>) { forall i :: 0 <= i < |ts| - 1 ==> WaitsFor(s, ts[i], ts[i + 1]) }

  /** 0 for a thread that waits for no mutex. */
  ghost function WantRank(s: State, t: Tid): nat {
    if t in s.pc && Wants(s.pc[t]).Some? then Rank(Wants(s.pc[t]).value) + 1 else 0
  }

  lemma Climb(s: State, t: Tid, u: Tid)
    requires LockInv(s) && WaitsFor(s, t, u)
    ensures WantRank(s, u) == 0 || WantRank(s, t) < WantRank(s, u)
    ensures WantRank(s, t) > 0
  {
    if WantRank(s, u) > 0 {
      assert LockOk(s, u);
      LockOrder(s.pc[u], Wants(s.pc[t]).value);
    }
  }

  lemma {:induction false} ChainClimbs(s: State, ts: seq<Tid>)
    requires LockInv(s) && ts != [] && Chain(s, ts) && WantRank(s, ts[|ts| - 1]) > 0
    ensures 0 < WantRank(s, ts[0]) <= WantRank(s, ts[|ts| - 1])
  {
    if |ts| > 1 {
      var rest := ts[1..];
      forall i | 0 <= i < |rest| - 1 ensures WaitsFor(s, rest[i], rest[i + 1]) {
        var j := i + 1;
        assert WaitsFor(s, ts[j], ts[j + 1]);
      }
      ChainClimbs(s, rest);
      assert WaitsFor(s, ts[0], ts[0 + 1]);
      Climb(s, ts[0], ts[1]);
    }
  }

  /** In every reachable state there is no cycle of threads each waiting for a mutex that the next one holds. */
  lemma NoCycleOfWaiters(s0: State, steps: seq<Step>, ts: seq<Tid>)
    requires Init(s0) && LegalRun(s0, steps) && ts != []
    requires Chain(Final(s0, steps), ts)
    ensures !WaitsFor(Final(s0, steps), ts[|ts| - 1], ts[0])
  {
    InitInv(s0);
    RunInv(s0, steps);
    var s := Final(s0, steps);
    var last := ts[|ts| - 1];
    if WaitsFor(s, last, ts[0]) {
      Climb(s, last, ts[0]);
      ChainClimbs(s, ts);
      assert false;
    }
  }

  // ---------------------------------------------------------------- progress

  predicate Starts(step: Step) { step.PStart? || step.RStart? || step.CStart? || step.SStart? }

  /** Nobody's call goes on by it: a wake-up for no reason, or a consumer that deletes what it has popped. */
  predicate Idles(step: Step) { step.DSpurious? || step.CSpurious? || step.CDelete? }

  /** Steps that begin a new call, delete a consumed buffer or wake for no reason. */
  predicate Spontaneous(step: Step) { Starts(step) || Idles(step) }

  ghost predicate CanStep(s: State) { exists step :: Enabled(s, step) && !Spontaneous(step) }

  /** Going from `p` to `p'` takes at most the mutex that a thread at `p` waits for. */
  ghost predicate WantedOnly(p: Pc, p': Pc) {
    forall l: Lock :: Holds(p', l) && !Holds(p, l) ==> Wants(p) == Some(l)
  }

  lemma ScanWanted(s: State, step: Step)
    requires step.t in s.pc && Guard(s, step) && ScanStep(step)
    ensures WantedOnly(s.pc[step.t], Target(s, step))
  {
  }

  lemma RequestWanted(s: State, step: Step)
    requires step.t in s.pc && Guard(s, step) && RequestStepKind(step)
    ensures WantedOnly(s.pc[step.t], Target(s, step))
  {
  }

  lemma PopWanted(s: State, step: Step)
    requires step.t in s.pc && Guard(s, step) && PopStepKind(step)
    ensures WantedOnly(s.pc[step.t], Target(s, step))
  {
  }

  lemma OtherWanted(s: State, step: Step)
    requires step.t in s.pc && Guard(s, step)
    requires !ScanStep(step) && !RequestStepKind(step) && !PopStepKind(step)
    ensures WantedOnly(s.pc[step.t], Target(s, step))
  {
  }

  /** A step takes at most the mutex that its thread waits for. */
  lemma TakesOnlyWanted(s: State, step: Step)
    requires step.t in s.pc && Guard(s, step)
    ensures WantedOnly(s.pc[step.t], Target(s, step))
  {
    if ScanStep(step) { ScanWanted(s, step); }
    else if RequestStepKind(step) { RequestWanted(s, step); }
    else if PopStepKind(step) { PopWanted(s, step); }
    else { OtherWanted(s, step); }
  }

  /** Nothing but the mutex that `t` waits for, if any, keeps it from making `step`. */
  ghost predicate Ready(s: State, t: Tid, step: Step) {
    step.t == t && t in s.pc && Guard(s, step) && !Spontaneous(step)
  }

  lemma Witness(s: State, t: Tid, step: Step)
    requires Inv(s) && Ready(s, t, step)
    requires Wants(s.pc[t]).Some? ==> Holder(s, Wants(s.pc[t]).value).None?
    ensures CanStep(s)
  {
    TakesOnlyWanted(s, step);
    GuardSuffices(s, step);
  }

  lemma EventHolderReady(s: State, t: Tid, n: Name) returns (step: Step)
    requires t in s.pc && Holds(s.pc[t], EventLock(n)) && n in s.data.output
    ensures Ready(s, t, step)
  {
    match s.pc[t]
    case DCopy(_, _, _) => step := DDeliver(t);
    case RHoldEvent(_) => step := RUnlockEvent(t);
    case CHold(_) => step := if s.data.output[n] == [] then CWait(t) else CTake(t);
  }

  lemma HoldersWaitForNoEvent(p: Pc, n: Name)
    requires Holds(p, EventLock(n))
    ensures Wants(p).None?
    ensures p.DCopy? || p.RHoldEvent? || InsidePop(p) == Some(n)
  {
  }

  lemma HolderThere(s: State, l: Lock)
    requires LockInv(s) && Holder(s, l).Some?
    ensures Holder(s, l).value in s.pc && Holds(s.pc[Holder(s, l).value], l)
  {
    assert LockOk(s, Holder(s, l).value);
  }

  lemma EventThere(s: State, t: Tid, n: Name)
    requires Inv(s) && t in s.pc && Holds(s.pc[t], EventLock(n)) && !s.pc[t].RHoldEvent?
    ensures n in s.data.output
  {
    HoldersWaitForNoEvent(s.pc[t], n);
    assert RequestOk(s, t) && LocalOk(s, t);
  }

  /** Whoever holds an event's mutex can go on. */
  lemma EventHolderSteps(s: State, n: Name)
    requires Inv(s) && Holder(s, EventLock(n)).Some?
    ensures CanStep(s)
  {
    var t := Holder(s, EventLock(n)).value;
    HolderThere(s, EventLock(n));
    HoldersWaitForNoEvent(s.pc[t], n);
    if s.pc[t].RHoldEvent? {
      Witness(s, t, RUnlockEvent(t));
    } else {
      EventThere(s, t, n);
      var step := EventHolderReady(s, t, n);
      Witness(s, t, step);
    }
  }

  lemma InfoHolderReady(s: State, t: Tid) returns (step: Step)
    requires t in s.pc && Holds(s.pc[t], InfoLock) && !s.pc[t].DScan?
    ensures Ready(s, t, step)
    ensures Wants(s.pc[t]).Some? ==> Wants(s.pc[t]).value.EventLock?
  {
    match s.pc[t]
    case DNeedEvent(_, _, n) => step := DLockEvent(t);
    case DCopy(_, _, _) => step := DDeliver(t);
    case RHold(req) => step := if req.Insert? then RInsert(t) else RRemove(t);
    case RNeedEvent(n) => step := RLockEvent(t);
    case RHoldEvent(_) => step := RUnlockEvent(t);
    case RApply(_) => step := RErase(t);
  }

  lemma ScanReadyStep(s: State, t: Tid) returns (step: Step)
    requires t in s.pc && s.pc[t].DScan? && F.NameInv(s.data) && s.data.phase == PhaseOf(s.pc[t])
    ensures Ready(s, t, step)
  {
    var todo := s.pc[t].todo;
    if todo == {} { step := DEndScan(t); }
    else {
      var n :| n in todo;
      assert n in s.data.info;
      step := if F.Due(s.data, n) then DChoose(t, n) else DSkip(t, n);
    }
  }

  /** Whoever holds the thread-information mutex can go on, or waits for an event's mutex whose holder can. */
  lemma InfoHolderSteps(s: State)
    requires Inv(s) && s.infoLock.Some?
    ensures CanStep(s)
  {
    var t := s.infoLock.value;
    HolderThere(s, InfoLock);
    if s.pc[t].DScan? {
      PhaseOfHolder(s, t);
      var step := ScanReadyStep(s, t);
      Witness(s, t, step);
    } else {
      var step := InfoHolderReady(s, t);
      GoOn(s, t, step);
    }
  }

  /** A thread that is ready goes on, unless an event's mutex keeps it, whose holder goes on. */
  lemma GoOn(s: State, t: Tid, step: Step)
    requires Inv(s) && Ready(s, t, step)
    requires Wants(s.pc[t]).Some? ==> Wants(s.pc[t]).value.EventLock?
    ensures CanStep(s)
  {
    var w := Wants(s.pc[t]);
    if w.Some? && Holder(s, w.value).Some? { EventHolderSteps(s, w.value.n); } else { Witness(s, t, step); }
  }

  lemma InputHolderReady(s: State, t: Tid) returns (step: Step)
    requires t in s.pc && Holds(s.pc[t], InputLock) && !Holds(s.pc[t], InfoLock)
    ensures Ready(s, t, step)
    ensures Wants(s.pc[t]).Some? ==> Wants(s.pc[t]).value == InfoLock
  {
    match s.pc[t]
    case DCheck =>
      step := if !s.enable then DQuit(t) else if s.data.input == [] then DWait(t) else DTake(t, 0);
    case DNeedInfo(_) => step := DBegin(t);
    case DDone(_) => step := DFree(t);
    case PHold(_) =>
      if u :| u in s.pc && s.pc[u].DAsleep? { step := PPush(t, Some(u)); } else { step := PPush(t, None); }
    case SHold => step := SRun(t);
  }

  /** Whoever holds the input mutex can go on, or waits for a mutex whose holder can. */
  lemma InputHolderSteps(s: State)
    requires Inv(s) && s.inputLock.Some?
    ensures CanStep(s)
  {
    var t := s.inputLock.value;
    HolderThere(s, InputLock);
    if s.infoLock.Some? {
      InfoHolderSteps(s);
    } else {
      assert LockOk(s, t) && Holder(s, InfoLock).None?;
      assert !Holds(s.pc[t], InfoLock);
      var step := InputHolderReady(s, t);
      Witness(s, t, step);
    }
  }

  lemma WaiterReady(s: State, t: Tid) returns (step: Step)
    requires t in s.pc && Wants(s.pc[t]).Some?
    ensures Ready(s, t, step)
  {
    match s.pc[t]
    case DWant => step := DLock(t);
    case DWoken => step := DLock(t);
    case PWant(_) => step := PLock(t);
    case SWant => step := SLock(t);
    case DNeedInfo(_) => step := DBegin(t);
    case RWant(_) => step := RLock(t);
    case DNeedEvent(_, _, n) => step := DLockEvent(t);
    case RNeedEvent(n) => step := RLockEvent(t);
    case CWant(n) => step := CLock(t);
  }

  /** In every reachable state: while the queue is enabled and a frame waits, some distributor is awake and somebody
      can go on with a call; a thread asleep in `pop` sleeps on an empty queue; and a thread that waits for a mutex is
      never the last one that could move. */
  lemma NobodyOversleeps(s0: State, steps: seq<Step>)
    requires Init(s0) && LegalRun(s0, steps)
    ensures var s := Final(s0, steps);
            && (s.enable && s.data.input != [] ==>
                  CanStep(s) && exists t :: t in s.dist && t in s.pc && !s.pc[t].DAsleep?)
            && (forall t :: t in s.pc && s.pc[t].CAsleep? ==>
                  s.pc[t].n in s.data.output && s.data.output[s.pc[t].n] == [])
            && (forall t :: t in s.pc && Wants(s.pc[t]).Some? ==> CanStep(s))
  {
    InitInv(s0);
    RunInv(s0, steps);
    var s := Final(s0, steps);
    forall t | t in s.pc && s.pc[t].CAsleep?
      ensures s.pc[t].n in s.data.output && s.data.output[s.pc[t].n] == []
    {
      assert RequestOk(s, t);
    }
    forall t | t in s.pc && Wants(s.pc[t]).Some? ensures CanStep(s) { WaiterMeansStep(s, t); }
    if s.enable && s.data.input != [] {
      var t :| t in s.dist && t in s.pc && !s.pc[t].DAsleep?;
      AwakeMeansStep(s, t);
    }
  }

  /** In every reachable state: once the queue is shut down no distributor sleeps. */
  lemma ShutdownWakes(s0: State, steps: seq<Step>)
    requires Init(s0) && LegalRun(s0, steps) && !Final(s0, steps).enable
    ensures var s := Final(s0, steps); forall t :: t in s.pc ==> !s.pc[t].DAsleep?
  {
    InitInv(s0);
    RunInv(s0, steps);
  }

  lemma WaiterMeansStep(s: State, t: Tid)
    requires Inv(s) && t in s.pc && Wants(s.pc[t]).Some?
    ensures CanStep(s)
  {
    if s.inputLock.Some? { InputHolderSteps(s); }
    else if s.infoLock.Some? { InfoHolderSteps(s); }
    else {
      var l := Wants(s.pc[t]).value;
      var step := WaiterReady(s, t);
      if l.EventLock? { GoOn(s, t, step); } else { Witness(s, t, step); }
    }
  }

  lemma AwakeMeansStep(s: State, t: Tid)
    requires Inv(s) && s.enable && t in s.dist && t in s.pc && !s.pc[t].DAsleep?
    ensures CanStep(s)
  {
    if s.inputLock.Some? { InputHolderSteps(s); }
    else if Wants(s.pc[t]).Some? { WaiterMeansStep(s, t); }
    else {
      assert LockOk(s, t) && Holder(s, InputLock).None?;
      assert !Holds(s.pc[t], InputLock) && IsDist(s.pc[t]) && !s.pc[t].DExit?;
      Witness(s, t, DTest(t));
    }
  }
}
