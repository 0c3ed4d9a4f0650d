/** The logging thread pool from construction to the end of its destructor, on top of the blocking queue.

    Workers loop over `dequeue` and handle what they get. Posters enqueue with any overflow policy.
    The destructor may start once no poster is inside a call (posters hold the pool alive); it then
    enqueues one terminate message per worker, blocking, and joins the workers in order. */
module ThreadPool {
  import opened Basics
  import opened Sums
  import Q = MpmcQueue

  type Tid = Q.Tid

  const MAX_THREADS := 1000

  datatype Msg = Log(id: nat) | Flush(id: nat) | Terminate

  datatype Status = Running | Handling(m: Msg) | Exited

  /** `handled`, `queuedAtClose` and `removedAtClose` are history. */
  datatype Pool = Pool(
    mq: Q.State<Msg>,
    threads: seq<Tid>,
    workers: map<Tid, Status>,
    dtor: Tid,
    closing: bool,
    posted: nat,
    joined: nat,
    handled: seq<Msg>,
    queuedAtClose: seq<Msg>,
    removedAtClose: nat
  )

  datatype Step =
    | Queue(step: Q.Step<Msg>)   // a step of some thread inside a queue operation
    | Handle(w: Tid)             // a worker processes the message it has taken
    | BeginShutdown
    | Join

  predicate IsPoster(s: Pool, t: Tid) { t !in s.workers && t != s.dtor }

  /** Who may start which operation. Inside an operation a thread just goes on. */
  ghost predicate QueueStepAllowed(s: Pool, step: Q.Step<Msg>) {
    match step
    case StartEnqueue(t, x) =>
      if t == s.dtor then s.closing && x == Terminate && s.posted < |s.threads|
      else IsPoster(s, t) && !s.closing && x != Terminate
    case Nowait(t, x) => IsPoster(s, t) && !s.closing && x != Terminate
    case IfHaveRoom(t, x) => IsPoster(s, t) && !s.closing && x != Terminate
    case StartDequeue(t, timed) => t in s.workers && s.workers[t].Running? && !timed
    case ResetOverrun => !s.closing
    case ResetDiscard => !s.closing
    case _ => true
  }

  ghost predicate Enabled(s: Pool, step: Step) {
    match step
    case Queue(q) => Q.Enabled(s.mq, q) && QueueStepAllowed(s, q)
    case Handle(w) => w in s.workers && s.workers[w].Handling?
    case BeginShutdown =>
      !s.closing && forall t :: t in s.mq.pc && IsPoster(s, t) ==> s.mq.pc[t].Idle?
    case Join =>
      && s.closing && s.posted == |s.threads| && s.dtor in s.mq.pc && s.mq.pc[s.dtor].Idle?
      && s.joined < |s.threads|
      && s.threads[s.joined] in s.workers && s.workers[s.threads[s.joined]].Exited?
  }

  ghost function Apply(s: Pool, step: Step): Pool
    requires Q.Sized(s.mq) && Enabled(s, step)
  {
    match step
    case Queue(q) =>
      var s' := s.(mq := Q.Apply(s.mq, q));
      if q.PTry? && q.t == s.dtor && !Q.Full(s.mq) then s'.(posted := s.posted + 1)
      else if q.NotifyPop? then s'.(workers := s.workers[q.t := Handling(s.mq.pc[q.t].item)])
      else s'
    case Handle(w) =>
      var m := s.workers[w].m;
      s.(workers := s.workers[w := if m.Terminate? then Exited else Running], handled := s.handled + [m])
    case BeginShutdown =>
      s.(closing := true, queuedAtClose := s.mq.q, removedAtClose := |s.mq.removed|)
    case Join => s.(joined := s.joined + 1)
  }

  /** The destructor has returned. */
  ghost predicate Done(s: Pool) { s.closing && s.joined == |s.threads| }

  // ---------------------------------------------------------------- what a worker is doing

  ghost function Carrying(s: Pool, w: Tid): Option<Msg> {
    if w !in s.workers || w !in s.mq.pc then None
    else if s.workers[w].Handling? then Some(s.workers[w].m)
    else if s.mq.pc[w].CNotify? then Some(s.mq.pc[w].item)
    else None
  }

  /** A worker is leaving once it has taken a terminate message. */
  ghost predicate Leaving(s: Pool, w: Tid) {
    (w in s.workers && s.workers[w].Exited?) || Carrying(s, w) == Some(Terminate)
  }

  ghost function LeavingBit(s: Pool): Tid -> nat { w => if Leaving(s, w) then 1 else 0 }

  ghost function CarryBit(s: Pool, m: Msg): Tid -> nat { w => if Carrying(s, w) == Some(m) then 1 else 0 }

  /** Workers that have not yet taken a terminate message. */
  ghost function Live(s: Pool): int { |s.threads| - Sum(LeavingBit(s), s.threads) }

  function Terminates(q: seq<Msg>): nat {
    if q == [] then 0 else (if q[0].Terminate? then 1 else 0) + Terminates(q[1..])
  }

  lemma {:induction false} TerminatesConcat(a: seq<Msg>, b: seq<Msg>)
    ensures Terminates(a + b) == Terminates(a) + Terminates(b)
  {
    if a == [] {
      assert a + b == b;
    } else {
      TerminatesConcat(a[1..], b);
      assert (a + b)[1..] == a[1..] + b;
    }
  }

  function Repeat(m: Msg, n: nat): seq<Msg> { seq(n, _ => m) }

  // ---------------------------------------------------------------- invariants

  predicate WorkerPc(p: Q.Pc<Msg>) {
    p.Idle? || (p.CWant? && !p.timed) || (p.CAsleep? && !p.timed) || (p.CWoken? && !p.timed && !p.expired) || p.CNotify?
  }

  predicate OffersTerminate(p: Q.Pc<Msg>) { (p.PWant? || p.PAsleep? || p.PWoken?) && p.item == Terminate }

  predicate PosterPc(p: Q.Pc<Msg>) {
    p.Idle? || p.PNotify? || p.PDiscard? || ((p.PWant? || p.PAsleep? || p.PWoken?) && p.item != Terminate)
  }

  /** Each thread stays within the operations of its role. */
  ghost predicate ThreadOk(s: Pool, t: Tid) {
    && t in s.mq.pc
    && (var p := s.mq.pc[t];
        if t in s.workers then WorkerPc(p) && (p.Idle? || s.workers[t].Running?)
        else if t == s.dtor then p.Idle? || p.PNotify? || OffersTerminate(p)
        else PosterPc(p))
  }

  ghost predicate Structure(s: Pool) {
    && 1 <= |s.threads| && Distinct(s.threads)
    && (forall t :: t in s.threads <==> t in s.workers)
    && s.dtor !in s.workers && ThreadOk(s, s.dtor)
    && (forall w :: w in s.workers ==> ThreadOk(s, w))
    && (forall t :: t in s.mq.pc ==> ThreadOk(s, t))
  }

  /** The thread whose step it is. */
  function Actor(step: Step): Option<Tid> {
    match step
    case Queue(q) => if q.ResetOverrun? || q.ResetDiscard? then None else Some(q.t)
    case Handle(w) => Some(w)
    case _ => None
  }

  ghost predicate ActorOk(s: Pool, step: Step) { Actor(step).Some? ==> ThreadOk(s, Actor(step).value) }

  ghost predicate ThreadsOk(s: Pool, step: Step, t: Tid) {
    Q.Sized(s.mq) && Enabled(s, step) && s.dtor !in s.workers && ThreadOk(s, t) && ActorOk(s, step)
  }

  lemma PcProducer(s: Pool, step: Step, t: Tid)
    requires ThreadsOk(s, step, t) && step.Queue?
    requires var q := step.step; q.StartEnqueue? || q.PTry? || q.Nowait? || q.IfHaveRoom? || q.Discard?
    ensures ThreadOk(Apply(s, step), t) && Apply(s, step).workers == s.workers
  {
  }

  lemma PcConsumer(s: Pool, step: Step, t: Tid)
    requires ThreadsOk(s, step, t) && step.Queue?
    requires var q := step.step; q.StartDequeue? || q.CTry? || q.Timeout? || q.WakeConsumer? || q.WakeProducer?
    ensures ThreadOk(Apply(s, step), t) && Apply(s, step).workers == s.workers
  {
  }

  lemma PcNotify(s: Pool, step: Step, t: Tid)
    requires ThreadsOk(s, step, t) && step.Queue?
    requires var q := step.step; q.NotifyPush? || q.NotifyPop?
    ensures ThreadOk(Apply(s, step), t) && Apply(s, step).workers.Keys == s.workers.Keys
  {
  }

  lemma PcOther(s: Pool, step: Step, t: Tid)
    requires ThreadsOk(s, step, t)
    requires step.Queue? ==> step.step.ResetOverrun? || step.step.ResetDiscard?
    ensures ThreadOk(Apply(s, step), t) && Apply(s, step).workers.Keys == s.workers.Keys
  {
  }

  lemma PcStep(s: Pool, step: Step, t: Tid)
    requires ThreadsOk(s, step, t)
    ensures ThreadOk(Apply(s, step), t)
    ensures Apply(s, step).workers.Keys == s.workers.Keys
  {
    match step
    case Queue(q) =>
      match q {
        case ResetOverrun => PcOther(s, step, t);
        case ResetDiscard => PcOther(s, step, t);
        case NotifyPush(_, _) => PcNotify(s, step, t);
        case NotifyPop(_, _) => PcNotify(s, step, t);
        case StartDequeue(_, _) => PcConsumer(s, step, t);
        case CTry(_) => PcConsumer(s, step, t);
        case Timeout(_) => PcConsumer(s, step, t);
        case WakeConsumer(_) => PcConsumer(s, step, t);
        case WakeProducer(_) => PcConsumer(s, step, t);
        case _ => PcProducer(s, step, t);
      }
    case _ => PcOther(s, step, t);
  }

  lemma StructureStep(s: Pool, step: Step)
    requires Q.Sized(s.mq) && Structure(s) && Enabled(s, step)
    ensures Structure(Apply(s, step))
  {
    var s' := Apply(s, step);
    PcStep(s, step, s.dtor);
    forall t | t in s.mq.pc ensures ThreadOk(s', t) { PcStep(s, step, t); }
    SameThreads(s, step);
  }

  lemma SameThreads(s: Pool, step: Step)
    requires Q.Sized(s.mq) && Structure(s) && Enabled(s, step)
    ensures Apply(s, step).mq.pc.Keys == s.mq.pc.Keys
    ensures Apply(s, step).threads == s.threads && Apply(s, step).dtor == s.dtor
  {
  }

  /** Where the destructor stands. */
  ghost predicate DtorInv(s: Pool)
    requires s.dtor in s.mq.pc
  {
    var d := s.mq.pc[s.dtor];
    && s.posted <= |s.threads| && s.joined <= |s.threads|
    && (OffersTerminate(d) ==> s.posted < |s.threads|)
    && (!s.closing ==> s.posted == 0 && s.joined == 0 && d.Idle?)
    && (s.joined > 0 ==> s.posted == |s.threads| && d.Idle?)
  }

  ghost predicate PostersIdle(s: Pool) {
    s.closing ==> forall t :: t in s.mq.pc && IsPoster(s, t) ==> s.mq.pc[t].Idle?
  }

  ghost predicate JoinedExited(s: Pool) {
    forall i :: 0 <= i < s.joined && i < |s.threads| ==> s.threads[i] in s.workers && s.workers[s.threads[i]].Exited?
  }

  ghost predicate Shape(s: Pool) { Q.Sized(s.mq) && Structure(s) && DtorInv(s) && PostersIdle(s) && JoinedExited(s) }

  ghost predicate DtorSteps(s: Pool, step: Step) {
    && Q.Sized(s.mq) && ThreadOk(s, s.dtor) && s.dtor !in s.workers && DtorInv(s)
    && Enabled(s, step) && step.Queue? && Actor(step) == Some(s.dtor)
  }

  lemma DtorProduces(s: Pool, step: Step)
    requires DtorSteps(s, step)
    requires var q := step.step; q.StartEnqueue? || q.PTry? || q.Nowait? || q.IfHaveRoom? || q.Discard?
    ensures s.dtor in Apply(s, step).mq.pc && DtorInv(Apply(s, step))
  {
  }

  lemma DtorConsumes(s: Pool, step: Step)
    requires DtorSteps(s, step)
    requires var q := step.step; q.StartDequeue? || q.CTry? || q.Timeout? || q.WakeConsumer? || q.WakeProducer?
    ensures s.dtor in Apply(s, step).mq.pc && DtorInv(Apply(s, step))
  {
  }

  lemma DtorNotifies(s: Pool, step: Step)
    requires DtorSteps(s, step)
    requires var q := step.step; q.NotifyPush? || q.NotifyPop?
    ensures s.dtor in Apply(s, step).mq.pc && DtorInv(Apply(s, step))
  {
  }

  lemma DtorMoves(s: Pool, step: Step)
    requires DtorSteps(s, step)
    ensures s.dtor in Apply(s, step).mq.pc && DtorInv(Apply(s, step))
  {
    match step.step
    case NotifyPush(_, _) => DtorNotifies(s, step);
    case NotifyPop(_, _) => DtorNotifies(s, step);
    case StartEnqueue(_, _) => DtorProduces(s, step);
    case PTry(_) => DtorProduces(s, step);
    case Nowait(_, _) => DtorProduces(s, step);
    case IfHaveRoom(_, _) => DtorProduces(s, step);
    case Discard(_) => DtorProduces(s, step);
    case _ => DtorConsumes(s, step);
  }

  lemma DtorWoken(s: Pool, step: Step)
    requires ThreadsOk(s, step, s.dtor) && DtorInv(s) && step.Queue? && Actor(step) != Some(s.dtor)
    ensures s.dtor in Apply(s, step).mq.pc && DtorInv(Apply(s, step))
  {
    PcStep(s, step, s.dtor);
  }

  /** The thread that a notification wakes. */
  function Woken(step: Step): Option<Tid> {
    match step
    case Queue(NotifyPush(_, u)) => u
    case Queue(NotifyPop(_, u)) => u
    case _ => None
  }

  ghost predicate Bystander(s: Pool, step: Step, t: Tid) {
    && Q.Sized(s.mq) && Enabled(s, step) && t in s.mq.pc
    && Actor(step) != Some(t) && Woken(step) != Some(t)
  }

  ghost predicate StandsStill(s: Pool, s': Pool, t: Tid)
    requires t in s.mq.pc
  {
    && t in s'.mq.pc && s'.mq.pc[t] == s.mq.pc[t]
    && (t in s.workers ==> t in s'.workers && s'.workers[t] == s.workers[t])
  }

  lemma NotifyBystander(s: Pool, step: Step, t: Tid)
    requires Bystander(s, step, t) && step.Queue? && (step.step.NotifyPush? || step.step.NotifyPop?)
    ensures StandsStill(s, Apply(s, step), t)
  {
  }

  lemma OtherBystander(s: Pool, step: Step, t: Tid)
    requires Bystander(s, step, t) && step.Queue? && !step.step.NotifyPush? && !step.step.NotifyPop?
    ensures StandsStill(s, Apply(s, step), t)
  {
  }

  /** A step moves nobody but the thread that takes it and the one it wakes. */
  lemma BystanderStays(s: Pool, step: Step, t: Tid)
    requires Bystander(s, step, t)
    ensures StandsStill(s, Apply(s, step), t)
  {
    match step
    case Queue(NotifyPush(_, _)) => NotifyBystander(s, step, t);
    case Queue(NotifyPop(_, _)) => NotifyBystander(s, step, t);
    case Queue(_) => OtherBystander(s, step, t);
    case _ =>
  }

  lemma PosterStays(s: Pool, step: Step, t: Tid)
    requires Shape(s) && Enabled(s, step) && s.closing && step.Queue?
    requires t in s.mq.pc && IsPoster(s, t)
    ensures t in Apply(s, step).mq.pc && Apply(s, step).mq.pc[t].Idle?
  {
    BystanderStays(s, step, t);
  }

  lemma ExitedStays(s: Pool, step: Step, w: Tid)
    requires Q.Sized(s.mq) && Structure(s) && Enabled(s, step) && w in s.workers && s.workers[w].Exited?
    ensures w in Apply(s, step).workers && Apply(s, step).workers[w].Exited?
  {
    assert ThreadOk(s, w);
  }

  lemma ShapeStep(s: Pool, step: Step)
    requires Shape(s) && Enabled(s, step)
    ensures Shape(Apply(s, step))
  {
    var s' := Apply(s, step);
    StructureStep(s, step);
    PcStep(s, step, s.dtor);
    if step.Queue? {
      if Actor(step) == Some(s.dtor) { DtorMoves(s, step); } else { DtorWoken(s, step); }
      SameThreads(s, step);
      if s.closing {
        forall t | t in s'.mq.pc && IsPoster(s', t) ensures s'.mq.pc[t].Idle? { PosterStays(s, step, t); }
      }
    }
    forall i | 0 <= i < s'.joined && i < |s.threads|
      ensures s.threads[i] in s'.workers && s'.workers[s.threads[i]].Exited?
    {
      ExitedStays(s, step, s.threads[i]);
    }
  }

  // ---------------------------------------------------------------- what workers carry

  /** The message that worker `w` takes from the queue in this step. */
  ghost function Takes(s: Pool, step: Step, w: Tid): Option<Msg> {
    if step == Queue(Q.CTry(w)) && s.mq.q != [] then Some(s.mq.q[0]) else None
  }

  lemma CarryingStep(s: Pool, step: Step, w: Tid)
    requires Q.Sized(s.mq) && Structure(s) && Enabled(s, step) && w in s.workers
    ensures var s' := Apply(s, step);
            && Carrying(s', w) == (if Takes(s, step, w).Some? then Takes(s, step, w)
                                   else if step == Handle(w) then None
                                   else Carrying(s, w))
            && (Takes(s, step, w).Some? ==> Carrying(s, w) == None && s.workers[w].Running?)
            && (Leaving(s', w) <==> Leaving(s, w) || Takes(s, step, w) == Some(Terminate))
  {
    assert ThreadOk(s, w);
    if Actor(step) == Some(w) {
      ActorCarries(s, step, w);
    } else {
      OtherCarries(s, step, w);
    }
  }

  lemma ActorCarries(s: Pool, step: Step, w: Tid)
    requires Q.Sized(s.mq) && Enabled(s, step) && w in s.workers && s.dtor !in s.workers && ThreadOk(s, w)
    requires Actor(step) == Some(w)
    ensures var s' := Apply(s, step);
            && Carrying(s', w) == (if Takes(s, step, w).Some? then Takes(s, step, w)
                                   else if step == Handle(w) then None
                                   else Carrying(s, w))
            && (Takes(s, step, w).Some? ==> Carrying(s, w) == None && s.workers[w].Running?)
            && (Leaving(s', w) <==> Leaving(s, w) || Takes(s, step, w) == Some(Terminate))
  {
  }

  lemma OtherCarries(s: Pool, step: Step, w: Tid)
    requires Q.Sized(s.mq) && Enabled(s, step) && w in s.workers && s.dtor !in s.workers && ThreadOk(s, w)
    requires Actor(step) != Some(w)
    ensures var s' := Apply(s, step);
            Carrying(s', w) == Carrying(s, w) && (Leaving(s', w) <==> Leaving(s, w)) && Takes(s, step, w).None?
  {
    if Woken(step) != Some(w) {
      BystanderStays(s, step, w);
    } else {
      WokenCarries(s, step, w);
    }
  }

  lemma WokenCarries(s: Pool, step: Step, w: Tid)
    requires Q.Sized(s.mq) && Enabled(s, step) && w in s.workers && ThreadOk(s, w) && Woken(step) == Some(w)
    requires Actor(step) != Some(w)
    ensures var s' := Apply(s, step);
            Carrying(s', w) == Carrying(s, w) && (Leaving(s', w) <==> Leaving(s, w))
  {
  }

  // ---------------------------------------------------------------- conservation of terminate messages

  /** Each terminate message posted is still queued or has made one worker leave. */
  ghost predicate Conserved(s: Pool) {
    Sum(LeavingBit(s), s.threads) + Terminates(s.mq.q) == s.posted
  }

  /** What a step puts into the queue. */
  ghost function Pushes(s: Pool, step: Step): Option<Msg>
    requires Enabled(s, step)
  {
    match step
    case Queue(q) => (
      match q
      case PTry(t) => if Q.Full(s.mq) then None else Some(s.mq.pc[t].item)
      case Nowait(_, x) => Some(x)
      case IfHaveRoom(_, x) => if Q.Full(s.mq) then None else Some(x)
      case _ => None)
    case _ => None
  }

  ghost predicate Pops(s: Pool, step: Step) { step.Queue? && step.step.CTry? && s.mq.q != [] }

  lemma PopperIsWorker(s: Pool, step: Step)
    requires Shape(s) && Enabled(s, step) && Pops(s, step)
    ensures step.step.t in s.threads && Takes(s, step, step.step.t) == Some(s.mq.q[0])
  {
    assert ThreadOk(s, step.step.t);
  }

  lemma PusherPushes(s: Pool, step: Step)
    requires Shape(s) && Enabled(s, step) && Pushes(s, step).Some?
    ensures Actor(step) == Some(s.dtor) ==> step.step.PTry? && Pushes(s, step).value == Terminate && s.closing
    ensures Actor(step) != Some(s.dtor) ==> Pushes(s, step).value != Terminate && !s.closing
    ensures Apply(s, step).posted == s.posted + if Actor(step) == Some(s.dtor) then 1 else 0
    ensures |s.mq.q| == s.mq.cap ==> !s.closing
  {
    assert ThreadOk(s, step.step.t);
  }

  lemma QueueAfter(s: Pool, step: Step)
    requires Q.Sized(s.mq) && Enabled(s, step)
    ensures var q, q' := s.mq.q, Apply(s, step).mq.q;
            if Pops(s, step) then q' == q[1..]
            else if Pushes(s, step).Some? then
              q' == if |q| < s.mq.cap then q + [Pushes(s, step).value] else (q + [Pushes(s, step).value])[1..]
            else q' == q
    ensures Pushes(s, step).None? ==> Apply(s, step).posted == s.posted
  {
  }

  lemma LeavingUnchanged(s: Pool, step: Step)
    requires Shape(s) && Enabled(s, step) && !Pops(s, step)
    ensures Sum(LeavingBit(Apply(s, step)), s.threads) == Sum(LeavingBit(s), s.threads)
  {
    forall w | w in s.threads ensures LeavingBit(Apply(s, step))(w) == LeavingBit(s)(w) { CarryingStep(s, step, w); }
    SumSame(LeavingBit(Apply(s, step)), LeavingBit(s), s.threads);
  }

  lemma ConservedPush(s: Pool, step: Step)
    requires Shape(s) && Conserved(s) && Enabled(s, step) && Pushes(s, step).Some?
    ensures Conserved(Apply(s, step))
  {
    LeavingUnchanged(s, step);
    QueueAfter(s, step);
    PusherPushes(s, step);
    var q, x := s.mq.q, Pushes(s, step).value;
    TerminatesConcat(q, [x]);
    assert Terminates([x]) == if x == Terminate then 1 else 0 by { assert [x][1..] == []; }
  }

  lemma ConservedPop(s: Pool, step: Step)
    requires Shape(s) && Conserved(s) && Enabled(s, step) && Pops(s, step)
    ensures Conserved(Apply(s, step))
  {
    var w, s' := step.step.t, Apply(s, step);
    PopperIsWorker(s, step);
    QueueAfter(s, step);
    forall u | u in s.threads && u != w ensures LeavingBit(s')(u) == LeavingBit(s)(u) { CarryingStep(s, step, u); }
    CarryingStep(s, step, w);
    SumChange(LeavingBit(s), LeavingBit(s'), s.threads, w);
  }

  lemma ConservedStep(s: Pool, step: Step)
    requires Shape(s) && Conserved(s) && Enabled(s, step)
    ensures Conserved(Apply(s, step))
  {
    if Pops(s, step) { ConservedPop(s, step); }
    else if Pushes(s, step).Some? { ConservedPush(s, step); }
    else {
      LeavingUnchanged(s, step);
      QueueAfter(s, step);
    }
  }

  // ---------------------------------------------------------------- every message once

  /** What was handled plus what workers carry is what was dequeued, message by message. */
  ghost predicate HandledOnce(s: Pool) {
    forall m :: multiset(s.handled)[m] + Sum(CarryBit(s, m), s.threads) == multiset(Q.Delivered(s.mq.removed))[m]
  }

  lemma RemovedAfter(s: Pool, step: Step)
    requires Q.Sized(s.mq) && Enabled(s, step)
    ensures var r, r' := s.mq.removed, Apply(s, step).mq.removed;
            if Pops(s, step) then r' == r + [Q.Removal(s.mq.q[0], true)]
            else if Pushes(s, step).Some? && |s.mq.q| == s.mq.cap then
              r' == r + [Q.Removal((s.mq.q + [Pushes(s, step).value])[0], false)]
            else r' == r
  {
  }

  lemma HandledPop(s: Pool, step: Step, m: Msg)
    requires Shape(s) && HandledOnce(s) && Enabled(s, step) && Pops(s, step)
    ensures var s' := Apply(s, step);
            multiset(s'.handled)[m] + Sum(CarryBit(s', m), s.threads) == multiset(Q.Delivered(s'.mq.removed))[m]
  {
    var w, s' := step.step.t, Apply(s, step);
    PopperIsWorker(s, step);
    RemovedAfter(s, step);
    Q.ItemsAppend(s.mq.removed, Q.Removal(s.mq.q[0], true));
    forall u | u in s.threads && u != w ensures CarryBit(s', m)(u) == CarryBit(s, m)(u) { CarryingStep(s, step, u); }
    CarryingStep(s, step, w);
    SumChange(CarryBit(s, m), CarryBit(s', m), s.threads, w);
  }

  lemma HandledHandle(s: Pool, w: Tid, m: Msg)
    requires Shape(s) && HandledOnce(s) && Enabled(s, Handle(w))
    ensures var s' := Apply(s, Handle(w));
            multiset(s'.handled)[m] + Sum(CarryBit(s', m), s.threads) == multiset(Q.Delivered(s'.mq.removed))[m]
  {
    var step := Handle(w);
    var s' := Apply(s, step);
    forall u | u in s.threads && u != w ensures CarryBit(s', m)(u) == CarryBit(s, m)(u) { CarryingStep(s, step, u); }
    CarryingStep(s, step, w);
    assert ThreadOk(s, w);
    SumChange(CarryBit(s, m), CarryBit(s', m), s.threads, w);
  }

  lemma DeliveredElse(s: Pool, step: Step)
    requires Q.Sized(s.mq) && Enabled(s, step) && !Pops(s, step) && !step.Handle?
    ensures var s' := Apply(s, step);
            s'.handled == s.handled && Q.Delivered(s'.mq.removed) == Q.Delivered(s.mq.removed)
  {
    RemovedAfter(s, step);
    if Pushes(s, step).Some? && |s.mq.q| == s.mq.cap {
      Q.ItemsAppend(s.mq.removed, Q.Removal((s.mq.q + [Pushes(s, step).value])[0], false));
    }
  }

  lemma CarriedElse(s: Pool, step: Step, m: Msg)
    requires Shape(s) && Enabled(s, step) && !Pops(s, step) && !step.Handle?
    ensures Sum(CarryBit(Apply(s, step), m), s.threads) == Sum(CarryBit(s, m), s.threads)
  {
    var s' := Apply(s, step);
    forall u | u in s.threads ensures CarryBit(s', m)(u) == CarryBit(s, m)(u) { CarryingStep(s, step, u); }
    SumSame(CarryBit(s, m), CarryBit(s', m), s.threads);
  }

  lemma HandledElse(s: Pool, step: Step, m: Msg)
    requires Shape(s) && HandledOnce(s) && Enabled(s, step) && !Pops(s, step) && !step.Handle?
    ensures var s' := Apply(s, step);
            multiset(s'.handled)[m] + Sum(CarryBit(s', m), s.threads) == multiset(Q.Delivered(s'.mq.removed))[m]
  {
    DeliveredElse(s, step);
    CarriedElse(s, step, m);
  }

  lemma HandledStep(s: Pool, step: Step)
    requires Shape(s) && HandledOnce(s) && Enabled(s, step)
    ensures HandledOnce(Apply(s, step))
  {
    var s' := Apply(s, step);
    SameThreads(s, step);
    forall m
      ensures multiset(s'.handled)[m] + Sum(CarryBit(s', m), s'.threads) == multiset(Q.Delivered(s'.mq.removed))[m]
    {
      if Pops(s, step) { HandledPop(s, step, m); }
      else if step.Handle? { HandledHandle(s, step.w, m); }
      else { HandledElse(s, step, m); }
    }
  }

  // ---------------------------------------------------------------- what happens after the destructor has started

  /** Since then only the queued messages and, after them, the terminate messages went through the queue. */
  ghost predicate CloseInv(s: Pool) {
    s.closing ==>
      && s.removedAtClose <= |s.mq.removed|
      && Q.Items(s.mq.removed[s.removedAtClose..]) + s.mq.q == s.queuedAtClose + Repeat(Terminate, s.posted)
      && Q.Overruns(s.mq.removed[s.removedAtClose..]) == 0
      && Terminates(s.queuedAtClose) == 0
  }

  lemma CloseBegin(s: Pool)
    requires Shape(s) && Conserved(s) && Enabled(s, BeginShutdown)
    ensures CloseInv(Apply(s, BeginShutdown))
  {
    var s' := Apply(s, BeginShutdown);
    assert s'.mq.removed[|s'.mq.removed|..] == [];
    assert [] + s.mq.q == s.mq.q + Repeat(Terminate, 0);
  }

  /** One more removal from the front. */
  lemma RemovedFront(removed: seq<Q.Removal<Msg>>, k: nat, q: seq<Msg>)
    requires k <= |removed| && q != []
    ensures var removed' := removed + [Q.Removal(q[0], true)];
            && Q.Items(removed'[k..]) + q[1..] == Q.Items(removed[k..]) + q
            && Q.Overruns(removed'[k..]) == Q.Overruns(removed[k..])
  {
    var r := Q.Removal(q[0], true);
    assert (removed + [r])[k..] == removed[k..] + [r];
    Q.ItemsAppend(removed[k..], r);
    assert q == [q[0]] + q[1..];
  }

  lemma ClosePop(s: Pool, step: Step)
    requires Q.Sized(s.mq) && CloseInv(s) && Enabled(s, step) && s.closing && Pops(s, step)
    ensures CloseInv(Apply(s, step))
  {
    QueueAfter(s, step);
    RemovedAfter(s, step);
    RemovedFront(s.mq.removed, s.removedAtClose, s.mq.q);
  }

  lemma ClosePush(s: Pool, step: Step)
    requires Shape(s) && CloseInv(s) && Enabled(s, step) && s.closing && Pushes(s, step).Some?
    ensures CloseInv(Apply(s, step))
  {
    QueueAfter(s, step);
    RemovedAfter(s, step);
    PusherPushes(s, step);
    var s' := Apply(s, step);
    var gone := Q.Items(s.mq.removed[s.removedAtClose..]);
    assert s'.mq.q == s.mq.q + [Terminate] && s'.posted == s.posted + 1;
    assert Repeat(Terminate, s.posted + 1) == Repeat(Terminate, s.posted) + [Terminate];
    assert gone + s'.mq.q == (gone + s.mq.q) + [Terminate];
  }

  lemma CloseStep(s: Pool, step: Step)
    requires Shape(s) && Conserved(s) && CloseInv(s) && Enabled(s, step)
    ensures CloseInv(Apply(s, step))
  {
    if step.BeginShutdown? { CloseBegin(s); }
    else if s.closing {
      if Pops(s, step) { ClosePop(s, step); }
      else if Pushes(s, step).Some? { ClosePush(s, step); }
      else {
        QueueAfter(s, step);
        RemovedAfter(s, step);
      }
    }
  }

  // ---------------------------------------------------------------- the invariant and whole runs

  ghost predicate Inv(s: Pool) { Q.Inv(s.mq) && Shape(s) && Conserved(s) && HandledOnce(s) && CloseInv(s) }

  ghost predicate Init(s: Pool) {
    && Q.Init(s.mq)
    && 1 <= |s.threads| <= MAX_THREADS && Distinct(s.threads)
    && (forall t :: t in s.threads <==> t in s.workers)
    && s.dtor !in s.workers && s.dtor in s.mq.pc
    && (forall w :: w in s.workers ==> w in s.mq.pc && s.workers[w].Running?)
    && !s.closing && s.posted == 0 && s.joined == 0 && s.handled == []
  }

  lemma InitInv(s: Pool)
    requires Init(s)
    ensures Inv(s)
  {
    Q.InitInv(s.mq);
    SumZero(LeavingBit(s), s.threads);
    forall m ensures multiset(s.handled)[m] + Sum(CarryBit(s, m), s.threads) == multiset(Q.Delivered(s.mq.removed))[m] {
      SumZero(CarryBit(s, m), s.threads);
    }
  }

  lemma InvStep(s: Pool, step: Step)
    requires Inv(s) && Enabled(s, step)
    ensures Inv(Apply(s, step))
  {
    if step.Queue? { Q.InvStep(s.mq, step.step); }
    ShapeStep(s, step);
    ConservedStep(s, step);
    HandledStep(s, step);
    CloseStep(s, step);
  }

  ghost predicate LegalRun(s: Pool, steps: seq<Step>)
    requires Inv(s)
    decreases |steps|
  {
    steps != [] ==> Enabled(s, steps[0]) && (InvStep(s, steps[0]); LegalRun(Apply(s, steps[0]), steps[1..]))
  }

  ghost function Final(s: Pool, steps: seq<Step>): (s': Pool)
    requires Inv(s) && LegalRun(s, steps)
    ensures Inv(s')
    decreases |steps|
  {
    if steps == [] then s else InvStep(s, steps[0]); Final(Apply(s, steps[0]), steps[1..])
  }

  // ---------------------------------------------------------------- the destructor is never stuck

  predicate Spurious(step: Step) {
    step.Queue? && (step.step.WakeConsumer? || step.step.WakeProducer? || step.step.Timeout?)
  }

  /** Some step other than a spurious wake-up can be taken. */
  ghost predicate CanStep(s: Pool) { exists step :: Enabled(s, step) && !Spurious(step) }

  lemma WitnessStep(s: Pool, step: Step)
    requires Enabled(s, step) && !Spurious(step)
    ensures CanStep(s)
  {
  }

  lemma BusyWorkerSteps(s: Pool, w: Tid)
    requires Inv(s) && w in s.workers
    requires !s.workers[w].Exited? && !s.mq.pc[w].CAsleep?
    ensures CanStep(s)
  {
    assert ThreadOk(s, w);
    if s.workers[w].Handling? { WitnessStep(s, Handle(w)); }
    else {
      match s.mq.pc[w]
      case Idle => WitnessStep(s, Queue(Q.StartDequeue(w, false)));
      case CNotify(_) =>
        var u := Choice(s, Q.ProducerAsleep);
        WitnessStep(s, Queue(Q.NotifyPop(w, u)));
      case _ => WitnessStep(s, Queue(Q.CTry(w)));
    }
  }

  lemma Choice(s: Pool, k: Q.Kind) returns (u: Option<Tid>)
    ensures Q.NotifyChoice(Q.Threads(s.mq, k), u)
  {
    if Q.Threads(s.mq, k) == {} { u := None; }
    else {
      var t :| t in Q.Threads(s.mq, k);
      u := Some(t);
    }
  }

  lemma BusyDtorSteps(s: Pool)
    requires Inv(s) && s.closing && !s.mq.pc[s.dtor].PAsleep?
    requires s.mq.pc[s.dtor].Idle? ==> s.posted < |s.threads|
    ensures CanStep(s)
  {
    var d := s.dtor;
    match s.mq.pc[d]
    case Idle => WitnessStep(s, Queue(Q.StartEnqueue(d, Terminate)));
    case PNotify =>
      var u := Choice(s, Q.ConsumerAsleep);
      WitnessStep(s, Queue(Q.NotifyPush(d, u)));
    case _ => WitnessStep(s, Queue(Q.PTry(d)));
  }

  /** All workers that remain are asleep, and the destructor sleeps or has posted everything. */
  ghost predicate Quiet(s: Pool) {
    && s.closing
    && (forall w :: w in s.workers ==> s.workers[w].Exited? || (w in s.mq.pc && s.mq.pc[w].CAsleep?))
    && s.dtor in s.mq.pc
    && (s.mq.pc[s.dtor].PAsleep? || (s.mq.pc[s.dtor].Idle? && s.posted == |s.threads|))
  }

  lemma NoneElsewhere(s: Pool, k: Q.Kind)
    requires Inv(s) && Quiet(s) && (k.OwesPush? || k.OwesPop? || k.ConsumerWoken? || k.ProducerWoken?)
    ensures Q.Count(s.mq, k) == 0
  {
    forall t | t in s.mq.pc ensures Q.KindOf(s.mq.pc[t]) != k { assert ThreadOk(s, t); }
    assert Q.Threads(s.mq, k) == {};
  }

  /** A quiet pool has no worker left: nobody sleeps through a message. */
  lemma QuietMeansExited(s: Pool)
    requires Inv(s) && Quiet(s)
    ensures forall w :: w in s.workers ==> s.workers[w].Exited?
    ensures s.mq.pc[s.dtor].Idle?
  {
    NoneElsewhere(s, Q.OwesPush);
    NoneElsewhere(s, Q.OwesPop);
    NoneElsewhere(s, Q.ConsumerWoken);
    NoneElsewhere(s, Q.ProducerWoken);
    SumFull(LeavingBit(s), s.threads);
    assert s.mq.pc[s.dtor].PAsleep? ==> s.dtor in Q.Threads(s.mq, Q.ProducerAsleep);
    assert Q.Count(s.mq, Q.ConsumerAsleep) > 0 ==> s.mq.q == [];
    assert s.mq.q == [] ==> forall w :: w in s.threads ==> LeavingBit(s)(w) == 1;
    forall w | w in s.workers ensures s.workers[w].Exited? {
      assert ThreadOk(s, w);
      assert s.mq.pc[w].CAsleep? ==> w in Q.Threads(s.mq, Q.ConsumerAsleep);
      assert w in s.threads && (LeavingBit(s)(w) == 1 ==> Leaving(s, w));
    }
    assert forall w :: w in s.threads ==> LeavingBit(s)(w) == 1;
  }

  /** From the moment the destructor starts, no reachable state is stuck before it has returned. */
  lemma NeverStuck(s: Pool)
    requires Inv(s) && s.closing && !Done(s)
    ensures CanStep(s)
  {
    if w :| w in s.workers && !s.workers[w].Exited? && !s.mq.pc[w].CAsleep? {
      BusyWorkerSteps(s, w);
    } else if !Quiet(s) {
      BusyDtorSteps(s);
    } else {
      QuietMeansExited(s);
      assert s.threads[s.joined] in s.workers;
      WitnessStep(s, Join);
    }
  }

  /** Throughout a run the workers still to be stopped are those the destructor has not posted a terminate message for
      plus those whose message is still queued, and a destructor that has not returned can always go on. */
  lemma LiveWorkers(s0: Pool, steps: seq<Step>)
    requires Inv(s0) && LegalRun(s0, steps)
    ensures var s := Final(s0, steps);
            && Live(s) == |s.threads| - s.posted + Terminates(s.mq.q)
            && (s.closing && !Done(s) ==> CanStep(s))
  {
    var s := Final(s0, steps);
    if s.closing && !Done(s) { NeverStuck(s); }
  }

  // ---------------------------------------------------------------- a bound on the run

  function PcWeight(p: Q.Pc<Msg>): nat {
    match p
    case Idle => 2
    case CWant(_) => 1
    case CWoken(_, _) => 1
    case CNotify(_) => 5
    case PWant(_) => 1
    case PWoken(_) => 1
    case PNotify => 4
    case _ => 0
  }

  ghost function WorkerWeight(s: Pool): Tid -> nat {
    w => if w !in s.workers || w !in s.mq.pc || s.workers[w].Exited? then 0
         else if s.workers[w].Handling? then 3
         else PcWeight(s.mq.pc[w])
  }

  /** The part of the measure that is not a sum over workers. */
  ghost function Rest(s: Pool): int
    requires s.dtor in s.mq.pc
  {
    PcWeight(s.mq.pc[s.dtor]) + 5 * |s.mq.q| + 9 * (|s.threads| - s.posted) + (|s.threads| - s.joined)
  }

  /** An upper bound on the number of steps that are left, spurious wake-ups apart. */
  ghost function Measure(s: Pool): nat
    requires Shape(s)
  {
    Sum(WorkerWeight(s), s.threads) + Rest(s)
  }

  /** The only worker, if any, whose position a step changes: the one that steps or the one it wakes. */
  ghost function Touched(s: Pool, step: Step): Tid
    requires Enabled(s, step)
  {
    match step
    case Queue(q) => (
      match q
      case NotifyPush(_, Some(u)) => u
      case ResetOverrun => s.dtor
      case ResetDiscard => s.dtor
      case _ => q.t)
    case Handle(w) => w
    case _ => s.dtor
  }

  lemma UntouchedStays(s: Pool, step: Step, w: Tid)
    requires Q.Sized(s.mq) && Enabled(s, step) && w in s.workers && ThreadOk(s, w) && w != Touched(s, step)
    ensures var s' := Apply(s, step);
            w in s'.workers && s'.workers[w] == s.workers[w] && w in s'.mq.pc && s'.mq.pc[w] == s.mq.pc[w]
  {
    BystanderStays(s, step, w);
  }

  /** The change of the whole sum is the change of the touched worker. */
  lemma WeightChange(s: Pool, step: Step)
    requires Shape(s) && Enabled(s, step) && s.closing
    ensures var s', t := Apply(s, step), Touched(s, step);
            Sum(WorkerWeight(s'), s.threads) ==
              Sum(WorkerWeight(s), s.threads)
              + if t in s.workers then WorkerWeight(s')(t) - WorkerWeight(s)(t) else 0
  {
    var s', t := Apply(s, step), Touched(s, step);
    forall w | w in s.threads && w != t ensures WorkerWeight(s')(w) == WorkerWeight(s)(w) {
      assert ThreadOk(s, w);
      UntouchedStays(s, step, w);
    }
    if t in s.workers { SumChange(WorkerWeight(s), WorkerWeight(s'), s.threads, t); }
    else { SumSame(WorkerWeight(s'), WorkerWeight(s), s.threads); }
  }

  /** What a step may do to the measure, seen from the worker it touches. */
  ghost predicate Pays(s: Pool, step: Step, w: Tid)
    requires Q.Sized(s.mq) && Enabled(s, step) && s.dtor in s.mq.pc
  {
    var s' := Apply(s, step);
    s'.dtor == s.dtor && s'.threads == s.threads &&
    WorkerWeight(s')(w) + Rest(s') + 1 <= WorkerWeight(s)(w) + Rest(s) + if Spurious(step) then 2 else 0
  }

  lemma WorkerPays(s: Pool, step: Step, w: Tid)
    requires Q.Sized(s.mq) && Enabled(s, step) && s.dtor !in s.workers && s.dtor in s.mq.pc
    requires w in s.workers && ThreadOk(s, w) && Actor(step) == Some(w) && step.Queue? && !step.step.NotifyPop?
    ensures Pays(s, step, w)
  {
  }

  lemma WorkerHandles(s: Pool, step: Step, w: Tid)
    requires Q.Sized(s.mq) && Enabled(s, step) && s.dtor !in s.workers && s.dtor in s.mq.pc
    requires w in s.workers && ThreadOk(s, w) && Actor(step) == Some(w) && (step.Handle? || step.step.NotifyPop?)
    ensures Pays(s, step, w)
  {
  }

  lemma DtorPays(s: Pool, step: Step)
    requires Q.Sized(s.mq) && Enabled(s, step) && s.dtor !in s.workers && ThreadOk(s, s.dtor)
    requires step.Queue? && !step.step.PTry? && !step.step.NotifyPush? && Actor(step) == Some(s.dtor)
    ensures Pays(s, step, s.dtor)
  {
  }

  lemma DtorTryPays(s: Pool)
    requires Q.Sized(s.mq) && Enabled(s, Queue(Q.PTry(s.dtor))) && s.dtor !in s.workers
    ensures Pays(s, Queue(Q.PTry(s.dtor)), s.dtor)
  {
  }

  lemma DtorNotifyPays(s: Pool, u: Option<Tid>)
    requires Q.Sized(s.mq) && Enabled(s, Queue(Q.NotifyPush(s.dtor, u))) && s.dtor !in s.workers
    requires u.Some? && u.value in s.workers ==> ThreadOk(s, u.value)
    ensures Pays(s, Queue(Q.NotifyPush(s.dtor, u)), if u.Some? then u.value else s.dtor)
  {
  }

  lemma PostersRest(s: Pool, step: Step)
    requires Shape(s) && Enabled(s, step) && s.closing && Actor(step).Some?
    ensures Actor(step).value in s.workers || Actor(step).value == s.dtor
  {
    if step.Queue? { assert ThreadOk(s, step.step.t); }
  }

  lemma SomeonePays(s: Pool, step: Step)
    requires Shape(s) && Enabled(s, step) && s.closing
    ensures Pays(s, step, Touched(s, step))
  {
    assert ThreadOk(s, s.dtor);
    if Actor(step).Some? {
      PostersRest(s, step);
      var a := Actor(step).value;
      assert ThreadOk(s, a);
      if a in s.workers {
        if step.Handle? || step.step.NotifyPop? { WorkerHandles(s, step, a); } else { WorkerPays(s, step, a); }
      }
      else if step.step.PTry? { DtorTryPays(s); }
      else if step.step.NotifyPush? {
        if step.step.w.Some? { assert ThreadOk(s, step.step.w.value); }
        DtorNotifyPays(s, step.step.w);
      } else { DtorPays(s, step); }
    }
  }

  lemma StaysClosing(s: Pool, step: Step)
    requires Q.Sized(s.mq) && Enabled(s, step) && s.closing
    ensures Apply(s, step).closing
  {
  }

  /** Every step of the shutdown uses up the measure; a spurious wake-up gives back at most one. */
  lemma MeasureStep(s: Pool, step: Step)
    requires Inv(s) && Enabled(s, step) && s.closing && Shape(Apply(s, step))
    ensures Measure(Apply(s, step)) + 1 <= Measure(s) + if Spurious(step) then 2 else 0
  {
    SomeonePays(s, step);
    WeightChange(s, step);
  }

  function SpuriousCount(steps: seq<Step>): nat {
    if steps == [] then 0 else (if Spurious(steps[0]) then 1 else 0) + SpuriousCount(steps[1..])
  }

  /** A shutdown takes at most `Measure` steps, plus two for every spurious wake-up. */
  lemma {:induction false} ShutdownBounded(s: Pool, steps: seq<Step>)
    requires Inv(s) && s.closing && LegalRun(s, steps)
    ensures Final(s, steps).closing
    ensures |steps| + Measure(Final(s, steps)) <= Measure(s) + 2 * SpuriousCount(steps)
    decreases |steps|
  {
    if steps == [] {
    } else {
      InvStep(s, steps[0]);
      StaysClosing(s, steps[0]);
      MeasureStep(s, steps[0]);
      ShutdownBounded(Apply(s, steps[0]), steps[1..]);
    }
  }

  // ---------------------------------------------------------------- what holds when the destructor has returned

  lemma LastOfSuffix(gone: seq<Msg>, q: seq<Msg>, logs: seq<Msg>, n: nat)
    requires gone + q == logs + Repeat(Terminate, n) && n > 0 && q != []
    ensures Terminates(q) > 0
  {
    var all := logs + Repeat(Terminate, n);
    assert all[|all| - 1] == Terminate;
    assert (gone + q)[|gone + q| - 1] == q[|q| - 1];
    var front := q[..|q| - 1];
    assert q == front + [Terminate];
    TerminatesConcat(front, [Terminate]);
    assert [Terminate][1..] == [];
  }

  lemma AllJoined(s: Pool)
    requires Inv(s) && Done(s)
    ensures forall w :: w in s.workers ==> s.workers[w].Exited?
    ensures s.posted == |s.threads| && Terminates(s.mq.q) == 0
  {
    forall w | w in s.workers ensures s.workers[w].Exited? {
      var i :| 0 <= i < |s.threads| && s.threads[i] == w;
    }
    forall w | w in s.threads ensures LeavingBit(s)(w) == 1 { }
    SumFull(LeavingBit(s), s.threads);
  }

  /** When the destructor returns: every worker has exited, the queue is empty, and each message ever accepted was
      handled exactly once, except those that an overrun had dropped before the destructor started; in particular
      everything that was queued at that moment has been handled, and nothing came after it but the terminates. */
  lemma ShutdownComplete(s0: Pool, steps: seq<Step>)
    requires Inv(s0) && LegalRun(s0, steps) && Done(Final(s0, steps))
    ensures var s := Final(s0, steps);
            && (forall w :: w in s.workers ==> s.workers[w].Exited?)
            && s.mq.q == []
            && multiset(s.handled) == multiset(Q.Delivered(s.mq.removed))
            && s.mq.accepted == Q.Items(s.mq.removed)
            && s.removedAtClose <= |s.mq.removed|
            && Q.Items(s.mq.removed[s.removedAtClose..]) == s.queuedAtClose + Repeat(Terminate, |s.threads|)
            && Q.Overruns(s.mq.removed[s.removedAtClose..]) == 0
            && multiset(s.queuedAtClose) <= multiset(s.handled)
  {
    var s := Final(s0, steps);
    AllJoined(s);
    QueueDrained(s);
    AllHandled(s);
    QueuedHandled(s);
  }

  lemma QueueDrained(s: Pool)
    requires Inv(s) && Done(s) && s.posted == |s.threads| && Terminates(s.mq.q) == 0
    ensures s.mq.q == []
    ensures s.removedAtClose <= |s.mq.removed|
    ensures Q.Items(s.mq.removed[s.removedAtClose..]) == s.queuedAtClose + Repeat(Terminate, |s.threads|)
    ensures s.mq.accepted == Q.Items(s.mq.removed)
  {
    var gone := Q.Items(s.mq.removed[s.removedAtClose..]);
    if s.mq.q != [] {
      LastOfSuffix(gone, s.mq.q, s.queuedAtClose, s.posted);
      assert false;
    }
    assert gone + [] == gone;
    assert Q.Items(s.mq.removed) + [] == Q.Items(s.mq.removed);
  }

  lemma AllHandled(s: Pool)
    requires Inv(s) && forall w :: w in s.workers ==> s.workers[w].Exited?
    ensures multiset(s.handled) == multiset(Q.Delivered(s.mq.removed))
  {
    forall m ensures multiset(s.handled)[m] == multiset(Q.Delivered(s.mq.removed))[m] {
      NothingCarried(s, m);
    }
  }

  lemma QueuedHandled(s: Pool)
    requires Inv(s) && s.closing
    requires multiset(s.handled) == multiset(Q.Delivered(s.mq.removed))
    requires Q.Items(s.mq.removed[s.removedAtClose..]) == s.queuedAtClose + Repeat(Terminate, |s.threads|)
    ensures multiset(s.queuedAtClose) <= multiset(s.handled)
  {
    var before, since := s.mq.removed[..s.removedAtClose], s.mq.removed[s.removedAtClose..];
    DeliveredSplit(s.mq.removed, s.removedAtClose);
    Q.NoOverrunDelivers(since);
    assert multiset(Q.Delivered(before) + Q.Delivered(since))
        == multiset(Q.Delivered(before)) + multiset(Q.Delivered(since));
    assert multiset(s.queuedAtClose + Repeat(Terminate, |s.threads|)) ==
           multiset(s.queuedAtClose) + multiset(Repeat(Terminate, |s.threads|));
  }

  lemma NothingCarried(s: Pool, m: Msg)
    requires Inv(s) && forall w :: w in s.workers ==> s.workers[w].Exited?
    ensures Sum(CarryBit(s, m), s.threads) == 0
  {
    forall w | w in s.threads ensures CarryBit(s, m)(w) == 0 { assert ThreadOk(s, w); }
    SumZero(CarryBit(s, m), s.threads);
  }

  lemma {:induction false} DeliveredSplit(h: seq<Q.Removal<Msg>>, k: nat)
    requires k <= |h|
    ensures Q.Delivered(h) == Q.Delivered(h[..k]) + Q.Delivered(h[k..])
    decreases |h|
  {
    if k == |h| {
      assert h[..k] == h && h[k..] == [];
    } else {
      var h0, r := h[..|h| - 1], h[|h| - 1];
      var a, b := h0[..k], h0[k..];
      DeliveredSplit(h0, k);
      assert h == h0 + [r] && h[..k] == a && h[k..] == b + [r];
      Q.ItemsAppend(h0, r);
      Q.ItemsAppend(b, r);
    }
  }

  // ---------------------------------------------------------------- a pool of one worker

  ghost function Carried(s: Pool, w: Tid): seq<Msg> {
    if Carrying(s, w).Some? then [Carrying(s, w).value] else []
  }

  /** A single worker handles the messages in the order in which they were delivered. */
  ghost predicate InOrder(s: Pool) {
    |s.threads| == 1 ==> s.handled + Carried(s, s.threads[0]) == Q.Delivered(s.mq.removed)
  }

  lemma OrderPop(s: Pool, step: Step)
    requires Shape(s) && InOrder(s) && Enabled(s, step) && Pops(s, step) && |s.threads| == 1
    ensures InOrder(Apply(s, step))
  {
    var w := s.threads[0];
    PopperIsWorker(s, step);
    CarryingStep(s, step, w);
    RemovedAfter(s, step);
    Q.ItemsAppend(s.mq.removed, Q.Removal(s.mq.q[0], true));
    assert s.handled + [] == s.handled;
  }

  lemma OrderHandle(s: Pool, step: Step)
    requires Shape(s) && InOrder(s) && Enabled(s, step) && step.Handle? && |s.threads| == 1
    ensures InOrder(Apply(s, step))
  {
    var w := s.threads[0];
    assert step.w in s.threads;
    assert ThreadOk(s, w);
    CarryingStep(s, step, w);
    assert Apply(s, step).handled + [] == s.handled + Carried(s, w);
  }

  lemma OrderStep(s: Pool, step: Step)
    requires Shape(s) && InOrder(s) && Enabled(s, step)
    ensures InOrder(Apply(s, step))
  {
    SameThreads(s, step);
    if |s.threads| == 1 {
      if Pops(s, step) {
        OrderPop(s, step);
      } else if step.Handle? {
        OrderHandle(s, step);
      } else {
        DeliveredElse(s, step);
        CarryingStep(s, step, s.threads[0]);
      }
    }
  }

  lemma {:induction false} RunInOrder(s: Pool, steps: seq<Step>)
    requires Inv(s) && InOrder(s) && LegalRun(s, steps)
    ensures InOrder(Final(s, steps)) && Final(s, steps).threads == s.threads
    decreases |steps|
  {
    if steps == [] {
    } else {
      InvStep(s, steps[0]);
      OrderStep(s, steps[0]);
      SameThreads(s, steps[0]);
      RunInOrder(Apply(s, steps[0]), steps[1..]);
    }
  }

  /** Throughout the life of a pool of one worker, what it has handled, with the message it is at, is what the queue
      delivered, in order of acceptance; when the destructor has returned everything delivered has been handled. */
  lemma OneWorkerInOrder(s0: Pool, steps: seq<Step>)
    requires Init(s0) && Inv(s0) && LegalRun(s0, steps) && |s0.threads| == 1
    ensures var s := Final(s0, steps);
            && |s.threads| == 1
            && s.handled + Carried(s, s.threads[0]) == Q.Delivered(s.mq.removed)
            && Q.Subsequence(Q.Delivered(s.mq.removed), Q.Items(s.mq.removed))
            && s.mq.accepted == Q.Items(s.mq.removed) + s.mq.q
            && (Done(s) ==> s.handled == Q.Delivered(s.mq.removed))
  {
    assert Carried(s0, s0.threads[0]) == [];
    RunInOrder(s0, steps);
    var s := Final(s0, steps);
    Q.DeliveredInOrder(s.mq.removed);
    if Done(s) {
      AllJoined(s);
      assert s.threads[0] in s.threads;
      assert ThreadOk(s, s.threads[0]);
      assert s.handled + [] == s.handled;
    }
  }

  // ---------------------------------------------------------------- what was posted

  /** The steps inside the queue. */
  function QueueSteps(steps: seq<Step>): seq<Q.Step<Msg>> {
    if steps == [] then []
    else (if steps[0].Queue? then [steps[0].step] else []) + QueueSteps(steps[1..])
  }

  lemma QueueOnly(s: Pool, step: Step)
    requires Q.Sized(s.mq) && Enabled(s, step)
    ensures step.Queue? ==> Q.Enabled(s.mq, step.step) && Apply(s, step).mq == Q.Apply(s.mq, step.step)
    ensures !step.Queue? ==> Apply(s, step).mq == s.mq
  {
  }

  /** A run of the pool is a run of its queue. */
  lemma {:induction false} RunsQueue(s: Pool, steps: seq<Step>)
    requires Inv(s) && LegalRun(s, steps)
    ensures Q.LegalRun(s.mq, QueueSteps(steps)) && Final(s, steps).mq == Q.Final(s.mq, QueueSteps(steps))
    decreases |steps|
  {
    if steps == [] {
    } else {
      var step, rest := steps[0], QueueSteps(steps[1..]);
      InvStep(s, step);
      QueueOnly(s, step);
      RunsQueue(Apply(s, step), steps[1..]);
      if step.Queue? {
        assert QueueSteps(steps)[0] == step.step && QueueSteps(steps)[1..] == rest;
      } else {
        assert QueueSteps(steps) == rest;
      }
    }
  }

  /** From the construction on: what the queue has accepted is what threads posted, in the order in which they got in,
      and what it has delivered is what workers took away, in order. */
  lemma PostedAndTaken(s0: Pool, steps: seq<Step>)
    requires Init(s0) && Inv(s0) && LegalRun(s0, steps)
    ensures var q, q' := s0.mq, Final(s0, steps).mq;
            && Q.LegalRun(q, QueueSteps(steps))
            && q'.accepted == Q.AllEntered(q, QueueSteps(steps), map[])
            && Q.Delivered(q'.removed) == Q.AllGot(q, QueueSteps(steps))
  {
    RunsQueue(s0, steps);
    Q.InAndOut(s0.mq, QueueSteps(steps), map[]);
    var entered, got := Q.AllEntered(s0.mq, QueueSteps(steps), map[]), Q.AllGot(s0.mq, QueueSteps(steps));
    assert [] + entered == entered && [] + got == got;
  }
}
