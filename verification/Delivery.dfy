/** What every event receives, told from outside: a log of the calls that the threads make, kept from the steps and
    never from the state's own history, and the frames that each event has popped or still has queued in terms of it. */
module Delivery {
  import opened Basics
  import opened Decimation
  import F = Fanout
  import opened Distributor

  /** A registered event: the rate asked for, the rounds begun before, what its queue held, what was popped since. */
  datatype Registration = Registration(fps: nat, first: nat, held: seq<F.Frame>, popped: seq<F.Frame>)

  datatype Log = Log(
    offered: map<Tid, F.Frame>,         // what each thread has last called `push` with
    requests: map<Tid, Request>,        // its last call of `insert_event` or `remove_event`
    pops: map<Tid, Name>,               // its last call of `pop`
    pushed: seq<F.Frame>,
    stamps: seq<int>,                   // when each frame was taken
    begun: nat,
    events: map<Name, Registration>
  )

  const NOTHING := Log(map[], map[], map[], [], [], 0, map[])

  /** What waits in the queue of event `n`. */
  ghost function Queued(s: State, n: Name): seq<F.Frame> {
    if n in s.data.output then F.Values(s.data.heap, s.data.output[n]) else []
  }

  ghost function Logged(s: State, step: Step, log: Log): Log {
    match step
    case PStart(t, frame) => log.(offered := log.offered[t := frame])
    case PPush(t, _) => if t in log.offered then log.(pushed := log.pushed + [log.offered[t]]) else log
    case DTake(_, now) => log.(stamps := log.stamps + [now])
    case DBegin(_) => log.(begun := log.begun + 1)
    case RStart(t, req) => log.(requests := log.requests[t := req])
    case RInsert(t) =>
      if t in log.requests && log.requests[t].Insert? && log.requests[t].n !in log.events then
        var n := log.requests[t].n;
        log.(events := log.events[n := Registration(log.requests[t].fps, log.begun, Queued(s, n), [])])
      else log
    case RErase(t) => if t in log.requests then log.(events := log.events - {log.requests[t].n}) else log
    case CStart(t, n) => log.(pops := log.pops[t := n])
    case CTake(t) =>
      if t in log.pops && log.pops[t] in log.events && Queued(s, log.pops[t]) != [] then
        var n := log.pops[t];
        var r := log.events[n];
        log.(events := log.events[n := r.(popped := r.popped + [Queued(s, n)[0]])])
      else log
    case _ => log
  }

  /** The log of a run. */
  ghost function LogOf(s: State, steps: seq<Step>, log: Log): Log
    requires LegalRun(s, steps)
    decreases |steps|
  {
    if steps == [] then log else LogOf(Apply(s, steps[0]), steps[1..], Logged(s, steps[0], log))
  }

  // ---------------------------------------------------------------- threads carry what they were called with

  ghost predicate Carries(log: Log, t: Tid, p: Pc) {
    match p
    case PWant(frame) => t in log.offered && log.offered[t] == frame
    case PHold(frame) => t in log.offered && log.offered[t] == frame
    case RWant(req) => t in log.requests && log.requests[t] == req
    case RHold(req) => t in log.requests && log.requests[t] == req
    case RNeedEvent(n) => t in log.requests && log.requests[t] == Remove(n)
    case RHoldEvent(n) => t in log.requests && log.requests[t] == Remove(n)
    case RApply(n) => t in log.requests && log.requests[t] == Remove(n)
    case CWant(n) => t in log.pops && log.pops[t] == n
    case CHold(n) => t in log.pops && log.pops[t] == n
    case CAsleep(n) => t in log.pops && log.pops[t] == n
    case _ => true
  }

  ghost predicate AllCarry(s: State, log: Log) { forall t :: t in s.pc ==> Carries(log, t, s.pc[t]) }

  lemma PushesLogged(s: State, step: Step, log: Log)
    ensures Logged(s, step, log).offered == if step.PStart? then log.offered[step.t := step.frame] else log.offered
  {
  }

  lemma RequestsLogged(s: State, step: Step, log: Log)
    ensures Logged(s, step, log).requests == if step.RStart? then log.requests[step.t := step.req] else log.requests
  {
  }

  lemma PopsLogged(s: State, step: Step, log: Log)
    ensures Logged(s, step, log).pops == if step.CStart? then log.pops[step.t := step.n] else log.pops
  {
  }

  lemma ActorCarries(s: State, step: Step, log: Log)
    requires step.t in s.pc && Guard(s, step) && Carries(log, step.t, s.pc[step.t])
    ensures Carries(Logged(s, step, log), step.t, Target(s, step))
  {
    PushesLogged(s, step, log);
    RequestsLogged(s, step, log);
    PopsLogged(s, step, log);
    if RequestStepKind(step) { RequesterCarries(s, step, log, Logged(s, step, log)); }
    else if PopStepKind(step) { PopperCarries(s, step, log, Logged(s, step, log)); }
    else { OtherCarries(s, step, log, Logged(s, step, log)); }
  }

  lemma RequesterCarries(s: State, step: Step, log: Log, log': Log)
    requires step.t in s.pc && Guard(s, step) && RequestStepKind(step) && Carries(log, step.t, s.pc[step.t])
    requires log'.requests == if step.RStart? then log.requests[step.t := step.req] else log.requests
    ensures Carries(log', step.t, Target(s, step))
  {
  }

  lemma PopperCarries(s: State, step: Step, log: Log, log': Log)
    requires step.t in s.pc && Guard(s, step) && PopStepKind(step) && Carries(log, step.t, s.pc[step.t])
    requires log'.pops == if step.CStart? then log.pops[step.t := step.n] else log.pops
    ensures Carries(log', step.t, Target(s, step))
  {
  }

  lemma OtherCarries(s: State, step: Step, log: Log, log': Log)
    requires step.t in s.pc && Guard(s, step) && !RequestStepKind(step) && !PopStepKind(step)
    requires Carries(log, step.t, s.pc[step.t])
    requires log'.offered == if step.PStart? then log.offered[step.t := step.frame] else log.offered
    ensures Carries(log', step.t, Target(s, step))
  {
  }

  lemma BystanderCarries(s: State, step: Step, log: Log, u: Tid)
    requires step.t in s.pc && Guard(s, step) && u in s.pc && u != step.t && Carries(log, u, s.pc[u])
    ensures u in Wake(s, step) && Carries(Logged(s, step, log), u, Wake(s, step)[u])
  {
    PushesLogged(s, step, log);
    RequestsLogged(s, step, log);
    PopsLogged(s, step, log);
    WokenHoldNothing(s, step, u);
  }

  lemma CarryStep(s: State, step: Step, log: Log)
    requires AllCarry(s, log) && Enabled(s, step)
    ensures AllCarry(Apply(s, step), Logged(s, step, log))
  {
    SameThreads(s, step);
    ActorCarries(s, step, log);
    forall u | u in Apply(s, step).pc ensures Carries(Logged(s, step, log), u, Apply(s, step).pc[u]) {
      if u != step.t { BystanderCarries(s, step, log, u); }
    }
  }

  // ---------------------------------------------------------------- what each step does to the data

  /** A push queues the frame that its thread carries, and nothing else does. */
  lemma PushEffect(s: State, step: Step)
    requires Enabled(s, step)
    ensures Apply(s, step).data.pushed == s.data.pushed + if step.PPush? then [s.pc[step.t].frame] else []
  {
    WhosePush(s, step);
    if OpOf(s, step).Some? { DataPushes(s.data, OpOf(s, step).value); }
  }

  lemma WhosePush(s: State, step: Step)
    requires step.t in s.pc && Guard(s, step)
    ensures step.PPush? ==> s.pc[step.t].PHold? && OpOf(s, step) == Some(F.Push(s.pc[step.t].frame))
    ensures !step.PPush? ==> OpOf(s, step).None? || !OpOf(s, step).value.Push?
  {
  }

  lemma DataPushes(d: F.State, op: F.Op)
    requires F.Enabled(d, op)
    ensures F.Apply(d, op).pushed == d.pushed + if op.Push? then [op.frame] else []
  {
  }

  /** Shutting down disables the queue for good, and nothing else does. */
  lemma ShutdownEffect(s: State, step: Step)
    requires Enabled(s, step)
    ensures Apply(s, step).enable == (s.enable && !step.SRun?)
  {
  }

  /** A frame is stamped when it is taken. */
  lemma TakeEffect(s: State, step: Step)
    requires Enabled(s, step)
    ensures Apply(s, step).data.stamps == s.data.stamps + if step.DTake? then [step.now] else []
  {
    WhoseTake(s, step);
    if OpOf(s, step).Some? { DataTakes(s.data, OpOf(s, step).value); }
  }

  lemma WhoseTake(s: State, step: Step)
    requires step.t in s.pc && Guard(s, step)
    ensures step.DTake? ==> OpOf(s, step) == Some(F.Take(step.now))
    ensures !step.DTake? ==> OpOf(s, step).None? || !OpOf(s, step).value.Take?
  {
  }

  lemma DataTakes(d: F.State, op: F.Op)
    requires F.Enabled(d, op)
    ensures F.Apply(d, op).stamps == d.stamps + if op.Take? then [op.now] else []
  {
  }

  /** A round counts when its scan begins. */
  lemma BeginEffect(s: State, step: Step)
    requires Enabled(s, step)
    ensures Apply(s, step).data.begun == s.data.begun + if step.DBegin? then 1 else 0
  {
    WhoseBegin(s, step);
    if OpOf(s, step).Some? { DataBegins(s.data, OpOf(s, step).value); }
  }

  lemma WhoseBegin(s: State, step: Step)
    requires step.t in s.pc && Guard(s, step)
    ensures step.DBegin? <==> OpOf(s, step).Some? && OpOf(s, step).value.Begin?
  {
  }

  lemma DataBegins(d: F.State, op: F.Op)
    requires F.Enabled(d, op)
    ensures F.Apply(d, op).begun == d.begun + if op.Begin? then 1 else 0
  {
  }

  /** Event `n` has been registered: with the step that belongs to its rate, and the queue that was there under its name
      or an empty one; nothing else has changed. */
  ghost predicate Registered(d: F.State, d': F.State, n: Name, fps: nat, held: seq<F.Frame>) {
    && 0 < fps && n !in d.info && n in d'.info && d'.info[n].isRun
    && d'.info[n].step * fps <= d.fps < (d'.info[n].step + 1) * fps
    && d'.info - {n} == d.info
    && n in d'.output && d'.output[n] == (if n in d.output then d.output[n] else [])
    && d'.output - {n} == d.output - {n}
    && d'.regs == d.regs[n := F.Reg(d.begun, held, [])]
  }

  /** A registration that the thread asked for; an event that is there is left alone. */
  lemma InsertEffect(s: State, step: Step)
    requires Enabled(s, step) && step.RInsert?
    ensures s.pc[step.t].RHold? && s.pc[step.t].req.Insert?
    ensures var d, d', n := s.data, Apply(s, step).data, s.pc[step.t].req.n;
            if n in d.info then d' == d else Registered(d, d', n, s.pc[step.t].req.fps, Queued(s, n))
  {
    var n, fps := s.pc[step.t].req.n, s.pc[step.t].req.fps;
    if n !in s.data.info {
      StepBounds(s.data.fps, fps);
      assert F.Values(s.data.heap, []) == [];
    }
  }

  /** An erasure removes the event that the thread asked to remove, with its queue, and no other. */
  lemma EraseEffect(s: State, step: Step)
    requires Enabled(s, step) && step.RErase?
    ensures var d, d' := s.data, Apply(s, step).data;
            && s.pc[step.t].RApply?
            && var n := s.pc[step.t].n;
               d'.info == d.info - {n} && d'.output == d.output - {n} && d'.regs == d.regs - {n}
  {
  }

  /** A pop takes the oldest buffer out of the queue that the thread asked for. */
  lemma PopEffect(s: State, step: Step)
    requires Enabled(s, step) && step.CTake?
    ensures var d, d' := s.data, Apply(s, step).data;
            && s.pc[step.t].CHold?
            && var n := s.pc[step.t].n;
               && n in d.output && d.output[n] != [] && n in d.info
               && d'.output == d.output[n := d.output[n][1..]] && d'.held == d.held + {d.output[n][0]}
               && d'.info == d.info
               && (n in d.regs ==>
                     d'.regs == d.regs[n := d.regs[n].(got := d.regs[n].got + [Queued(s, n)[0]])])
  {
  }

  lemma NoOtherEffect(s: State, step: Step)
    requires Enabled(s, step) && !step.RInsert? && !step.RErase? && !step.CTake?
    ensures var d, d' := s.data, Apply(s, step).data; d'.info == d.info && d'.regs == d.regs
  {
    OtherOps(s, step);
    if OpOf(s, step).Some? { DataKeepsEvents(s.data, OpOf(s, step).value); }
  }

  lemma OtherOps(s: State, step: Step)
    requires step.t in s.pc && Guard(s, step) && !step.RInsert? && !step.RErase? && !step.CTake?
    ensures OpOf(s, step).Some? ==>
              var op := OpOf(s, step).value; !op.Insert? && !op.Remove? && !op.Pop? && !op.Stop?
  {
  }

  lemma DataKeepsEvents(d: F.State, op: F.Op)
    requires F.Enabled(d, op) && !op.Insert? && !op.Remove? && !op.Pop? && !op.Stop?
    ensures F.Apply(d, op).info == d.info && F.Apply(d, op).regs == d.regs
  {
  }

  // ---------------------------------------------------------------- the log tells the history

  ghost predicate EventTold(d: F.State, n: Name, r: Registration)
    requires n in d.info
  {
    && 0 < r.fps && d.info[n].step * r.fps <= d.fps < (d.info[n].step + 1) * r.fps
    && n in d.regs && d.regs[n] == F.Reg(r.first, r.held, r.popped)
  }

  ghost predicate EventsTold(d: F.State, events: map<Name, Registration>) {
    && d.info.Keys == events.Keys
    && (forall n :: n in d.regs ==> n in d.info)
    && forall n :: n in events ==> EventTold(d, n, events[n])
  }

  ghost predicate FramesTold(d: F.State, log: Log) {
    d.pushed == log.pushed && d.stamps == log.stamps && d.begun == log.begun
  }

  ghost predicate Told(s: State, log: Log) {
    AllCarry(s, log) && FramesTold(s.data, log) && EventsTold(s.data, log.events)
  }

  lemma FramesLogged(s: State, step: Step, log: Log)
    requires Enabled(s, step) && Carries(log, step.t, s.pc[step.t])
    ensures var log' := Logged(s, step, log);
            && log'.pushed == log.pushed + (if step.PPush? then [s.pc[step.t].frame] else [])
            && log'.stamps == log.stamps + (if step.DTake? then [step.now] else [])
            && log'.begun == log.begun + if step.DBegin? then 1 else 0
  {
    WhosePush(s, step);
  }

  lemma FramesStep(s: State, step: Step, log: Log)
    requires Enabled(s, step) && Carries(log, step.t, s.pc[step.t]) && FramesTold(s.data, log)
    ensures FramesTold(Apply(s, step).data, Logged(s, step, log))
  {
    PushEffect(s, step);
    TakeEffect(s, step);
    BeginEffect(s, step);
    FramesLogged(s, step, log);
  }

  lemma InsertLogged(s: State, step: Step, log: Log)
    requires step.RInsert? && step.t in s.pc && Guard(s, step) && Carries(log, step.t, s.pc[step.t])
    ensures var n, fps := s.pc[step.t].req.n, s.pc[step.t].req.fps;
            Logged(s, step, log).events ==
              if n in log.events then log.events
              else log.events[n := Registration(fps, log.begun, Queued(s, n), [])]
  {
  }

  lemma InsertKeeps(d: F.State, d': F.State, events: map<Name, Registration>, n: Name, fps: nat, held: seq<F.Frame>)
    requires EventsTold(d, events) && d'.fps == d.fps && Registered(d, d', n, fps, held)
    ensures n !in events && EventsTold(d', events[n := Registration(fps, d.begun, held, [])])
  {
    assert d'.info.Keys == d.info.Keys + {n};
    forall m | m in events && m != n ensures m in d'.info && EventTold(d', m, events[m]) {
      assert EventTold(d, m, events[m]) && m in d'.info - {n};
    }
  }

  lemma InsertTold(s: State, step: Step, log: Log)
    requires Enabled(s, step) && step.RInsert? && Carries(log, step.t, s.pc[step.t])
    requires EventsTold(s.data, log.events) && s.data.begun == log.begun && Apply(s, step).data.fps == s.data.fps
    ensures EventsTold(Apply(s, step).data, Logged(s, step, log).events)
  {
    InsertEffect(s, step);
    InsertLogged(s, step, log);
    var n, fps := s.pc[step.t].req.n, s.pc[step.t].req.fps;
    if n !in s.data.info { InsertKeeps(s.data, Apply(s, step).data, log.events, n, fps, Queued(s, n)); }
  }

  lemma EraseLogged(s: State, step: Step, log: Log)
    requires step.RErase? && step.t in s.pc && Guard(s, step) && Carries(log, step.t, s.pc[step.t])
    ensures Logged(s, step, log).events == log.events - {s.pc[step.t].n}
  {
  }

  lemma EraseKeeps(d: F.State, d': F.State, events: map<Name, Registration>, n: Name)
    requires EventsTold(d, events) && d'.fps == d.fps && d'.info == d.info - {n} && d'.regs == d.regs - {n}
    ensures EventsTold(d', events - {n})
  {
    forall m | m in events && m != n ensures m in d'.info && EventTold(d', m, events[m]) {
      assert EventTold(d, m, events[m]);
    }
  }

  lemma EraseTold(s: State, step: Step, log: Log)
    requires Enabled(s, step) && step.RErase? && Carries(log, step.t, s.pc[step.t])
    requires EventsTold(s.data, log.events) && Apply(s, step).data.fps == s.data.fps
    ensures EventsTold(Apply(s, step).data, Logged(s, step, log).events)
  {
    EraseEffect(s, step);
    EraseLogged(s, step, log);
    EraseKeeps(s.data, Apply(s, step).data, log.events, s.pc[step.t].n);
  }

  lemma PopLogged(s: State, step: Step, log: Log)
    requires step.CTake? && step.t in s.pc && Guard(s, step) && Carries(log, step.t, s.pc[step.t])
    requires s.pc[step.t].n in log.events
    ensures Queued(s, s.pc[step.t].n) != []
    ensures var n := s.pc[step.t].n;
            var r := log.events[n];
            Logged(s, step, log).events == log.events[n := r.(popped := r.popped + [Queued(s, n)[0]])]
  {
  }

  lemma PopKeeps(d: F.State, d': F.State, events: map<Name, Registration>, n: Name, x: F.Frame)
    requires EventsTold(d, events) && n in d.info && d'.fps == d.fps && d'.info == d.info
    requires n in d.regs && d'.regs == d.regs[n := d.regs[n].(got := d.regs[n].got + [x])]
    ensures n in events && EventsTold(d', events[n := events[n].(popped := events[n].popped + [x])])
  {
    forall m | m in events ensures EventTold(d, m, events[m]) { }
  }

  lemma PopTold(s: State, step: Step, log: Log)
    requires Enabled(s, step) && step.CTake? && Carries(log, step.t, s.pc[step.t])
    requires EventsTold(s.data, log.events) && Apply(s, step).data.fps == s.data.fps
    ensures EventsTold(Apply(s, step).data, Logged(s, step, log).events)
  {
    PopEffect(s, step);
    var n := s.pc[step.t].n;
    assert n in log.events && EventTold(s.data, n, log.events[n]);
    PopLogged(s, step, log);
    PopKeeps(s.data, Apply(s, step).data, log.events, n, Queued(s, n)[0]);
  }

  lemma OtherKeeps(d: F.State, d': F.State, events: map<Name, Registration>)
    requires EventsTold(d, events) && d'.fps == d.fps && d'.info == d.info && d'.regs == d.regs
    ensures EventsTold(d', events)
  {
    forall n | n in events ensures EventTold(d', n, events[n]) { assert EventTold(d, n, events[n]); }
  }

  lemma OtherTold(s: State, step: Step, log: Log)
    requires Enabled(s, step) && !step.RInsert? && !step.RErase? && !step.CTake?
    requires EventsTold(s.data, log.events) && Apply(s, step).data.fps == s.data.fps
    ensures EventsTold(Apply(s, step).data, Logged(s, step, log).events)
  {
    NoOtherEffect(s, step);
    SameEvents(s, step, log);
    OtherKeeps(s.data, Apply(s, step).data, log.events);
  }

  lemma SameEvents(s: State, step: Step, log: Log)
    requires !step.RInsert? && !step.RErase? && !step.CTake?
    ensures Logged(s, step, log).events == log.events
  {
  }

  lemma EventsStep(s: State, step: Step, log: Log)
    requires Enabled(s, step) && Carries(log, step.t, s.pc[step.t])
    requires EventsTold(s.data, log.events) && s.data.begun == log.begun
    ensures EventsTold(Apply(s, step).data, Logged(s, step, log).events)
  {
    RateStays(s, step);
    if step.RInsert? { InsertTold(s, step, log); }
    else if step.RErase? { EraseTold(s, step, log); }
    else if step.CTake? { PopTold(s, step, log); }
    else { OtherTold(s, step, log); }
  }

  lemma ToldStep(s: State, step: Step, log: Log)
    requires Told(s, log) && Enabled(s, step)
    ensures Told(Apply(s, step), Logged(s, step, log))
  {
    assert Carries(log, step.t, s.pc[step.t]);
    CarryStep(s, step, log);
    FramesStep(s, step, log);
    EventsStep(s, step, log);
  }

  lemma {:induction false} RunTold(s: State, steps: seq<Step>, log: Log)
    requires Told(s, log) && LegalRun(s, steps)
    ensures Told(Final(s, steps), LogOf(s, steps, log))
    decreases |steps|
  {
    if steps == [] {
    } else {
      ToldStep(s, steps[0], log);
      RunTold(Apply(s, steps[0]), steps[1..], Logged(s, steps[0], log));
    }
  }

  lemma InitTold(s: State)
    requires Init(s)
    ensures Told(s, NOTHING)
  {
  }

  // ---------------------------------------------------------------- what every event receives

  /** The rounds before `done` that an event of step `k` gets, when it is there from round `first` on. */
  ghost predicate DueRounds(rounds: seq<nat>, fps: nat, k: nat, first: nat, done: int)
    requires 0 < fps && 0 < k
  {
    && (forall i, j :: 0 <= i < j < |rounds| ==> rounds[i] < rounds[j])
    && forall r :: r in rounds <==> first <= r < done && (r % fps + 1) % k == 0
  }

  /** `x` is what camera threads pushed as number `r`, with the stamp of its round. */
  ghost predicate IsCopyOf(x: F.Frame, log: Log, r: nat) {
    && r < |log.pushed| && r < |log.stamps|
    && x.meta == log.pushed[r].meta && x.bytes == log.pushed[r].bytes && x.timestamp == log.stamps[r]
  }

  ghost predicate CopiesOf(xs: seq<F.Frame>, log: Log, rounds: seq<nat>) {
    |xs| == |rounds| && forall i :: 0 <= i < |xs| ==> IsCopyOf(xs[i], log, rounds[i])
  }

  /** Rounds that have looked at event `n`: all that have begun, except one that is still to look at it. */
  ghost function RoundsOver(s: State, n: Name, log: Log): int {
    log.begun - if s.data.phase.Scanning? && n in s.data.phase.todo then 1 else 0
  }

  lemma {:induction false} RunRate(s: State, steps: seq<Step>)
    requires LegalRun(s, steps)
    ensures Final(s, steps).data.fps == s.data.fps
    decreases |steps|
  {
    if steps == [] {
    } else {
      RateStays(s, steps[0]);
      RunRate(Apply(s, steps[0]), steps[1..]);
    }
  }

  lemma FinalTold(s: State, steps: seq<Step>)
    requires Init(s) && LegalRun(s, steps)
    ensures var s', log := Final(s, steps), LogOf(s, steps, NOTHING);
            && F.CountInv(s'.data) && F.NameInv(s'.data) && F.DeliveryInv(s'.data) && F.InputInv(s'.data)
            && FramesTold(s'.data, log) && EventsTold(s'.data, log.events) && s'.data.fps == s.data.fps
  {
    InitInv(s);
    RunInv(s, steps);
    InitTold(s);
    RunTold(s, steps, NOTHING);
    RunRate(s, steps);
  }

  lemma EventReceives(d: F.State, n: Name, log: Log) returns (received: seq<F.Frame>, rounds: seq<nat>)
    requires F.CountInv(d) && F.NameInv(d) && n in d.info && F.Delivered(d, n) && FramesTold(d, log)
    ensures DueRounds(rounds, d.fps, d.info[n].step, d.regs[n].start, F.Rounds(d, n)) && CopiesOf(received, log, rounds)
    ensures d.regs[n].got + F.Values(d.heap, d.output[n]) == d.regs[n].base + received
  {
    var k, first, done := d.info[n].step, d.regs[n].start, F.Rounds(d, n);
    received := F.Expected(d, k, first, done);
    rounds := F.ExpectedRounds(d, k, first, done);
  }

  /** Under any interleaving: the registered events are those of the log, each with the step of the rate asked for; what
      an event has popped, followed by what waits in its queue, is what its queue held at registration followed by one
      copy of each frame pushed whose number in the cycle is a multiple of the step, in the order of the pushes, from
      the registration on, with the metadata and the bytes that the camera handed in and the stamp of its round. */
  lemma EveryEventGetsItsFrames(s: State, steps: seq<Step>, n: Name) returns (received: seq<F.Frame>, rounds: seq<nat>)
    requires Init(s) && LegalRun(s, steps)
    ensures var s', log := Final(s, steps), LogOf(s, steps, NOTHING);
            && (n in s'.data.info <==> n in log.events)
            && (n in log.events ==>
                  var r, k := log.events[n], s'.data.info[n].step;
                  && 0 < r.fps && 0 < k && 0 < s.data.fps && k * r.fps <= s.data.fps < (k + 1) * r.fps
                  && DueRounds(rounds, s.data.fps, k, r.first, RoundsOver(s', n, log))
                  && CopiesOf(received, log, rounds)
                  && r.popped + Queued(s', n) == r.held + received)
  {
    received, rounds := [], [];
    FinalTold(s, steps);
    var s', log := Final(s, steps), LogOf(s, steps, NOTHING);
    if n in log.events {
      assert EventTold(s'.data, n, log.events[n]) && F.Delivered(s'.data, n);
      received, rounds := EventReceives(s'.data, n, log);
    }
  }

  /** Under any interleaving the input queue holds the frames pushed and not yet taken, in order, as they were handed
      in; rounds begin with frames taken, the last of which may still wait for its round. */
  lemma InputHoldsTheRest(s: State, steps: seq<Step>)
    requires Init(s) && LegalRun(s, steps)
    ensures var d, log := Final(s, steps).data, LogOf(s, steps, NOTHING);
            && |log.stamps| <= |log.pushed| && log.begun <= |log.stamps| <= log.begun + 1
            && F.Values(d.heap, d.input) == log.pushed[|log.stamps|..]
  {
    FinalTold(s, steps);
  }
}
