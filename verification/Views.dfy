/** What a video queue holds, by value: the common ground of the data model in `Fanout` and of the object in
    `VideoQueueObject`. Each operation is given on views, and the operations of the data model are shown to act so. */
module Views {
  import opened Basics
  import opened Decimation
  import opened Fanout

  datatype View = View(
    fps: nat,
    frameNo: nat,
    input: seq<Frame>,
    output: map<Name, seq<Frame>>,
    info: map<Name, Info>
  )

  // ---------------------------------------------------------------- operations on views

  function AfterPush(v: View, frame: Frame): View { v.(input := v.input + [frame]) }

  /** With a queue for event `n`, empty unless there is one already. */
  function WithQueue(output: map<Name, seq<Frame>>, n: Name): map<Name, seq<Frame>> {
    if n in output then output else output[n := []]
  }

  function AfterInsert(v: View, n: Name, fps: nat, isRun: bool): View
    requires 0 < fps
  {
    v.(info := v.info[n := Info(StepFor(v.fps, fps), isRun)], output := WithQueue(v.output, n))
  }

  function AfterRemove(v: View, n: Name): View { v.(info := v.info - {n}, output := v.output - {n}) }

  function AfterPop(v: View, n: Name): View
    requires n in v.output && v.output[n] != []
  {
    v.(output := v.output[n := v.output[n][1..]])
  }

  function AfterStop(v: View, n: Name): View { v.(info := v.info - {n}) }

  /** Whether event `n` gets the frame with the given number. */
  predicate Gets(info: map<Name, Info>, n: Name, frameNo: nat) {
    n in info && 0 < info[n].step && frameNo % info[n].step == 0
  }

  /** What the queue of event `n` gains in a round. */
  function Gain(info: map<Name, Info>, n: Name, frameNo: nat, frame: Frame): seq<Frame> {
    if Gets(info, n, frameNo) then [frame] else []
  }

  /** A whole round: the oldest frame is numbered and each event it is due to gets a copy. */
  function AfterRound(v: View, now: int): View
    requires v.input != []
  {
    var frameNo := NextFrameNo(v.frameNo, v.fps);
    var copy := Frame(v.input[0].meta, now, v.input[0].bytes);
    v.(frameNo := frameNo, input := v.input[1..],
       output := map n | n in v.output :: v.output[n] + Gain(v.info, n, frameNo, copy))
  }

  // ---------------------------------------------------------------- the data model

  ghost function Queues(s: State): map<Name, seq<Frame>> { map n | n in s.output :: Values(s.heap, s.output[n]) }

  ghost function ViewOf(s: State): View { View(s.fps, s.frameNo, Values(s.heap, s.input), Queues(s), s.info) }

  ghost predicate Sound(s: State) { MemInv(s) && PlaceInv(s) && NameInv(s) }

  lemma QueuesStay(s: State, op: Op)
    requires Sound(s) && Enabled(s, op) && !op.Remove? && Apply(s, op).output == s.output
    ensures Queues(Apply(s, op)) == Queues(s)
  {
    forall n | n in s.output ensures Values(Apply(s, op).heap, s.output[n]) == Values(s.heap, s.output[n]) {
      QueueStays(s, op, n);
    }
  }

  lemma PushActs(s: State, frame: Frame)
    requires Sound(s)
    ensures ViewOf(Apply(s, Push(frame))) == AfterPush(ViewOf(s), frame)
  {
    var s' := Apply(s, Push(frame));
    InputStays(s, Push(frame));
    QueuesStay(s, Push(frame));
    ValuesConcat(s'.heap, s.input, [s.next]);
    assert Values(s'.heap, [s.next]) == [frame];
  }

  lemma InsertActs(s: State, n: Name, fps: nat, isRun: bool)
    requires Enabled(s, Insert(n, fps, isRun))
    ensures ViewOf(Apply(s, Insert(n, fps, isRun))) == AfterInsert(ViewOf(s), n, fps, isRun)
  {
    var s' := Apply(s, Insert(n, fps, isRun));
    assert Values(s.heap, []) == [];
    assert Queues(s') == AfterInsert(ViewOf(s), n, fps, isRun).output;
  }

  lemma RemoveActs(s: State, n: Name)
    requires Sound(s) && Enabled(s, Remove(n))
    ensures ViewOf(Apply(s, Remove(n))) == AfterRemove(ViewOf(s), n)
  {
    var s' := Apply(s, Remove(n));
    InputStays(s, Remove(n));
    forall m | m in s'.output ensures Values(s'.heap, s'.output[m]) == Queues(s)[m] { QueueStays(s, Remove(n), m); }
    assert Queues(s') == Queues(s) - {n};
  }

  lemma PopActs(s: State, n: Name)
    requires Enabled(s, Pop(n))
    ensures ViewOf(Apply(s, Pop(n))) == AfterPop(ViewOf(s), n)
    ensures Deref(s.heap, s.output[n][0]) == ViewOf(s).output[n][0]
  {
    var s' := Apply(s, Pop(n));
    assert Values(s.heap, s'.output[n]) == Queues(s)[n][1..];
    assert Queues(s') == AfterPop(ViewOf(s), n).output;
  }

  lemma StopActs(s: State, n: Name)
    requires Enabled(s, Stop(n))
    ensures ViewOf(Apply(s, Stop(n))) == AfterStop(ViewOf(s), n)
  {
    assert Queues(Apply(s, Stop(n))) == Queues(s);
  }

  // ---------------------------------------------------------------- a whole round

  ghost predicate Legal(s: State, ops: seq<Op>)
    decreases |ops|
  {
    ops != [] ==> Enabled(s, ops[0]) && Legal(Apply(s, ops[0]), ops[1..])
  }

  ghost function Final(s: State, ops: seq<Op>): State
    requires Legal(s, ops)
    decreases |ops|
  {
    if ops == [] then s else Final(Apply(s, ops[0]), ops[1..])
  }

  /** In the middle of the scan, as regards everything but the output queues. */
  ghost predicate InScan(v: View, s: State, now: int)
    requires v.input != []
  {
    && s.phase.Scanning? && s.fps == v.fps && s.frameNo == NextFrameNo(v.frameNo, v.fps) && s.info == v.info
    && Values(s.heap, s.input) == v.input[1..]
    && Deref(s.heap, s.phase.cur) == v.input[0]
    && s.stamps != [] && s.stamps[|s.stamps| - 1] == now
  }

  /** An event already looked at has gained what the round gives it, another one nothing. */
  ghost predicate HasGained(v: View, s: State, n: Name, copy: Frame)
    requires s.phase.Scanning? && n in v.output && n in s.output
  {
    Values(s.heap, s.output[n]) == v.output[n] + if n in s.phase.todo then [] else Gain(v.info, n, s.frameNo, copy)
  }

  ghost predicate Halfway(v: View, s: State, now: int)
    requires v.input != []
  {
    && InScan(v, s, now)
    && s.output.Keys == v.output.Keys
    && forall n :: n in s.output ==> HasGained(v, s, n, Stamped(v.input[0], now))
  }

  lemma BeginsHalfway(s: State, now: int)
    requires Sound(s) && Enabled(s, Take(now))
    ensures var m := Apply(s, Take(now));
            Enabled(m, Begin) && Halfway(ViewOf(s), Apply(m, Begin), now)
  {
    var m := Apply(Apply(s, Take(now)), Begin);
    assert Values(m.heap, m.input) == Values(s.heap, s.input)[1..];
  }

  predicate IsLook(op: Op) { op.Skip? || op.Deliver? }

  /** From `s` to `s'` event `n` has been looked at. */
  ghost predicate Looked(s: State, s': State, n: Name) {
    && s.phase.Scanning? && s'.phase == Scanning(s.phase.cur, s.phase.todo - {n})
    && s'.fps == s.fps && s'.frameNo == s.frameNo && s'.info == s.info && s'.stamps == s.stamps
    && s'.output.Keys == s.output.Keys
    && Values(s'.heap, s'.input) == Values(s.heap, s.input)
    && Deref(s'.heap, s.phase.cur) == Deref(s.heap, s.phase.cur)
    && forall m :: m in s.output && m != n ==> Values(s'.heap, s'.output[m]) == Values(s.heap, s.output[m])
  }

  lemma LookControl(s: State, op: Op)
    requires NameInv(s) && Enabled(s, op) && IsLook(op)
    ensures var s' := Apply(s, op);
            && s'.phase == Scanning(s.phase.cur, s.phase.todo - {op.n})
            && s'.fps == s.fps && s'.frameNo == s.frameNo && s'.info == s.info && s'.stamps == s.stamps
            && s'.input == s.input && s'.output.Keys == s.output.Keys
            && forall m :: m in s.output && m != op.n ==> s'.output[m] == s.output[m]
  {
  }

  lemma LookLooks(s: State, op: Op)
    requires Sound(s) && Enabled(s, op) && IsLook(op)
    ensures Looked(s, Apply(s, op), op.n)
  {
    LookControl(s, op);
    InputStays(s, op);
    CurStays(s, op);
    forall m | m in s.output && m != op.n
      ensures Values(Apply(s, op).heap, s.output[m]) == Values(s.heap, s.output[m])
    {
      QueueStays(s, op, m);
    }
  }

  lemma DeliverGains(s: State, n: Name, copy: Frame)
    requires Sound(s) && Enabled(s, Deliver(n)) && s.stamps != []
    requires copy == Stamped(Deref(s.heap, s.phase.cur), s.stamps[|s.stamps| - 1])
    ensures var s' := Apply(s, Deliver(n));
            n in s'.output && Values(s'.heap, s'.output[n]) == Values(s.heap, s.output[n]) + [copy]
  {
    QueueAfterDeliver(s, n, copy);
  }

  lemma SkipGains(s: State, n: Name)
    requires Sound(s) && Enabled(s, Skip(n))
    ensures var s' := Apply(s, Skip(n));
            n in s'.output && Values(s'.heap, s'.output[n]) == Values(s.heap, s.output[n])
  {
  }

  /** What the queue of the event itself gains. */
  lemma LookGains(v: View, s: State, op: Op, now: int)
    requires v.input != [] && Sound(s) && InScan(v, s, now) && Enabled(s, op) && IsLook(op)
    ensures var s', n := Apply(s, op), op.n;
            n in s'.output
            && Values(s'.heap, s'.output[n])
                 == Values(s.heap, s.output[n]) + Gain(v.info, n, s.frameNo, Stamped(v.input[0], now))
  {
    if op.Deliver? { DeliverGains(s, op.n, Stamped(v.input[0], now)); } else { SkipGains(s, op.n); }
  }

  lemma LookedHalfway(v: View, s: State, s': State, n: Name, now: int)
    requires v.input != [] && Halfway(v, s, now) && Looked(s, s', n) && n in s.phase.todo && n in s.output
    requires Values(s'.heap, s'.output[n])
               == Values(s.heap, s.output[n]) + Gain(v.info, n, s.frameNo, Stamped(v.input[0], now))
    ensures Halfway(v, s', now)
  {
    forall m | m in s'.output ensures HasGained(v, s', m, Stamped(v.input[0], now)) {
      assert HasGained(v, s, m, Stamped(v.input[0], now));
    }
  }

  lemma LookAt(v: View, s: State, op: Op, now: int)
    requires v.input != [] && Sound(s) && Halfway(v, s, now) && Enabled(s, op) && IsLook(op)
    ensures Halfway(v, Apply(s, op), now)
  {
    LookLooks(s, op);
    LookGains(v, s, op, now);
    LookedHalfway(v, s, Apply(s, op), op.n, now);
  }

  ghost predicate Looks(ops: seq<Op>) { forall i :: 0 <= i < |ops| ==> IsLook(ops[i]) }

  lemma SoundStep(s: State, op: Op)
    requires Sound(s) && Enabled(s, op)
    ensures Sound(Apply(s, op))
  {
    NameStep(s, op);
    MemStep(s, op);
    PlaceStep(s, op);
  }

  lemma {:induction false} LookAtAll(v: View, s: State, ops: seq<Op>, now: int)
    requires v.input != [] && Sound(s) && Halfway(v, s, now) && Legal(s, ops) && Looks(ops)
    ensures Sound(Final(s, ops)) && Halfway(v, Final(s, ops), now)
    decreases |ops|
  {
    if ops == [] {
    } else {
      LookAt(v, s, ops[0], now);
      SoundStep(s, ops[0]);
      forall i | 0 <= i < |ops[1..]| ensures IsLook(ops[1..][i]) {
        assert ops[1..][i] == ops[i + 1];
      }
      LookAtAll(v, Apply(s, ops[0]), ops[1..], now);
    }
  }

  /** Ending the scan and deleting the frame change nothing else. */
  lemma EndScanShows(s: State)
    requires Sound(s) && Enabled(s, EndScan)
    ensures ViewOf(Apply(s, EndScan)) == ViewOf(s)
  {
    QueuesStay(s, EndScan);
  }

  lemma FreeShows(s: State)
    requires Sound(s) && Enabled(s, Free)
    ensures ViewOf(Apply(s, Free)) == ViewOf(s)
  {
    InputStays(s, Free);
    QueuesStay(s, Free);
  }

  /** When all events have been looked at. */
  lemma AllLookedAt(v: View, s: State, now: int)
    requires v.input != [] && Halfway(v, s, now) && s.phase.todo == {}
    ensures ViewOf(s) == AfterRound(v, now)
  {
    forall n | n in s.output ensures Queues(s)[n] == AfterRound(v, now).output[n] {
      assert HasGained(v, s, n, Stamped(v.input[0], now));
    }
    assert Queues(s) == AfterRound(v, now).output;
  }

  lemma EndActs(v: View, s: State, now: int)
    requires v.input != [] && Sound(s) && Halfway(v, s, now) && Enabled(s, EndScan)
    ensures var m := Apply(s, EndScan); Enabled(m, Free) && ViewOf(Apply(m, Free)) == AfterRound(v, now)
  {
    SoundStep(s, EndScan);
    EndScanShows(s);
    FreeShows(Apply(s, EndScan));
    AllLookedAt(v, s, now);
  }

  /** A round of the data model, whatever the order in which the events are looked at. */
  lemma RoundActs(s: State, now: int, looks: seq<Op>)
    requires Sound(s) && Enabled(s, Take(now)) && Looks(looks)
    requires var m := Apply(Apply(s, Take(now)), Begin);
             Legal(m, looks) && Enabled(Final(m, looks), EndScan)
    ensures var m := Apply(Final(Apply(Apply(s, Take(now)), Begin), looks), EndScan);
            Enabled(m, Free) && ViewOf(Apply(m, Free)) == AfterRound(ViewOf(s), now)
  {
    var m := Apply(s, Take(now));
    BeginsHalfway(s, now);
    SoundStep(s, Take(now));
    SoundStep(m, Begin);
    LookAtAll(ViewOf(s), Apply(m, Begin), looks, now);
    EndActs(ViewOf(s), Final(Apply(m, Begin), looks), now);
  }
}
