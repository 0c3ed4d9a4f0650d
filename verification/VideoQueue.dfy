/** The video queue object with its buffers on the heap: what each of its methods does between taking and releasing
    its mutexes. Every buffer in a queue is a different object with a different byte array. */
module VideoQueueObject {
  import opened Basics
  import opened Decimation
  import F = Fanout
  import V = Views

  /** The fields are set before a buffer is shared and stay; only the bytes are on the heap. */
  class VideoBuffer {
    const metadata: int
    const timestamp: int
    const buffer: array<Byte>
    const size: nat

    ghost predicate Sized() { size <= buffer.Length }

    ghost function Value(): F.Frame
      requires Sized()
      reads buffer
    {
      F.Frame(metadata, timestamp, buffer[..size])
    }

    constructor (metadata: int, timestamp: int, bytes: array<Byte>, size: nat)
      ensures this.metadata == metadata && this.timestamp == timestamp && this.buffer == bytes && this.size == size
    {
      this.metadata, this.timestamp, this.buffer, this.size := metadata, timestamp, bytes, size;
    }
  }

  class ThreadInfo {
    var isRun: bool
    var fps: nat
  }

  /** A frame with a new stamp. */
  ghost function Copied(frame: F.Frame, now: int): F.Frame { F.Frame(frame.meta, now, frame.bytes) }

  /** `memcpy` of the struct, then of the bytes into an array of its own. */
  method CopyBuffer(input: VideoBuffer, now: int) returns (copy: VideoBuffer)
    requires input.Sized()
    ensures fresh(copy) && fresh(copy.buffer)
    ensures copy.Sized() && copy.metadata == input.metadata && copy.timestamp == now && copy.size == input.size
    ensures copy.buffer[..copy.size] == input.buffer[..input.size]
  {
    var bytes := new Byte[input.size];
    forall i | 0 <= i < input.size { bytes[i] := input.buffer[i]; }
    copy := new VideoBuffer(input.metadata, now, bytes, input.size);
    assert bytes[..input.size] == input.buffer[..input.size];
  }

  ghost function Elements(q: seq<VideoBuffer>): set<VideoBuffer> { set b | b in q }

  lemma TailOf(q: seq<VideoBuffer>)
    requires Distinct(q) && q != []
    ensures Distinct(q[1..]) && q[0] !in q[1..] && q[0] in q
    ensures forall b :: b in q <==> b == q[0] || b in q[1..]
  {
    assert q == [q[0]] + q[1..];
  }

  lemma ExtendedBy(q: seq<VideoBuffer>, c: VideoBuffer)
    requires Distinct(q) && c !in q
    ensures Distinct(q + [c])
    ensures forall b :: b in q + [c] <==> b == c || b in q
  {
    forall i | 0 <= i < |q| ensures q[i] != c { assert q[i] in q; }
  }

  type Queues = map<string, seq<VideoBuffer>>

  /** Each queue holds what it held before followed by the copies made for its event. */
  ghost predicate Grown(before: Queues, after: Queues, made: Queues) {
    && after.Keys == before.Keys
    && forall n :: n in after ==> after[n] == before[n] + if n in made then made[n] else []
  }

  lemma GrownFurther(before: Queues, middle: Queues, after: Queues, made: Queues, n: string, one: seq<VideoBuffer>)
    requires Grown(before, middle, made) && n !in made && Grown(middle, after, map[n := one])
    ensures Grown(before, after, made[n := one])
  {
  }

  /** With a queue for event `n`, empty unless there is one already. */
  ghost function WithQueue(output: Queues, n: string): Queues { if n in output then output else output[n := []] }

  /** The queue a buffer is in. */
  datatype Home = AtInput | AtOutput(n: string)

  type Homes = map<VideoBuffer, Home>

  /** The queues are disjoint, hold each buffer once, and hold exactly the buffers that have a home, none of which has
      been deleted. */
  ghost predicate Partitioned(input: seq<VideoBuffer>, output: Queues, home: Homes, deleted: set<VideoBuffer>) {
    && Distinct(input)
    && (forall n :: n in output ==> Distinct(output[n]))
    && (forall b :: b in input ==> b in home && home[b] == AtInput)
    && (forall n, b :: n in output && b in output[n] ==> b in home && home[b] == AtOutput(n))
    && (forall b :: b in home ==>
          if home[b].AtInput? then b in input else home[b].n in output && b in output[home[b].n])
    && home.Keys !! deleted
  }

  lemma WithInput(input: seq<VideoBuffer>, output: Queues, home: Homes, deleted: set<VideoBuffer>, b: VideoBuffer)
    requires Partitioned(input, output, home, deleted) && b !in home && b !in deleted
    ensures Partitioned(input + [b], output, home[b := AtInput], deleted)
  {
    ExtendedBy(input, b);
  }

  lemma WithCopy(input: seq<VideoBuffer>, output: Queues, home: Homes, deleted: set<VideoBuffer>, n: string,
                 b: VideoBuffer)
    requires Partitioned(input, output, home, deleted) && b !in home && b !in deleted && n in output
    ensures Partitioned(input, output[n := output[n] + [b]], home[b := AtOutput(n)], deleted)
  {
    ExtendedBy(output[n], b);
  }

  lemma WithoutFirst(input: seq<VideoBuffer>, output: Queues, home: Homes, deleted: set<VideoBuffer>)
    requires Partitioned(input, output, home, deleted) && input != []
    ensures input[0] in home && Partitioned(input[1..], output, home - {input[0]}, deleted)
  {
    TailOf(input);
  }

  lemma WithoutOldest(input: seq<VideoBuffer>, output: Queues, home: Homes, deleted: set<VideoBuffer>, n: string)
    requires Partitioned(input, output, home, deleted) && n in output && output[n] != []
    ensures output[n][0] in home
    ensures Partitioned(input, output[n := output[n][1..]], home - {output[n][0]}, deleted)
  {
    TailOf(output[n]);
  }

  /** The buffers queued for event `n`. */
  ghost function InQueue(output: Queues, n: string): set<VideoBuffer> {
    if n in output then Elements(output[n]) else {}
  }

  /** Without a queue and the buffers in it. */
  lemma WithoutQueue(input: seq<VideoBuffer>, output: Queues, home: Homes, deleted: set<VideoBuffer>, n: string)
    requires Partitioned(input, output, home, deleted)
    ensures var gone := InQueue(output, n);
            Partitioned(input, output - {n}, home - gone, deleted + gone)
  {
    var gone := InQueue(output, n);
    forall m, b | m in output - {n} && b in output[m] ensures b in home - gone { assert home[b] == AtOutput(m); }
    forall b | b in input ensures b in home - gone { assert home[b] == AtInput; }
  }

  // ---------------------------------------------------------------- what a queue holds, by value

  /** What the buffers hold. */
  type Contents = map<VideoBuffer, F.Frame>

  ghost function Look(c: Contents, b: VideoBuffer): F.Frame { if b in c then c[b] else F.Frame(0, 0, []) }

  ghost function Frames(q: seq<VideoBuffer>, c: Contents): seq<F.Frame> {
    seq(|q|, i requires 0 <= i < |q| => Look(c, q[i]))
  }

  ghost function QueueFrames(output: Queues, c: Contents): map<string, seq<F.Frame>> {
    map n | n in output :: Frames(output[n], c)
  }

  lemma SameFrames(q: seq<VideoBuffer>, c: Contents, c': Contents)
    requires forall b :: b in q ==> Look(c, b) == Look(c', b)
    ensures Frames(q, c) == Frames(q, c')
  {
  }

  lemma SameQueues(output: Queues, c: Contents, c': Contents)
    requires forall n, b :: n in output && b in output[n] ==> Look(c, b) == Look(c', b)
    ensures QueueFrames(output, c) == QueueFrames(output, c')
  {
    forall n | n in output ensures Frames(output[n], c) == Frames(output[n], c') { SameFrames(output[n], c, c'); }
  }

  lemma PushSeen(input: seq<VideoBuffer>, output: Queues, home: Homes, deleted: set<VideoBuffer>, c: Contents,
                 b: VideoBuffer, x: F.Frame)
    requires Partitioned(input, output, home, deleted) && b !in home
    ensures Frames(input + [b], c[b := x]) == Frames(input, c) + [x]
    ensures QueueFrames(output, c[b := x]) == QueueFrames(output, c)
  {
    SameFrames(input, c, c[b := x]);
    SameQueues(output, c, c[b := x]);
  }

  lemma InsertSeen(output: Queues, c: Contents, n: string)
    ensures QueueFrames(WithQueue(output, n), c) == V.WithQueue(QueueFrames(output, c), n)
  {
    assert Frames([], c) == [];
  }

  lemma RemoveSeen(input: seq<VideoBuffer>, output: Queues, home: Homes, deleted: set<VideoBuffer>, c: Contents,
                   n: string)
    requires Partitioned(input, output, home, deleted)
    ensures var gone := InQueue(output, n);
            && Frames(input, c - gone) == Frames(input, c)
            && QueueFrames(output - {n}, c - gone) == QueueFrames(output, c) - {n}
  {
    var gone := InQueue(output, n);
    SameFrames(input, c, c - gone);
    SameQueues(output - {n}, c, c - gone);
  }

  lemma PopSeen(input: seq<VideoBuffer>, output: Queues, home: Homes, deleted: set<VideoBuffer>, c: Contents,
                n: string)
    requires Partitioned(input, output, home, deleted) && n in output && output[n] != []
    ensures var q, v := output[n], QueueFrames(output, c);
            && Frames(input, c - {q[0]}) == Frames(input, c)
            && QueueFrames(output[n := q[1..]], c - {q[0]}) == v[n := v[n][1..]]
  {
    var q, v := output[n], QueueFrames(output, c);
    TailOf(q);
    SameFrames(input, c, c - {q[0]});
    SameQueues(output[n := q[1..]], c, c - {q[0]});
    assert Frames(q[1..], c) == Frames(q, c)[1..];
  }

  /** `c` holds the given frame, and is an object over an array that were in no queue before. */
  ghost predicate IsCopy(c: VideoBuffer, value: F.Frame, before: set<VideoBuffer>, held: Contents) {
    c !in before && (forall b :: b in before ==> b.buffer != c.buffer) && c in held && held[c] == value
  }

  /** One copy for each due event among those visited, none for the others. */
  ghost predicate RightCopies(made: Queues, value: F.Frame, info: map<string, F.Info>, frameNo: nat,
                         before: set<VideoBuffer>, held: Contents) {
    && (forall n :: n in made ==> |made[n]| == One(V.Gets(info, n, frameNo)))
    && (forall n, c :: n in made && c in made[n] ==> IsCopy(c, value, before, held))
  }

  /** Buffers that were queued still are, with the same contents. */
  ghost predicate Carries(held: Contents, held': Contents) {
    forall b :: b in held ==> b in held' && held'[b] == held[b]
  }

  lemma OneMoreCopy(made: Queues, n: string, one: seq<VideoBuffer>, value: F.Frame, info: map<string, F.Info>,
                    frameNo: nat, before: set<VideoBuffer>, held: Contents, held': Contents)
    requires RightCopies(made, value, info, frameNo, before, held) && Carries(held, held')
    requires |one| == One(V.Gets(info, n, frameNo)) && forall c :: c in one ==> IsCopy(c, value, before, held')
    ensures RightCopies(made[n := one], value, info, frameNo, before, held')
  {
    forall m, c | m in made && c in made[m] ensures IsCopy(c, value, before, held') {
      assert IsCopy(c, value, before, held);
    }
  }

  /** One queue in a round: the buffers in it keep their contents and the copy holds the stamped frame. */
  lemma QueueSeen(q: seq<VideoBuffer>, one: seq<VideoBuffer>, c: Contents, c': Contents, value: F.Frame, gets: bool)
    requires forall b :: b in q ==> Look(c, b) == Look(c', b)
    requires |one| == One(gets) && forall b :: b in one ==> Look(c', b) == value
    ensures Frames(q + one, c') == Frames(q, c) + if gets then [value] else []
  {
    SameFrames(q, c, c');
    assert one != [] ==> one[0] in one;
  }

  /** The queues of a round by value: those of the events gain what is due, and no other changes. */
  lemma OutputSeen(input: seq<VideoBuffer>, output: Queues, home: Homes, deleted: set<VideoBuffer>, c: Contents,
                  made: Queues, output': Queues, c': Contents, value: F.Frame, info: map<string, F.Info>, frameNo: nat,
                  before: set<VideoBuffer>)
    requires Partitioned(input, output, home, deleted) && input != [] && c.Keys == home.Keys
    requires Carries(c - {input[0]}, c') && Grown(output, output', made) && made.Keys == info.Keys
    requires RightCopies(made, value, info, frameNo, before, c')
    ensures QueueFrames(output', c')
              == map n | n in output :: QueueFrames(output, c)[n] + V.Gain(info, n, frameNo, value)
  {
    forall n | n in output ensures Frames(output'[n], c') == Frames(output[n], c) + V.Gain(info, n, frameNo, value) {
      var one := if n in made then made[n] else [];
      OutputCarried(input, output, home, deleted, c, c', n);
      forall b | b in one ensures Look(c', b) == value { assert IsCopy(b, value, before, c'); }
      QueueSeen(output[n], one, c, c', value, V.Gets(info, n, frameNo));
    }
  }

  lemma OutputCarried(input: seq<VideoBuffer>, output: Queues, home: Homes, deleted: set<VideoBuffer>, c: Contents,
                      c': Contents, n: string)
    requires Partitioned(input, output, home, deleted) && input != [] && c.Keys == home.Keys
    requires Carries(c - {input[0]}, c') && n in output
    ensures forall b :: b in output[n] ==> Look(c, b) == Look(c', b)
  {
    assert input[0] in input;
    forall b | b in output[n] ensures Look(c, b) == Look(c', b) { assert home[b] == AtOutput(n); }
  }

  /** The input queue of a round by value. */
  lemma InputSeen(input: seq<VideoBuffer>, output: Queues, home: Homes, deleted: set<VideoBuffer>, c: Contents,
                  c': Contents)
    requires Partitioned(input, output, home, deleted) && input != [] && c.Keys == home.Keys
    requires Carries(c - {input[0]}, c')
    ensures Frames(input[1..], c') == Frames(input, c)[1..]
  {
    TailOf(input);
    SameFrames(input[1..], c, c');
    assert Frames(input[1..], c) == Frames(input, c)[1..];
  }

  ghost function Seen(fps: nat, frameNo: nat, input: seq<VideoBuffer>, output: Queues, c: Contents,
                      info: map<string, F.Info>): V.View {
    V.View(fps, frameNo, Frames(input, c), QueueFrames(output, c), info)
  }

  /** A round by value. */
  lemma RoundSeen(fps: nat, frameNo: nat, input: seq<VideoBuffer>, output: Queues, home: Homes,
                  deleted: set<VideoBuffer>, c: Contents, made: Queues, output': Queues, c': Contents, now: int,
                  info: map<string, F.Info>, before: set<VideoBuffer>)
    requires Partitioned(input, output, home, deleted) && input != [] && c.Keys == home.Keys
    requires Carries(c - {input[0]}, c') && Grown(output, output', made) && made.Keys == info.Keys
    requires RightCopies(made, Copied(Look(c, input[0]), now), info, NextFrameNo(frameNo, fps), before, c')
    ensures Seen(fps, NextFrameNo(frameNo, fps), input[1..], output', c', info)
              == V.AfterRound(Seen(fps, frameNo, input, output, c, info), now)
  {
    var value := Copied(Look(c, input[0]), now);
    OutputSeen(input, output, home, deleted, c, made, output', c', value, info, NextFrameNo(frameNo, fps), before);
    InputSeen(input, output, home, deleted, c, c');
  }

  datatype Popped = NoEvent | Stopped | MustWait | Got(buffer: VideoBuffer)

  class VideoQueue {
    const deviceFps: nat
    var enable: bool
    var input: seq<VideoBuffer>
    var currentFrameNo: nat
    var output: Queues
    var threadInfo: map<string, ThreadInfo>
    ghost var home: map<VideoBuffer, Home>   // the buffers in the queues, each with its queue
    ghost var deleted: set<VideoBuffer>      // the buffers this object has deleted
    ghost var known: set<VideoBuffer>        // every buffer that was ever in a queue, consumers' included

    ghost predicate Partition()
      reads this`input, this`output, this`home, this`deleted
    {
      Partitioned(input, output, home, deleted)
    }

    ghost predicate Buffers()
      reads this`home, this`deleted, this`known
    {
      && home.Keys <= known && deleted <= known
      && (forall b :: b in home ==> b.Sized())
      && (forall b, c :: b in known && c in known && b != c ==> b.buffer != c.buffer)
    }

    ghost predicate Valid()
      reads this`input, this`output, this`home, this`deleted, this`known, this`threadInfo
    {
      Partition() && Buffers() && 0 < deviceFps && threadInfo.Keys <= output.Keys
    }

    /** What the registered events ask for. */
    ghost function Infos(): map<string, F.Info>
      reads this`threadInfo, threadInfo.Values
    {
      map n | n in threadInfo :: F.Info(threadInfo[n].fps, threadInfo[n].isRun)
    }

    /** What the queued buffers hold. */
    ghost function Held(): Contents
      requires Buffers()
      reads this`home, this`deleted, this`known, set b | b in home :: b.buffer
    {
      map b | b in home :: b.Value()
    }

    /** The queue by value. */
    ghost function View(): V.View
      requires Buffers()
      reads this, threadInfo.Values, set b | b in home :: b.buffer
    {
      Seen(deviceFps, currentFrameNo, input, output, Held(), Infos())
    }

    /** No event has a step of zero, by which the distributor would divide. */
    ghost predicate Steady()
      reads this`threadInfo, threadInfo.Values
    {
      forall n :: n in threadInfo ==> 0 < threadInfo[n].fps
    }

    /** A buffer that was never in a queue, over an array of its own. */
    ghost predicate Stranger(b: VideoBuffer)
      reads this`known
    {
      b !in known && forall c :: c in known ==> c.buffer != b.buffer
    }

    constructor (deviceFps: nat)
      requires 0 < deviceFps
      ensures Valid() && this.deviceFps == deviceFps && enable
      ensures input == [] && output == map[] && threadInfo == map[] && currentFrameNo == 0
      ensures home == map[] && deleted == {} && known == {}
    {
      this.deviceFps := deviceFps;
      enable := true;
      input, currentFrameNo, output, threadInfo := [], 0, map[], map[];
      home, deleted, known := map[], {}, {};
    }

    method Push(buffer: VideoBuffer) returns (ret: int)
      requires Valid() && buffer.Sized() && Stranger(buffer)
      modifies this`input, this`home, this`known
      ensures Valid() && ret == 0
      ensures input == old(input) + [buffer] && home == old(home)[buffer := AtInput] && known == old(known) + {buffer}
      ensures View() == V.AfterPush(old(View()), buffer.Value())
    {
      AddInput(buffer);
      PushSeen(old(input), output, old(home), deleted, old(Held()), buffer, buffer.Value());
      return 0;
    }

    /** Adds a new buffer to the input queue. */
    method AddInput(buffer: VideoBuffer)
      requires Valid() && buffer.Sized() && Stranger(buffer)
      modifies this`input, this`home, this`known
      ensures Valid()
      ensures input == old(input) + [buffer] && home == old(home)[buffer := AtInput] && known == old(known) + {buffer}
      ensures Held() == old(Held())[buffer := buffer.Value()]
    {
      WithInput(input, output, home, deleted, buffer);
      input := input + [buffer];
      home, known := home[buffer := AtInput], known + {buffer};
    }

    method AddQueue(name: string)
      requires Partition() && Buffers()
      modifies this`output
      ensures Partition() && Buffers()
      ensures output == WithQueue(old(output), name)
    {
      if name !in output {
        output := output[name := []];
      }
    }

    /** Turns the rate into a step and registers the event. */
    method Register(name: string, info: ThreadInfo)
      requires name !in threadInfo && 0 < info.fps
      modifies this`threadInfo, info`fps
      ensures threadInfo == old(threadInfo)[name := info] && info.fps == StepFor(deviceFps, old(info.fps))
      ensures info !in old(threadInfo).Values ==> Infos() == old(Infos())[name := F.Info(info.fps, info.isRun)]
    {
      info.fps := deviceFps / info.fps;
      threadInfo := threadInfo[name := info];
      assert forall n :: n in old(threadInfo) ==> old(threadInfo)[n] in old(threadInfo).Values;
    }

    method InsertNew(name: string, info: ThreadInfo)
      requires Valid() && name !in threadInfo && 0 < info.fps
      modifies this`threadInfo, this`output, info`fps
      ensures Valid()
      ensures threadInfo == old(threadInfo)[name := info] && info.fps == StepFor(deviceFps, old(info.fps))
      ensures output == WithQueue(old(output), name)
      ensures info !in old(threadInfo).Values ==>
                View() == V.AfterInsert(old(View()), name, old(info.fps), info.isRun)
    {
      Register(name, info);
      AddQueue(name);
      assert Held() == old(Held());
      InsertSeen(old(output), Held(), name);
    }

    /** An event that exists is left alone. A queue that is already there under the name is kept. The step is zero, and
        the queue no longer steady, exactly if more frames are asked for than the device gives. */
    method InsertEvent(name: string, info: ThreadInfo) returns (ret: int)
      requires Valid() && (name !in threadInfo ==> 0 < info.fps)
      modifies this`threadInfo, this`output, info`fps
      ensures Valid()
      ensures ret == if name in old(threadInfo) then 1 else 0
      ensures ret != 0 ==>
                threadInfo == old(threadInfo) && output == old(output) && info.fps == old(info.fps)
                && View() == old(View())
      ensures ret == 0 ==>
                && threadInfo == old(threadInfo)[name := info]
                && info.fps * old(info.fps) <= deviceFps < (info.fps + 1) * old(info.fps)
                && (0 < info.fps <==> old(info.fps) <= deviceFps)
                && output == WithQueue(old(output), name)
      ensures ret == 0 && info !in old(threadInfo).Values ==>
                View() == V.AfterInsert(old(View()), name, old(info.fps), info.isRun)
    {
      if name in threadInfo {
        return 1;
      }
      StepUsable(deviceFps, info.fps);
      StepBounds(deviceFps, info.fps);
      InsertNew(name, info);
      return 0;
    }

    /** Deletes the queued buffers of an event one by one. */
    method DeleteQueued(name: string)
      requires name in output
      modifies this`output, this`home, this`deleted
      ensures output == old(output)[name := []]
      ensures home == old(home) - Elements(old(output)[name]) && deleted == old(deleted) + Elements(old(output)[name])
    {
      ghost var q, k := output[name], 0;
      while output[name] != []
        invariant name in output && 0 <= k <= |q| && output == old(output)[name := q[k..]]
        invariant home == old(home) - Elements(q[..k]) && deleted == old(deleted) + Elements(q[..k])
        decreases |output[name]|
      {
        ghost var b := output[name][0];
        assert q[..k + 1] == q[..k] + [b];
        home, deleted := home - {b}, deleted + {b};
        output := output[name := output[name][1..]];
        k := k + 1;
      }
      assert q[..k] == q;
    }

    /** Deletes the queue of an event with everything in it, if there is one. */
    method DeleteQueue(name: string) returns (missing: bool)
      requires Partition() && Buffers()
      modifies this`output, this`home, this`deleted
      ensures Partition() && Buffers() && missing == (name !in old(output))
      ensures output == old(output) - {name}
      ensures home == old(home) - InQueue(old(output), name) && deleted == old(deleted) + InQueue(old(output), name)
      ensures Held() == old(Held()) - InQueue(old(output), name)
    {
      missing := name !in output;
      WithoutQueue(input, output, home, deleted, name);
      if missing {
        assert output - {name} == output;
      } else {
        ghost var queues := output;
        DeleteQueued(name);
        output := output - {name};
        assert output == queues - {name};
      }
    }

    /** No other event shares the information object of `name`. */
    ghost predicate Unshared(name: string)
      reads this`threadInfo
    {
      name in threadInfo ==> forall n :: n in threadInfo && threadInfo[n] == threadInfo[name] ==> n == name
    }

    /** Lowers the run flag of an event and forgets it. */
    method Unregister(name: string, info: ThreadInfo)
      requires name in threadInfo && info == threadInfo[name]
      modifies this`threadInfo, info`isRun
      ensures threadInfo == old(threadInfo) - {name} && !info.isRun
      ensures old(Unshared(name)) ==> Infos() == old(Infos()) - {name}
    {
      info.isRun := false;
      threadInfo := threadInfo - {name};
    }

    /** Forgets the event, if it is registered. */
    method Forget(name: string) returns (missing: bool)
      requires Buffers()
      modifies this`threadInfo, threadInfo.Values`isRun
      ensures Buffers() && missing == (name !in old(threadInfo)) && threadInfo == old(threadInfo) - {name}
      ensures forall i :: i in old(threadInfo).Values ==>
                i.isRun == (old(i.isRun) && !(name in old(threadInfo) && i == old(threadInfo)[name]))
      ensures old(Unshared(name)) ==> Infos() == old(Infos()) - {name}
      ensures Held() == old(Held())
    {
      missing := name !in threadInfo;
      if missing {
        assert threadInfo - {name} == threadInfo && Infos() - {name} == Infos();
      } else {
        assert threadInfo[name] in old(threadInfo).Values;
        Unregister(name, threadInfo[name]);
      }
    }

    /** Deletes what is queued for the event, then forgets it. */
    method RemoveEvent(name: string) returns (ret: int)
      requires Valid()
      modifies this`threadInfo, this`output, this`home, this`deleted, threadInfo.Values`isRun
      ensures Valid()
      ensures ret == if name !in old(threadInfo) then 1 else if name !in old(output) then 2 else 0
      ensures threadInfo == old(threadInfo) - {name} && output == old(output) - {name}
      ensures forall i :: i in old(threadInfo).Values ==>
                i.isRun == (old(i.isRun) && !(name in old(threadInfo) && i == old(threadInfo)[name]))
      ensures home == old(home) - InQueue(old(output), name) && deleted == old(deleted) + InQueue(old(output), name)
      ensures old(Unshared(name)) ==> View() == V.AfterRemove(old(View()), name)
    {
      RemoveSeen(input, output, home, deleted, Held(), name);
      var queueFlag := DeleteQueue(name);
      var infoFlag := Forget(name);
      return if infoFlag then 1 else if queueFlag then 2 else 0;
    }

    /** Takes the oldest buffer out of an event's queue. */
    method TakeFrom(n: string)
      requires Partition() && Buffers() && n in output && output[n] != []
      modifies this`output, this`home
      ensures Partition() && Buffers()
      ensures output == old(output)[n := old(output)[n][1..]] && home == old(home) - {old(output)[n][0]}
      ensures Held() == old(Held()) - {old(output)[n][0]}
    {
      ghost var b := output[n][0];
      WithoutOldest(input, output, home, deleted, n);
      output := output[n := output[n][1..]];
      home := home - {b};
    }

    /** Forgets the event but not its queue. */
    method Disconnect(name: string)
      requires Buffers()
      modifies this`threadInfo
      ensures Buffers() && threadInfo == old(threadInfo) - {name}
      ensures Infos() == old(Infos()) - {name} && Held() == old(Held())
    {
      threadInfo := threadInfo - {name};
    }

    /** One pass of `pop`. `MustWait` is where the caller would sleep until a copy arrives; nothing changes then. An
        event that is not running is forgotten, but its queue stays. */
    method Pop(name: string) returns (r: Popped)
      requires Valid()
      modifies this`output, this`threadInfo, this`home
      ensures Valid()
      ensures r.NoEvent? <==> name !in old(threadInfo)
      ensures r.Stopped? <==> name in old(threadInfo) && !old(threadInfo)[name].isRun
      ensures r.MustWait? <==> name in old(threadInfo) && old(threadInfo)[name].isRun && old(output)[name] == []
      ensures threadInfo == if r.Stopped? then old(threadInfo) - {name} else old(threadInfo)
      ensures r.Got? ==>
                && r.buffer == old(output)[name][0]
                && output == old(output)[name := old(output)[name][1..]]
                && home == old(home) - {r.buffer}
      ensures !r.Got? ==> output == old(output) && home == old(home)
      ensures r.Got? ==>
                && View() == V.AfterPop(old(View()), name)
                && r.buffer.Sized() && r.buffer.Value() == old(View()).output[name][0]
      ensures r.Stopped? ==> View() == V.AfterStop(old(View()), name)
      ensures r.NoEvent? || r.MustWait? ==> View() == old(View())
    {
      if name !in threadInfo || name !in output {
        return NoEvent;
      }
      if threadInfo[name].isRun && output[name] == [] {
        return MustWait;
      }
      if !threadInfo[name].isRun {
        Disconnect(name);
        return Stopped;
      }
      var ret := output[name][0];
      PopSeen(input, output, home, deleted, Held(), name);
      TakeFrom(name);
      return Got(ret);
    }

    /** Adds a new buffer to the queue of a registered event. */
    method Append(n: string, copy: VideoBuffer)
      requires Partition() && Buffers() && n in output && copy.Sized() && Stranger(copy)
      modifies this`output, this`home, this`known
      ensures Partition() && Buffers() && output == old(output)[n := old(output)[n] + [copy]]
      ensures home == old(home)[copy := AtOutput(n)] && known == old(known) + {copy}
      ensures Held() == old(Held())[copy := copy.Value()]
    {
      WithCopy(input, output, home, deleted, n, copy);
      output := output[n := output[n] + [copy]];
      home, known := home[copy := AtOutput(n)], known + {copy};
    }

    /** Takes the oldest frame off the input queue. */
    method TakeInput() returns (b: VideoBuffer)
      requires Partition() && Buffers() && input != []
      modifies this`input, this`home
      ensures Partition() && Buffers()
      ensures b == old(input)[0] && input == old(input)[1..] && home == old(home) - {b}
      ensures b.Sized() && b !in home && b in known && b !in deleted
      ensures Held() == old(Held()) - {b}
    {
      b := input[0];
      WithoutFirst(input, output, home, deleted);
      input := input[1..];
      home := home - {b};
    }

    /** Gives event `n` its copy of the frame in hand if it is due; `made` holds the copy. */
    method Serve(n: string, frame: VideoBuffer, now: int, ghost value: F.Frame) returns (ghost made: seq<VideoBuffer>)
      requires Partition() && Buffers() && n in threadInfo && n in output && 0 < threadInfo[n].fps
      requires frame.Sized() && frame !in home && frame in known && value == Copied(frame.Value(), now)
      modifies this`output, this`home, this`known
      ensures Partition() && Buffers() && frame !in home && old(known) <= known
      ensures output == old(output)[n := old(output)[n] + made] && |made| == One(V.Gets(Infos(), n, currentFrameNo))
      ensures Carries(old(Held()), Held()) && forall c :: c in made ==> IsCopy(c, value, old(known), Held())
    {
      made := [];
      if currentFrameNo % threadInfo[n].fps == 0 {
        var copy := CopyBuffer(frame, now);
        if n in output {
          Append(n, copy);
          made := [copy];
        }
      }
      assert output[n] == old(output)[n] + made;
    }

    /** Visits one more event. */
    method Visit(n: string, frame: VideoBuffer, now: int, ghost value: F.Frame,
                 ghost made: Queues, ghost before: set<VideoBuffer>)
      returns (ghost made': Queues)
      requires Valid() && Steady() && n in threadInfo && n !in made
      requires frame.Sized() && frame !in home && frame in known && value == Copied(frame.Value(), now)
      requires before <= known && RightCopies(made, value, Infos(), currentFrameNo, before, Held())
      modifies this`output, this`home, this`known
      ensures Valid() && Steady() && frame !in home && before <= known && old(known) <= known
      ensures n in made' && made' == made[n := made'[n]]
      ensures RightCopies(made', value, Infos(), currentFrameNo, before, Held()) && Carries(old(Held()), Held())
      ensures Grown(old(output), output, map[n := made'[n]])
    {
      ghost var one := Serve(n, frame, now, value);
      OneMoreCopy(made, n, one, value, Infos(), currentFrameNo, before, old(Held()), Held());
      made' := made[n := one];
    }

    /** Visits every registered event once, in any order. */
    method ServeAll(frame: VideoBuffer, now: int, ghost value: F.Frame)
      returns (ghost made: Queues)
      requires Valid() && Steady() && frame.Sized() && frame !in home && frame in known
      requires value == Copied(frame.Value(), now)
      modifies this`output, this`home, this`known
      ensures Valid() && Steady() && frame !in home && old(known) <= known
      ensures made.Keys == threadInfo.Keys && Grown(old(output), output, made)
      ensures RightCopies(made, value, Infos(), currentFrameNo, old(known), Held()) && Carries(old(Held()), Held())
    {
      made := map[];
      var todo := threadInfo.Keys;
      while todo != {}
        invariant forall n :: n in threadInfo <==> n in made || n in todo
        invariant forall n :: n in made ==> n !in todo
        invariant Valid() && Steady() && frame !in home && old(known) <= known
        invariant Grown(old(output), output, made)
        invariant RightCopies(made, value, Infos(), currentFrameNo, old(known), Held()) && Carries(old(Held()), Held())
        decreases todo
      {
        var n :| n in todo;
        ghost var queues, visited := output, made;
        made := Visit(n, frame, now, value, made, old(known));
        GrownFurther(old(output), queues, output, visited, n, made[n]);
        todo := todo - {n};
      }
    }

    /** Takes the oldest frame and gives it the next number. */
    method NextFrame() returns (frame: VideoBuffer)
      requires Valid() && input != []
      modifies this`input, this`home, this`currentFrameNo
      ensures Valid() && frame == old(input)[0] && frame !in home
      ensures frame.Sized() && frame in known && frame !in deleted
      ensures input == old(input)[1..] && currentFrameNo == NextFrameNo(old(currentFrameNo), deviceFps)
      ensures home == old(home) - {frame} && Held() == old(Held()) - {frame}
    {
      ghost var held := Held();
      CountFrame();
      assert Held() == held;
      frame := TakeInput();
    }

    method CountFrame()
      modifies this`currentFrameNo
      ensures currentFrameNo == NextFrameNo(old(currentFrameNo), deviceFps)
    {
      currentFrameNo := currentFrameNo + 1;
      if currentFrameNo > deviceFps {
        currentFrameNo := 1;
      }
    }

    /** Deletes a buffer that is in no queue. */
    method Discard(frame: VideoBuffer)
      requires Partition() && Buffers() && frame !in home && frame in known
      modifies this`deleted
      ensures Partition() && Buffers() && deleted == old(deleted) + {frame} && Held() == old(Held())
    {
      deleted := deleted + {frame};
    }

    /** Takes a frame and serves the events with it. */
    method TakeAndServe(now: int) returns (frame: VideoBuffer, ghost made: Queues, ghost value: F.Frame)
      requires Valid() && Steady() && input != []
      modifies this`input, this`output, this`currentFrameNo, this`home, this`known
      ensures Valid() && Steady() && frame == old(input)[0] && frame.Sized() && frame !in home && frame in known
      ensures input == old(input)[1..] && currentFrameNo == NextFrameNo(old(currentFrameNo), deviceFps)
      ensures made.Keys == threadInfo.Keys && Grown(old(output), output, made)
      ensures value == Copied(old(frame.Value()), now)
      ensures RightCopies(made, value, Infos(), currentFrameNo, old(known), Held())
      ensures Carries(old(Held()) - {frame}, Held())
    {
      value := Copied(input[0].Value(), now);
      frame := NextFrame();
      made := ServeAll(frame, now, value);
    }

    /** Takes a frame, serves the events with it and deletes it. */
    method Iterate(now: int) returns (ghost made: Queues, ghost value: F.Frame)
      requires Valid() && Steady() && input != []
      modifies this`input, this`output, this`currentFrameNo, this`home, this`deleted, this`known
      ensures Valid() && Steady() && old(input)[0].Sized() && deleted == old(deleted) + {old(input)[0]}
      ensures input == old(input)[1..] && currentFrameNo == NextFrameNo(old(currentFrameNo), deviceFps)
      ensures made.Keys == threadInfo.Keys && Grown(old(output), output, made)
      ensures value == Copied(old(input[0].Value()), now)
      ensures RightCopies(made, value, Infos(), currentFrameNo, old(known), Held())
      ensures Carries(old(Held()) - {old(input)[0]}, Held())
    {
      var frame;
      frame, made, value := TakeAndServe(now);
      Discard(frame);
    }

    /** One iteration that has found a frame: the frame is numbered, each event whose step divides the number gets
        a copy, and the frame itself is deleted. */
    method Distribute(now: int) returns (ghost made: Queues, ghost value: F.Frame)
      requires Valid() && Steady() && input != []
      modifies this`input, this`output, this`currentFrameNo, this`home, this`deleted, this`known
      ensures Valid() && Steady() && old(input)[0].Sized() && deleted == old(deleted) + {old(input)[0]}
      ensures input == old(input)[1..] && currentFrameNo == NextFrameNo(old(currentFrameNo), deviceFps)
      ensures made.Keys == threadInfo.Keys && Grown(old(output), output, made)
      ensures value == Copied(old(input[0].Value()), now)
      ensures RightCopies(made, value, Infos(), currentFrameNo, old(known), Held())
      ensures View() == V.AfterRound(old(View()), now)
    {
      made, value := Iterate(now);
      RoundSeen(deviceFps, old(currentFrameNo), old(input), old(output), old(home), old(deleted), old(Held()), made,
                output, Held(), now, Infos(), old(known));
      assert Infos() == old(Infos());
      assert old(View()) == Seen(deviceFps, old(currentFrameNo), old(input), old(output), old(Held()), Infos());
    }

    /** Each buffer made has the fields of the original except for the stamp, the given bytes, and an array that no
        buffer had before. */
    static ghost predicate Duplicates(made: Queues, original: VideoBuffer, bytes: seq<Byte>, now: int,
                                      before: set<VideoBuffer>)
      reads set n, c | n in made && c in made[n] :: c.buffer
    {
      forall n, c :: n in made && c in made[n] ==>
        && c !in before && (forall b :: b in before ==> b.buffer != c.buffer)
        && c.metadata == original.metadata && c.timestamp == now && c.size == original.size
        && c.size <= c.buffer.Length && c.buffer[..c.size] == bytes
    }

    /** Every registered event has got one exactly if its step divides the number of the frame. */
    ghost predicate OnlyDue(made: Queues)
      reads this`threadInfo, this`currentFrameNo, threadInfo.Values
    {
      && made.Keys == threadInfo.Keys
      && forall n :: n in threadInfo ==>
           0 < threadInfo[n].fps && |made[n]| == if currentFrameNo % threadInfo[n].fps == 0 then 1 else 0
    }

    lemma MadeExactly(made: Queues, value: F.Frame, before: set<VideoBuffer>, original: VideoBuffer, bytes: seq<Byte>,
                      now: int)
      requires Buffers() && RightCopies(made, value, Infos(), currentFrameNo, before, Held())
      requires value == F.Frame(original.metadata, now, bytes) && |bytes| == original.size
      ensures Duplicates(made, original, bytes, now, before)
    {
      forall n, c | n in made && c in made[n]
        ensures c !in before && (forall b :: b in before ==> b.buffer != c.buffer)
        ensures c.metadata == original.metadata && c.timestamp == now && c.size == original.size
        ensures c.size <= c.buffer.Length && c.buffer[..c.size] == bytes
      {
        assert IsCopy(c, value, before, Held());
        assert c in home && c.Value() == value;
      }
    }

    lemma MadeWhenDue(made: Queues, value: F.Frame, before: set<VideoBuffer>)
      requires Steady() && Buffers() && made.Keys == threadInfo.Keys
      requires RightCopies(made, value, Infos(), currentFrameNo, before, Held())
      ensures OnlyDue(made)
    {
      forall n | n in threadInfo
        ensures n in made && |made[n]| == if currentFrameNo % threadInfo[n].fps == 0 then 1 else 0
      {
        assert n in made && Infos()[n].step == threadInfo[n].fps;
      }
    }

    /** The same, with the copies field by field. */
    method DistributeExactly(now: int) returns (ghost made: Queues)
      requires Valid() && Steady() && input != []
      modifies this`input, this`output, this`currentFrameNo, this`home, this`deleted, this`known
      ensures Valid() && Steady() && old(input)[0].Sized() && deleted == old(deleted) + {old(input)[0]}
      ensures input == old(input)[1..] && currentFrameNo == NextFrameNo(old(currentFrameNo), deviceFps)
      ensures Grown(old(output), output, made) && OnlyDue(made)
      ensures Duplicates(made, old(input)[0], old(input[0].buffer[..input[0].size]), now, old(known))
      ensures View() == V.AfterRound(old(View()), now)
    {
      ghost var value;
      made, value := Distribute(now);
      MadeExactly(made, value, old(known), old(input)[0], old(input[0].buffer[..input[0].size]), now);
      MadeWhenDue(made, value, old(known));
    }

    /** One turn of the loop of `distribute_buffer`: nothing happens while the queue is empty or disabled. */
    method DistributeBuffer(now: int) returns (took: bool, ghost made: Queues)
      requires Valid() && Steady()
      modifies this`input, this`output, this`currentFrameNo, this`home, this`deleted, this`known
      ensures Valid() && Steady() && (took <==> enable && old(input) != [])
      ensures !took ==> input == old(input) && output == old(output) && currentFrameNo == old(currentFrameNo)
                        && home == old(home) && deleted == old(deleted) && known == old(known)
      ensures took ==>
                && old(input)[0].Sized() && deleted == old(deleted) + {old(input)[0]}
                && input == old(input)[1..] && currentFrameNo == NextFrameNo(old(currentFrameNo), deviceFps)
                && Grown(old(output), output, made) && OnlyDue(made)
                && Duplicates(made, old(input)[0], old(input[0].buffer[..input[0].size]), now, old(known))
      ensures View() == if took then V.AfterRound(old(View()), now) else old(View())
    {
      made := map[];
      took := enable && input != [];
      if took {
        made := DistributeExactly(now);
      }
    }

    /** The destructor stops the distributors. */
    method Shutdown()
      requires Valid()
      modifies this`enable
      ensures Valid() && !enable
    {
      enable := false;
    }
  }
}
