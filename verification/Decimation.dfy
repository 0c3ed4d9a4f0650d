/** Which frames an event receives. The queue numbers frames 1..deviceFps over and over and hands an event
    every frame whose number is a multiple of the event's step. */
module Decimation {
  import opened Arithmetic
  import opened Basics

  /** The step computed when an event registers. */
  function StepFor(deviceFps: nat, fps: nat): nat
    requires 0 < fps
  {
    deviceFps / fps
  }

  /** The number that follows `cur`. */
  function NextFrameNo(cur: nat, deviceFps: nat): nat {
    if cur + 1 > deviceFps then 1 else cur + 1
  }

  /** The number of the frame at position `i` (from 0) of the stream, for a counter that starts fresh. */
  function FrameNo(deviceFps: nat, i: nat): nat
    requires 0 < deviceFps
  {
    i % deviceFps + 1
  }

  lemma NextIsFrameNo(deviceFps: nat, i: nat)
    requires 0 < deviceFps
    ensures NextFrameNo(0, deviceFps) == FrameNo(deviceFps, 0)
    ensures NextFrameNo(FrameNo(deviceFps, i), deviceFps) == FrameNo(deviceFps, i + 1)
  {
    DivStep(deviceFps, i);
    assert 0 % deviceFps == 0;
  }

  /** Whether the frame at position `i` goes to an event with step `k`. */
  predicate Selected(deviceFps: nat, k: nat, i: nat)
    requires 0 < deviceFps && 0 < k
  {
    FrameNo(deviceFps, i) % k == 0
  }

  /** How many of the first `n` frames go to an event with step `k`. */
  function Copies(deviceFps: nat, k: nat, n: nat): nat
    requires 0 < deviceFps && 0 < k
  {
    if n == 0 then 0 else Copies(deviceFps, k, n - 1) + One(Selected(deviceFps, k, n - 1))
  }

  /** The closed form: full cycles of the frame counter, and the started one. */
  lemma {:induction false} CopiesClosedForm(deviceFps: nat, k: nat, n: nat)
    requires 0 < deviceFps && 0 < k
    ensures Copies(deviceFps, k, n) == (n / deviceFps) * (deviceFps / k) + (n % deviceFps) / k
  {
    var d := deviceFps;
    if n == 0 {
      DivUnique(d, 0, 0, 0);
      DivUnique(k, 0, 0, 0);
    } else {
      var i := n - 1;
      CopiesClosedForm(d, k, i);
      DivStep(d, i);
      var r := i % d;
      DivStep(k, r);
      assert FrameNo(d, i) == r + 1;
      if r + 1 == d {
        Distribute(i / d, d / k);
        DivUnique(k, 0, 0, 0);
      }
    }
  }

  /** A full cycle brings an event at least the rate it asked for, less than twice that rate, and exactly
      that rate if and only if the remainder of the division by the rate is smaller than the step. */
  lemma CycleBounds(deviceFps: nat, fps: nat)
    requires 1 <= fps <= deviceFps
    ensures var k := StepFor(deviceFps, fps);
            && 0 < k
            && Copies(deviceFps, k, deviceFps) == deviceFps / k
            && fps <= deviceFps / k <= 2 * fps - 1
            && (deviceFps / k == fps <==> deviceFps % fps < k)
  {
    var d, f := deviceFps, fps;
    var k := d / f;
    DivAtLeast(d, f, 1) by { assert 1 * f == f; }
    CopiesClosedForm(d, k, d);
    DivUnique(d, d, 1, 0);
    DivUnique(k, 0, 0, 0);
    DivBounds(d, f);
    QuotientBounds(d, f, k, d % f);
  }

  lemma QuotientBounds(d: nat, f: nat, k: nat, r: nat)
    requires 0 < k && r < f && d == k * f + r
    ensures f <= d / k <= 2 * f - 1
    ensures d / k == f <==> r < k
  {
    var fk := f * k;
    assert d == fk + r;
    DivAtLeast(d, k, f);
    assert f <= fk by { MulMono(1, k, f); }
    assert (2 * f) * k == 2 * fk;
    DivBelow(d, k, 2 * f);
    assert (f + 1) * k == fk + k;
    if r < k { DivBelow(d, k, f + 1); } else { DivAtLeast(d, k, f + 1); }
  }

  /** The step is the largest number of which the rate fits into that of the device. */
  lemma StepBounds(deviceFps: nat, fps: nat)
    requires 0 < fps
    ensures var k := StepFor(deviceFps, fps); k * fps <= deviceFps < (k + 1) * fps
  {
    DivBounds(deviceFps, fps);
  }

  /** Outside that range the step is unusable: the distributor would divide by zero. */
  lemma StepUsable(deviceFps: nat, fps: nat)
    requires 0 < fps
    ensures 0 < StepFor(deviceFps, fps) <==> fps <= deviceFps
  {
    if fps <= deviceFps { DivAtLeast(deviceFps, fps, 1); } else { DivBelow(deviceFps, fps, 1); }
  }
}
