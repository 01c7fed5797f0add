/** The mixing process of the capture pipeline (`prepare_audio`): it reads
    messages from the capture pipe, turns every data chunk into a mono
    16 kHz contribution, sums the contributions of one time slice in an
    int32 accumulator and, at the end of each slice, writes the average
    of the accumulator, clipped to int16, to the wav file. */
module Mixer {

  import opened Results
  import opened Pcm
  import Arith

  /** Sample rate of the written wav file. */
  const TargetRate: nat := 16000

  /** Control markers sent in place of the byte payload. */
  const SliceEndMarker: int := -6
  const StreamEndMarker: int := -5

  /** One message on the pipe: `(bytes, rate, channels)`, `((-6,),)` or `((-5,),)`. */
  datatype Message =
    | Data(payload: seq<byte>, rate: nat, channels: nat)
    | SliceEnd
    | StreamEnd

  /** The exceptions that end the mixing process early. */
  datatype MixError =
    | EmptyPayload                         // in_data[0][0] on an empty byte string
    | NotAudio                             // a non-bytes payload given to frombuffer
    | OddByteCount                         // frombuffer on an odd number of bytes
    | ZeroSliceStep                        // a slice with step 0 (0 channels, or rate 0)
    | ShapeMismatch(left: nat, right: nat) // numpy operands that do not broadcast

  /** What the `match in_data[0][0]` of the mixing loop selects. */
  datatype Action = Stop | Flush | Accumulate

  /** `in_data[0][0]`: the first byte of a data chunk, or the marker itself. */
  function Head(m: Message): Result<int, MixError>
  {
    match m
    case Data(p, _, _) => if |p| == 0 then Err(EmptyPayload) else Ok(p[0] as int)
    case SliceEnd => Ok(SliceEndMarker)
    case StreamEnd => Ok(StreamEndMarker)
  }

  function Classify(head: int): Action
  {
    if head == StreamEndMarker then Stop
    else if head == SliceEndMarker then Flush
    else Accumulate
  }

  /** The in-band markers are unambiguous: a data chunk's first element is a
      byte, so it never reads as a marker, and each marker selects its own
      case. */
  lemma DispatchIsUnambiguous(m: Message)
    ensures m.Data? && m.payload != [] ==> Head(m).Ok? && Classify(Head(m).value) == Accumulate
    ensures m.Data? && m.payload == [] ==> Head(m) == Err(EmptyPayload)
    ensures m.SliceEnd? ==> Classify(Head(m).value) == Flush
    ensures m.StreamEnd? ==> Classify(Head(m).value) == Stop
  {
  }

  // ---------------------------------------------------------------------
  // numpy slicing and broadcasting

  /** Length of `s[start::step]` for a sequence of length n. */
  function LaneLength(n: nat, start: nat, step: nat): nat
    requires step >= 1
  {
    if start >= n then 0 else (n - start + step - 1) / step
  }

  lemma LaneIndexInRange(n: nat, start: nat, step: nat, j: nat)
    requires step >= 1
    requires j < LaneLength(n, start, step)
    ensures start + j * step < n
  {
    Arith.BelowCeil(n - start, step, j);
  }

  /** `s[start::step]` for a positive step. */
  function Slice(s: seq<int>, start: nat, step: nat): (r: seq<int>)
    requires step >= 1
    ensures |r| == LaneLength(|s|, start, step)
  {
    seq(LaneLength(|s|, start, step), j requires 0 <= j < LaneLength(|s|, start, step) =>
      LaneIndexInRange(|s|, start, step, j); s[start + j * step])
  }

  /** `s[start::step]` holds exactly the elements whose index is at least
      start and congruent to start modulo step, in order. */
  lemma SliceIsResidueClass(s: seq<int>, start: nat, step: nat)
    requires step >= 1
    ensures forall j :: 0 <= j < |Slice(s, start, step)| ==>
      start + j * step < |s| && Slice(s, start, step)[j] == s[start + j * step]
    ensures forall i :: start <= i < |s| && (i - start) % step == 0 ==>
      (i - start) / step < |Slice(s, start, step)| && Slice(s, start, step)[(i - start) / step] == s[i]
  {
    var r := Slice(s, start, step);
    forall j | 0 <= j < |r| ensures start + j * step < |s| && r[j] == s[start + j * step] {
      LaneIndexInRange(|s|, start, step, j);
    }
    forall i | start <= i < |s| && (i - start) % step == 0
      ensures (i - start) / step < |r| && r[(i - start) / step] == s[i]
    {
      ResidueIndex(|s|, start, step, i);
    }
  }

  /** Index i of a residue class starting at `start` is entry (i - start) / step of its lane. */
  lemma ResidueIndex(n: nat, start: nat, step: nat, i: nat)
    requires step >= 1 && start <= i < n && (i - start) % step == 0
    ensures (i - start) / step < LaneLength(n, start, step)
    ensures start + (i - start) / step * step == i
  {
    var j := (i - start) / step;
    assert j * step == i - start by {
      Arith.DivBounds(i - start, step);
    }
    Arith.BelowCeil(n - start, step, j);
  }

  /** `a + b` on int32 arrays: elementwise when the lengths agree, with a
      length-1 operand repeated against the other, an error otherwise; every
      sum wraps around as int32 arithmetic does. */
  function Broadcast(a: seq<int>, b: seq<int>): (r: Result<seq<int>, MixError>)
    ensures r.Ok? <==> |a| == |b| || |a| == 1 || |b| == 1
    ensures r.Ok? ==> |r.value| == (if |a| == 1 then |b| else |a|) && AllInt32(r.value)
    ensures r.Ok? && |a| == |b| ==> forall i :: 0 <= i < |a| ==> r.value[i] == Wrap32(a[i] + b[i])
    ensures r.Ok? && |a| == 1 ==> forall i :: 0 <= i < |b| ==> r.value[i] == Wrap32(a[0] + b[i])
    ensures r.Ok? && |a| != |b| && |a| != 1 ==> forall i :: 0 <= i < |a| ==> r.value[i] == Wrap32(a[i] + b[0])
  {
    if |a| == |b| then Ok(seq(|a|, i requires 0 <= i < |a| => Wrap32(a[i] + b[i])))
    else if |a| == 1 then Ok(seq(|b|, i requires 0 <= i < |b| => Wrap32(a[0] + b[i])))
    else if |b| == 1 then Ok(seq(|a|, i requires 0 <= i < |a| => Wrap32(a[i] + b[0])))
    else Err(ShapeMismatch(|a|, |b|))
  }

  // ---------------------------------------------------------------------
  // Downmix: `temp = w[0::c]; for x in range(1, c): temp = temp + w[x::c]; w = temp // c`

  /** `temp` after the lanes 0 .. k-1 have been added. */
  function LaneSum(s: seq<int>, c: nat, k: nat): Result<seq<int>, MixError>
    requires 1 <= k <= c
    decreases k
  {
    if k == 1 then Ok(Slice(s, 0, c))
    else
      match LaneSum(s, c, k - 1)
      case Err(e) => Err(e)
      case Ok(t) => Broadcast(t, Slice(s, k - 1, c))
  }

  /** The downmix of an interleaved chunk with c channels. */
  function Downmix(s: seq<int>, c: nat): Result<seq<int>, MixError>
  {
    if c == 0 then Err(ZeroSliceStep)
    else
      match LaneSum(s, c, c)
      case Err(e) => Err(e)
      case Ok(t) => Ok(seq(|t|, i requires 0 <= i < |t| => t[i] / c))
  }

  lemma LaneSumErrorPersists(s: seq<int>, c: nat, k: nat, e: MixError)
    requires 1 <= k <= c
    requires LaneSum(s, c, k) == Err(e)
    ensures LaneSum(s, c, c) == Err(e)
    decreases c - k
  {
    if k < c {
      LaneSumErrorPersists(s, c, k + 1, e);
    }
  }

  /** The downmix loop of the mixing process. */
  method DownmixChannels(s: seq<int>, c: nat) returns (r: Result<seq<int>, MixError>)
    ensures r == Downmix(s, c)
  {
    if c == 0 {
      return Err(ZeroSliceStep);
    }
    var temp := Slice(s, 0, c);
    var x := 1;
    while x < c
      invariant 1 <= x <= c
      invariant LaneSum(s, c, x) == Ok(temp)
    {
      var next := Broadcast(temp, Slice(s, x, c));
      if next.Err? {
        LaneSumErrorPersists(s, c, x + 1, next.error);
        return Err(next.error);
      }
      temp := next.value;
      x := x + 1;
    }
    r := Ok(seq(|temp|, i requires 0 <= i < |temp| => temp[i] / c));
  }

  /** Sum of a sequence, adding from the front. */
  function Sum(s: seq<int>): int
  {
    if s == [] then 0 else Sum(s[..|s| - 1]) + s[|s| - 1]
  }

  lemma {:induction false} SumBounds(s: seq<int>)
    requires AllInt16(s)
    ensures Int16Min * |s| <= Sum(s) <= Int16Max * |s|
  {
    if s != [] {
      SumBounds(s[..|s| - 1]);
    }
  }

  lemma FrameBounds(n: nat, c: nat, i: nat)
    requires c >= 1 && i < n / c
    ensures 0 <= i * c && i * c + c <= n
  {
    Arith.MulLe(0, i, c);
    Arith.DivBounds(n, c);
    Arith.MulLe(i + 1, n / c, c);
  }

  /** Frame i of an interleaved chunk: its c channel samples. */
  function FrameAt(s: seq<int>, c: nat, i: nat): (r: seq<int>)
    requires c >= 1 && i * c + c <= |s|
    ensures |r| == c
    ensures forall x :: 0 <= x < c ==> r[x] == s[i * c + x]
  {
    Arith.MulLe(0, i, c);
    s[i * c .. i * c + c]
  }

  /** The interleaved chunk cut into frames of c samples, one per instant. */
  function Frames(s: seq<int>, c: nat): (r: seq<seq<int>>)
    requires c >= 1
    ensures |r| == |s| / c
    ensures forall i :: 0 <= i < |r| ==> |r[i]| == c
  {
    seq(|s| / c, i requires 0 <= i < |s| / c => FrameBounds(|s|, c, i); FrameAt(s, c, i))
  }

  lemma FrameOfFrames(s: seq<int>, c: nat, i: nat)
    requires c >= 1 && i < |s| / c
    ensures i * c + c <= |s| && Frames(s, c)[i] == FrameAt(s, c, i)
  {
    FrameBounds(|s|, c, i);
  }

  lemma LaneLengthOfWholeFrames(m: nat, x: nat, c: nat)
    requires c >= 1 && x < c
    ensures LaneLength(m * c, x, c) == m
  {
    if m > 0 {
      Arith.MulLe(1, m, c);
      assert m * c - x + c - 1 == m * c + (c - 1 - x);
      Arith.DivOfMulAdd(m, c, c - 1 - x);
    }
  }

  /** Adding the k-th channel sample to the sum of the first k-1 stays in
      int32 range, so the wrap-around never applies. */
  lemma SumStep(f: seq<int>, k: nat)
    requires 1 <= k <= |f| <= 0x1_0000 && AllInt16(f)
    ensures Wrap32(Sum(f[..k - 1]) + f[k - 1]) == Sum(f[..k])
  {
    assert f[..k][..k - 1] == f[..k - 1];
    assert AllInt16(f[..k]);
    SumBounds(f[..k]);
    Arith.MulLe(k, 0x1_0000, 0x7FFF);
  }

  /** Element i of lane x is channel x of frame i. */
  lemma LaneAtFrame(s: seq<int>, c: nat, m: nat, x: nat, i: nat)
    requires c >= 1 && x < c && i < m && |s| == m * c
    ensures i * c + c <= |s| && i < |Slice(s, x, c)|
    ensures Slice(s, x, c)[i] == FrameAt(s, c, i)[x]
  {
    Arith.MulLe(i + 1, m, c);
    LaneLengthOfWholeFrames(m, x, c);
  }

  /** Adding lane k-1 to the partial sums of the first k-1 channels gives
      the partial sums of the first k channels. */
  lemma AddLane(s: seq<int>, c: nat, k: nat, m: nat, t: seq<int>)
    requires 2 <= k <= c <= 0x1_0000 && AllInt16(s) && |s| == m * c
    requires |t| == m
    requires forall i :: 0 <= i < m ==> i * c + c <= |s| && t[i] == Sum(FrameAt(s, c, i)[..k - 1])
    ensures Broadcast(t, Slice(s, k - 1, c)).Ok?
    ensures |Broadcast(t, Slice(s, k - 1, c)).value| == m
    ensures forall i :: 0 <= i < m ==>
      i * c + c <= |s| && Broadcast(t, Slice(s, k - 1, c)).value[i] == Sum(FrameAt(s, c, i)[..k])
  {
    var lane := Slice(s, k - 1, c);
    LaneLengthOfWholeFrames(m, k - 1, c);
    var r := Broadcast(t, lane).value;
    forall i | 0 <= i < m ensures i * c + c <= |s| && r[i] == Sum(FrameAt(s, c, i)[..k]) {
      LaneAtFrame(s, c, m, k - 1, i);
      var f := FrameAt(s, c, i);
      assert AllInt16(f);
      SumStep(f, k);
    }
  }

  lemma FirstLane(s: seq<int>, c: nat, m: nat)
    requires 1 <= c && |s| == m * c
    ensures |Slice(s, 0, c)| == m
    ensures forall i :: 0 <= i < m ==> i * c + c <= |s| && Slice(s, 0, c)[i] == Sum(FrameAt(s, c, i)[..1])
  {
    LaneLengthOfWholeFrames(m, 0, c);
    forall i | 0 <= i < m ensures i * c + c <= |s| && Slice(s, 0, c)[i] == Sum(FrameAt(s, c, i)[..1]) {
      LaneAtFrame(s, c, m, 0, i);
      assert FrameAt(s, c, i)[..1][..0] == [];
    }
  }

  lemma {:induction false} LaneSumIsFrameSum(s: seq<int>, c: nat, k: nat, m: nat)
    requires 1 <= k <= c <= 0x1_0000 && AllInt16(s)
    requires |s| == m * c
    ensures LaneSum(s, c, k).Ok?
    ensures |LaneSum(s, c, k).value| == m
    ensures forall i :: 0 <= i < m ==> i * c + c <= |s| && LaneSum(s, c, k).value[i] == Sum(FrameAt(s, c, i)[..k])
    decreases k
  {
    if k == 1 {
      FirstLane(s, c, m);
    } else {
      LaneSumIsFrameSum(s, c, k - 1, m);
      AddLane(s, c, k, m, LaneSum(s, c, k - 1).value);
    }
  }

  /** With whole frames (as every device read delivers), the downmix turns
      each frame into the floor of the mean of its c channels, computed
      without overflow; one channel is passed through unchanged. */
  lemma DownmixAverages(s: seq<int>, c: nat)
    requires 1 <= c <= 0x1_0000 && |s| % c == 0 && AllInt16(s)
    ensures Downmix(s, c).Ok?
    ensures |Downmix(s, c).value| == |s| / c
    ensures forall i :: 0 <= i < |s| / c ==> Downmix(s, c).value[i] == Sum(Frames(s, c)[i]) / c
    ensures c == 1 ==> Downmix(s, c) == Ok(s)
  {
    var m := |s| / c;
    assert |s| == m * c by {
      Arith.DivBounds(|s|, c);
    }
    LaneSumIsFrameSum(s, c, c, m);
    var f := Frames(s, c);
    forall i | 0 <= i < m ensures f[i][..c] == f[i] && f[i] == FrameAt(s, c, i) {
      FrameOfFrames(s, c, i);
    }
    if c == 1 {
      var d := Downmix(s, c).value;
      forall i | 0 <= i < |s| ensures d[i] == s[i] {
        assert f[i] == [s[i]];
        assert Sum(f[i]) == Sum([]) + s[i];
      }
      assert d == s;
    }
  }

  // ---------------------------------------------------------------------
  // Decimation toward 16 kHz

  /** Number of cursor positions k * rate / 16000 below n, i.e. the length
      of `numpy.arange(0, n, rate / 16000)` computed with exact rationals. */
  function CursorLength(n: nat, rate: nat): nat
    requires rate >= 1
  {
    (TargetRate * n + rate - 1) / rate
  }

  lemma CursorIndexInRange(n: nat, rate: nat, k: nat)
    requires rate >= 1 && k < CursorLength(n, rate)
    ensures k * rate / TargetRate < n
  {
    Arith.BelowCeil(TargetRate * n, rate, k);
    Arith.DivBounds(k * rate, TargetRate);
    Arith.MulLtCancel(k * rate / TargetRate, n, TargetRate);
  }

  /** The fractional path: one uninitialised element h, then the sample at
      the integer part of every cursor position. */
  function CursorPick(s: seq<int>, rate: nat, h: int): (r: seq<int>)
    requires rate >= 1
    ensures |r| == 1 + CursorLength(|s|, rate)
  {
    [h] + seq(CursorLength(|s|, rate), k requires 0 <= k < CursorLength(|s|, rate) =>
      CursorIndexInRange(|s|, rate, k); s[k * rate / TargetRate])
  }

  /** `working_data[0::int(f)]` when f = rate / 16000 is whole, the cursor walk otherwise. */
  function Decimate(s: seq<int>, rate: nat, h: int): Result<seq<int>, MixError>
  {
    if rate % TargetRate == 0 then
      if rate / TargetRate == 0 then Err(ZeroSliceStep) else Ok(Slice(s, 0, rate / TargetRate))
    else Ok(CursorPick(s, rate, h))
  }

  /** The `for x in numpy.arange(...)` loop of the fractional path. */
  method DecimateByCursor(s: seq<int>, rate: nat, h: int) returns (r: seq<int>)
    requires rate >= 1
    ensures r == CursorPick(s, rate, h)
  {
    r := [h];
    var k := 0;
    while k * rate < TargetRate * |s|
      invariant k <= CursorLength(|s|, rate)
      invariant r == CursorPick(s, rate, h)[..k + 1]
      decreases TargetRate * |s| - k * rate
    {
      Arith.BelowCeil(TargetRate * |s|, rate, k);
      CursorIndexInRange(|s|, rate, k);
      r := r + [s[k * rate / TargetRate]];
      k := k + 1;
    }
    Arith.BelowCeil(TargetRate * |s|, rate, k);
    assert r == CursorPick(s, rate, h);
  }

  /** Integer factor f: the output is s[0], s[f], s[2f], ... and has
      ceil(n / f) samples; a two-second input at f * 16000 Hz yields exactly
      32000 samples. */
  lemma StrideDecimation(s: seq<int>, rate: nat, h: int)
    requires rate % TargetRate == 0 && rate >= TargetRate
    ensures Decimate(s, rate, h).Ok?
    ensures |Decimate(s, rate, h).value| == (|s| + rate / TargetRate - 1) / (rate / TargetRate)
    ensures forall k :: 0 <= k < |Decimate(s, rate, h).value| ==>
      k * (rate / TargetRate) < |s| && Decimate(s, rate, h).value[k] == s[k * (rate / TargetRate)]
    ensures |s| == 2 * rate ==> |Decimate(s, rate, h).value| == 2 * TargetRate
  {
    var f := rate / TargetRate;
    Arith.DivBounds(rate, TargetRate);
    assert f >= 1;
    var d := Slice(s, 0, f);
    assert Decimate(s, rate, h) == Ok(d);
    SliceIsResidueClass(s, 0, f);
    if |s| == 2 * rate {
      assert rate == f * TargetRate;
      assert |s| + f - 1 == (2 * TargetRate) * f + (f - 1);
      Arith.DivOfMulAdd(2 * TargetRate, f, f - 1);
    }
  }

  /** Fractional factor: one leading uninitialised element, then one sample
      per cursor position k * rate / 16000 below n; every index taken is in
      bounds and the indices never decrease. */
  lemma CursorDecimation(s: seq<int>, rate: nat, h: int)
    requires rate % TargetRate != 0
    ensures Decimate(s, rate, h).Ok?
    ensures |Decimate(s, rate, h).value| == 1 + CursorLength(|s|, rate)
    ensures Decimate(s, rate, h).value[0] == h
    ensures forall k :: 0 <= k < CursorLength(|s|, rate) ==>
      k * rate < TargetRate * |s| && k * rate / TargetRate < |s| &&
      Decimate(s, rate, h).value[k + 1] == s[k * rate / TargetRate]
    ensures forall k, j :: 0 <= k <= j < CursorLength(|s|, rate) ==>
      k * rate / TargetRate <= j * rate / TargetRate
  {
    forall k | 0 <= k < CursorLength(|s|, rate)
      ensures k * rate < TargetRate * |s| && k * rate / TargetRate < |s|
    {
      Arith.BelowCeil(TargetRate * |s|, rate, k);
      CursorIndexInRange(|s|, rate, k);
    }
    forall k, j | 0 <= k <= j < CursorLength(|s|, rate)
      ensures k * rate / TargetRate <= j * rate / TargetRate
    {
      Arith.MulLe(k, j, rate);
      Arith.DivMono(k * rate, j * rate, TargetRate);
    }
  }

  // ---------------------------------------------------------------------
  // One data chunk

  /** What one data chunk adds to the accumulator: decode, downmix, decimate. */
  function Contribution(m: Message, h: int): Result<seq<int>, MixError>
  {
    match m
    case Data(p, rate, c) =>
      (match DecodeInt16(p)
       case None => Err(OddByteCount)
       case Some(w) =>
         match Downmix(w, c)
         case Err(e) => Err(e)
         case Ok(mono) => Decimate(mono, rate, h))
    case _ => Err(NotAudio)
  }

  method ProcessChunk(m: Message, h: int) returns (r: Result<seq<int>, MixError>)
    ensures r == Contribution(m, h)
  {
    if !m.Data? {
      return Err(NotAudio);
    }
    var w := DecodeInt16(m.payload);
    if w.None? {
      return Err(OddByteCount);
    }
    var mono := DownmixChannels(w.value, m.channels);
    if mono.Err? {
      return mono;
    }
    if m.rate % TargetRate == 0 {
      if m.rate / TargetRate == 0 {
        return Err(ZeroSliceStep);
      }
      r := Ok(Slice(mono.value, 0, m.rate / TargetRate));
    } else {
      var picked := DecimateByCursor(mono.value, m.rate, h);
      r := Ok(picked);
    }
  }

  // ---------------------------------------------------------------------
  // Slice flush

  /** numpy.clip. */
  function Clamp(x: int, lo: int, hi: int): (r: int)
    requires lo <= hi
    ensures lo <= r <= hi
    ensures lo <= x <= hi ==> r == x
    ensures x < lo ==> r == lo
    ensures x > hi ==> r == hi
  {
    if x < lo then lo else if x > hi then hi else x
  }

  /** numpy floor division of an int32 by a count; numpy gives 0 for a zero divisor. */
  function FloorDiv(x: int, d: nat): int
  {
    if d == 0 then 0 else x / d
  }

  /** The frames a flush writes: the accumulator divided by the number of
      devices, clipped to int16. */
  function FlushFrames(acc: seq<int>, numInputs: nat): (r: seq<int>)
    ensures |r| == |acc| && AllInt16(r)
    ensures forall i :: 0 <= i < |acc| ==> r[i] == Clamp(FloorDiv(acc[i], numInputs), Int16Min, Int16Max)
  {
    seq(|acc|, i requires 0 <= i < |acc| => Clamp(FloorDiv(acc[i], numInputs), Int16Min, Int16Max))
  }

  // ---------------------------------------------------------------------
  // The message loop

  /** How the mixing process ended: at a `-5` marker, because no message
      arrived within the poll timeout, or by an exception. */
  datatype Status = StreamEnded | TimedOut | Crashed(error: MixError)

  /** Frames written to the wav file, and how the process ended. */
  datatype MixRun = MixRun(frames: seq<int>, status: Status)

  /** The number of devices, and the values that the uninitialised numpy
      arrays hold: g for the fresh accumulator, h for the first element of
      the fractional-path array. */
  datatype Config = Config(numInputs: nat, g: int, h: int)

  /** The mixing process from the given accumulator on the messages still to come. */
  function Run(msgs: seq<Message>, acc: seq<int>, cfg: Config): MixRun
    decreases |msgs|
  {
    if msgs == [] then MixRun([], TimedOut)
    else
      match Head(msgs[0])
      case Err(e) => MixRun([], Crashed(e))
      case Ok(head) =>
        match Classify(head)
        case Stop => MixRun([], StreamEnded)
        case Flush =>
          var rest := Run(msgs[1..], [cfg.g], cfg);
          MixRun(FlushFrames(acc, cfg.numInputs) + rest.frames, rest.status)
        case Accumulate =>
          match Contribution(msgs[0], cfg.h)
          case Err(e) => MixRun([], Crashed(e))
          case Ok(w) =>
            match Broadcast(acc, w)
            case Err(e) => MixRun([], Crashed(e))
            case Ok(next) => Run(msgs[1..], next, cfg)
  }

  /** `prepare_audio`: the wav file's frames and how the loop ended. */
  method PrepareAudio(msgs: seq<Message>, numInputs: nat, g: int, h: int)
    returns (frames: seq<int>, status: Status)
    ensures MixRun(frames, status) == Run(msgs, [g], Config(numInputs, g, h))
    ensures AllInt16(frames)
  {
    var cfg := Config(numInputs, g, h);
    var acc := [g];
    frames := [];
    var i := 0;
    while i < |msgs|
      invariant 0 <= i <= |msgs|
      invariant AllInt16(frames)
      invariant Run(msgs, [g], cfg) == MixRun(frames + Run(msgs[i..], acc, cfg).frames, Run(msgs[i..], acc, cfg).status)
    {
      assert msgs[i..][0] == msgs[i] && msgs[i..][1..] == msgs[i + 1..];
      var head := Head(msgs[i]);
      if head.Err? {
        return frames, Crashed(head.error);
      }
      match Classify(head.value) {
        case Stop =>
          return frames, StreamEnded;
        case Flush =>
          var written := FlushFrames(acc, numInputs);
          assert frames + (written + Run(msgs[i + 1..], [g], cfg).frames)
              == (frames + written) + Run(msgs[i + 1..], [g], cfg).frames;
          frames := frames + written;
          acc := [g];
        case Accumulate =>
          var w := ProcessChunk(msgs[i], h);
          if w.Err? {
            return frames, Crashed(w.error);
          }
          var next := Broadcast(acc, w.value);
          if next.Err? {
            return frames, Crashed(next.error);
          }
          acc := next.value;
      }
      i := i + 1;
    }
    status := TimedOut;
    assert frames + [] == frames;
  }

  // ---------------------------------------------------------------------
  // Properties of the mixing process

  /** Every frame of a flush is the floor of the accumulated value divided
      by the device count, clipped (never wrapped) into the int16 range, and a
      flush writes as many frames as the accumulator holds. */
  lemma FlushIsClippedAverage(acc: seq<int>, n: nat, i: nat)
    requires n >= 1 && i < |acc|
    ensures |FlushFrames(acc, n)| == |acc|
    ensures IsInt16(FlushFrames(acc, n)[i])
    ensures IsInt16(acc[i] / n) ==> FlushFrames(acc, n)[i] == acc[i] / n
    ensures acc[i] / n < Int16Min ==> FlushFrames(acc, n)[i] == Int16Min
    ensures acc[i] / n > Int16Max ==> FlushFrames(acc, n)[i] == Int16Max
    ensures acc[i] / n * n <= acc[i] < acc[i] / n * n + n
  {
    Arith.DivBounds(acc[i], n);
  }

  /** A `-6` with no data since the last flush writes exactly one frame: the
      uninitialised accumulator element, averaged and clipped. */
  lemma EmptySliceWritesOneFrame(rest: seq<Message>, cfg: Config)
    ensures Run([SliceEnd] + rest, [cfg.g], cfg).frames
         == [Clamp(FloorDiv(cfg.g, cfg.numInputs), Int16Min, Int16Max)] + Run(rest, [cfg.g], cfg).frames
  {
    var msgs := [SliceEnd] + rest;
    assert msgs[0] == SliceEnd && msgs[1..] == rest;
    assert Head(SliceEnd) == Ok(-6);
  }

  /** Data that is not followed by a `-6` is never written: in particular a
      `-5` stops the process without flushing the pending accumulator. */
  lemma {:induction false} PendingDataNeverWritten(msgs: seq<Message>, acc: seq<int>, cfg: Config)
    requires forall i :: 0 <= i < |msgs| ==> msgs[i] != SliceEnd
    ensures Run(msgs, acc, cfg).frames == []
    decreases |msgs|
  {
    if msgs != [] && Head(msgs[0]).Ok? && Classify(Head(msgs[0]).value) == Accumulate {
      var w := Contribution(msgs[0], cfg.h);
      if w.Ok? && Broadcast(acc, w.value).Ok? {
        PendingDataNeverWritten(msgs[1..], Broadcast(acc, w.value).value, cfg);
      }
    }
  }

  /** Once a `-5` is in the pipe, the process ends at it or at an earlier
      exception; it never waits for the poll timeout. */
  lemma {:induction false} StreamEndIsReached(msgs: seq<Message>, acc: seq<int>, cfg: Config)
    requires StreamEnd in msgs
    ensures Run(msgs, acc, cfg).status != TimedOut
    decreases |msgs|
  {
    assert msgs != [];
    if msgs[0] != StreamEnd {
      assert StreamEnd in msgs[1..] by {
        var i :| 0 <= i < |msgs| && msgs[i] == StreamEnd;
        assert msgs[1..][i - 1] == StreamEnd;
      }
      match Head(msgs[0])
      case Err(_) =>
      case Ok(head) =>
        match Classify(head)
        case Stop =>
        case Flush => StreamEndIsReached(msgs[1..], [cfg.g], cfg);
        case Accumulate =>
          match Contribution(msgs[0], cfg.h)
          case Err(_) =>
          case Ok(w) =>
            match Broadcast(acc, w)
            case Err(_) =>
            case Ok(next) => StreamEndIsReached(msgs[1..], next, cfg);
    }
  }

  lemma MonoTargetRateContribution(s: seq<int>, h: int)
    requires AllInt16(s)
    ensures Contribution(Data(EncodeInt16(s), TargetRate, 1), h) == Ok(s)
  {
    DecodeEncode(s);
    DownmixAverages(s, 1);
    SliceIsResidueClass(s, 0, 1);
    assert Slice(s, 0, 1) == s;
  }

  /** A data message that contributes w is added into the accumulator. */
  lemma AccumulateStep(msgs: seq<Message>, acc: seq<int>, cfg: Config, w: seq<int>)
    requires |msgs| >= 1 && Head(msgs[0]).Ok? && Classify(Head(msgs[0]).value) == Accumulate
    requires Contribution(msgs[0], cfg.h) == Ok(w) && Broadcast(acc, w).Ok?
    ensures Run(msgs, acc, cfg) == Run(msgs[1..], Broadcast(acc, w).value, cfg)
  {
  }

  /** A `-6` writes the flushed accumulator ahead of what follows. */
  lemma FlushStep(msgs: seq<Message>, acc: seq<int>, cfg: Config)
    requires |msgs| >= 1 && msgs[0] == SliceEnd
    ensures Run(msgs, acc, cfg).frames == FlushFrames(acc, cfg.numInputs) + Run(msgs[1..], [cfg.g], cfg).frames
  {
    assert Classify(Head(msgs[0]).value) == Flush;
  }

  /** One mono 16 kHz device mixed alone: a slice writes the samples it was
      sent, offset by the uninitialised accumulator element g (wrapped as
      int32, then clipped). */
  lemma SingleDeviceSlice(s: seq<int>, rest: seq<Message>, cfg: Config)
    requires AllInt16(s) && |s| >= 1 && cfg.numInputs == 1
    ensures Run([Data(EncodeInt16(s), TargetRate, 1), SliceEnd] + rest, [cfg.g], cfg).frames
         == seq(|s|, i requires 0 <= i < |s| => Clamp(Wrap32(cfg.g + s[i]), Int16Min, Int16Max))
            + Run(rest, [cfg.g], cfg).frames
  {
    var m := Data(EncodeInt16(s), TargetRate, 1);
    var msgs := [m, SliceEnd] + rest;
    MonoTargetRateContribution(s, cfg.h);
    DispatchIsUnambiguous(m);
    var acc := Broadcast([cfg.g], s).value;
    AccumulateStep(msgs, [cfg.g], cfg, s);
    assert msgs[1..] == [SliceEnd] + rest;
    FlushStep([SliceEnd] + rest, acc, cfg);
    assert ([SliceEnd] + rest)[1..] == rest;
    OneDeviceFlush(cfg.g, s);
  }

  /** With one device a flush writes each sample plus g, wrapped and clipped. */
  lemma OneDeviceFlush(g: int, s: seq<int>)
    requires |s| >= 1
    ensures Broadcast([g], s).Ok?
    ensures FlushFrames(Broadcast([g], s).value, 1)
         == seq(|s|, i requires 0 <= i < |s| => Clamp(Wrap32(g + s[i]), Int16Min, Int16Max))
  {
    var acc := Broadcast([g], s).value;
    var written := seq(|s|, i requires 0 <= i < |s| => Clamp(Wrap32(g + s[i]), Int16Min, Int16Max));
    forall i | 0 <= i < |s| ensures FlushFrames(acc, 1)[i] == written[i] {
      assert acc[i] == Wrap32(g + s[i]);
    }
  }

  /** When the uninitialised accumulator element happens to be 0, one mono
      16 kHz device mixed alone is written back sample for sample. */
  lemma SingleDeviceRoundTrip(s: seq<int>, rest: seq<Message>, h: int)
    requires AllInt16(s) && |s| >= 1
    ensures Run([Data(EncodeInt16(s), TargetRate, 1), SliceEnd] + rest, [0], Config(1, 0, h)).frames
         == s + Run(rest, [0], Config(1, 0, h)).frames
  {
    var cfg := Config(1, 0, h);
    SingleDeviceSlice(s, rest, cfg);
    var out := seq(|s|, i requires 0 <= i < |s| => Clamp(Wrap32(cfg.g + s[i]), Int16Min, Int16Max));
    assert out == s;
  }
}
