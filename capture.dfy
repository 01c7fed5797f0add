/** The capture loop of `record`: after the start key goes down it reads one
    chunk from every device per iteration, sends the chunks and a slice-end
    marker down the pipe, polls the stop key, and ends on a rising edge of
    that key with a stream-end marker. Device streams, the pipe and the
    keyboard are abstracted: chunk(k, d) is what device d delivers in
    iteration k, and the key polls are given as sequences. */
module Capture {

  import opened Results
  import opened Pcm
  import Arith
  import Mixer

  /** What the loop uses of a device record: `int(defaultSampleRate)` and `maxInputChannels`. */
  datatype Device = Device(index: int, rate: nat, channels: nat)

  // ---------------------------------------------------------------------
  // Waiting for the start key: `while not keyboard.is_pressed(start_button): pass`

  /** The first poll at which the start key is down. */
  function FirstPressed(polls: seq<bool>): (r: Option<nat>)
    ensures r.Some? ==> r.value < |polls| && polls[r.value]
    ensures r.Some? ==> forall j :: 0 <= j < r.value ==> !polls[j]
    ensures r.None? ==> forall j :: 0 <= j < |polls| ==> !polls[j]
  {
    if polls == [] then None
    else if polls[0] then Some(0)
    else match FirstPressed(polls[1..])
      case None => None
      case Some(k) => Some(k + 1)
  }

  /** Busy-waits on the start key; None when it is never pressed within the polls given. */
  method AwaitStart(polls: seq<bool>) returns (r: Option<nat>)
    ensures r == FirstPressed(polls)
  {
    var k := 0;
    while k < |polls| && !polls[k]
      invariant 0 <= k <= |polls|
      invariant FirstPressed(polls) == FirstPressedFrom(polls, k)
    {
      k := k + 1;
    }
    r := if k < |polls| then Some(k) else None;
  }

  function FirstPressedFrom(polls: seq<bool>, k: nat): Option<nat>
    requires k <= |polls|
  {
    match FirstPressed(polls[k..])
    case None => None
    case Some(j) => Some(j + k)
  }

  // ---------------------------------------------------------------------
  // The messages of the recording loop

  /** The messages of iteration k: one data chunk per device, in device-list
      order and tagged with that device's rate and channel count, then `-6`. */
  function IterationMessages(devices: seq<Device>, chunk: (nat, nat) -> seq<byte>, k: nat): (r: seq<Mixer.Message>)
    ensures |r| == |devices| + 1 && r[|devices|] == Mixer.SliceEnd
    ensures forall d :: 0 <= d < |devices| ==>
      r[d] == Mixer.Data(chunk(k, d), devices[d].rate, devices[d].channels)
  {
    seq(|devices|, d requires 0 <= d < |devices| => Mixer.Data(chunk(k, d), devices[d].rate, devices[d].channels))
      + [Mixer.SliceEnd]
  }

  /** The messages of the first n iterations. */
  function Iterations(devices: seq<Device>, chunk: (nat, nat) -> seq<byte>, n: nat): seq<Mixer.Message>
  {
    if n == 0 then [] else Iterations(devices, chunk, n - 1) + IterationMessages(devices, chunk, n - 1)
  }

  /** Everything a stopped recording sends: n iterations, then `-5`. */
  function Transcript(devices: seq<Device>, chunk: (nat, nat) -> seq<byte>, n: nat): seq<Mixer.Message>
  {
    Iterations(devices, chunk, n) + [Mixer.StreamEnd]
  }

  // ---------------------------------------------------------------------
  // The stop condition

  /** Poll k of the stop key is a rising edge: pressed now, not at poll k-1.
      Poll 0 never is, because the loop treats the key as pressed before it. */
  predicate RisingEdge(polls: seq<bool>, k: nat)
  {
    1 <= k < |polls| && polls[k] && !polls[k - 1]
  }

  /** The first rising edge at or after poll k. */
  function EdgeFrom(polls: seq<bool>, k: nat): (r: Option<nat>)
    requires k >= 1
    ensures r.Some? ==> k <= r.value && RisingEdge(polls, r.value)
    ensures r.Some? ==> forall j :: k <= j < r.value ==> !RisingEdge(polls, j)
    ensures r.None? ==> forall j :: k <= j < |polls| ==> !RisingEdge(polls, j)
    decreases |polls| - k
  {
    if k >= |polls| then None
    else if RisingEdge(polls, k) then Some(k)
    else EdgeFrom(polls, k + 1)
  }

  /** The poll that stops the recording, if any. */
  function StopPoll(polls: seq<bool>): Option<nat>
  {
    EdgeFrom(polls, 1)
  }

  /** The recording loop. With the key polls `polls` (poll k happens at the
      end of iteration k) it either stops, having sent every iteration up to
      and including the stopping poll and then `-5`, or it runs past the
      polls given, having sent one iteration per poll. */
  method Record(devices: seq<Device>, chunk: (nat, nat) -> seq<byte>, polls: seq<bool>)
    returns (msgs: seq<Mixer.Message>, stopped: bool)
    ensures stopped <==> StopPoll(polls).Some?
    ensures stopped ==> msgs == Transcript(devices, chunk, StopPoll(polls).value + 1)
    ensures !stopped ==> msgs == Iterations(devices, chunk, |polls|)
  {
    var current := true;
    var prev := current;
    msgs := [];
    var k := 0;
    while !(current && !prev)
      invariant 0 <= k <= |polls|
      invariant current == (k == 0 || polls[k - 1])
      invariant prev == (k <= 1 || polls[k - 2])
      invariant forall j :: 1 <= j < k - 1 ==> !RisingEdge(polls, j)
      invariant msgs == Iterations(devices, chunk, k)
      decreases |polls| - k
    {
      if k == |polls| {
        assert StopPoll(polls).None? by {
          if k >= 2 {
            assert !RisingEdge(polls, k - 1);
          }
        }
        return msgs, false;
      }
      for d := 0 to |devices|
        invariant msgs == Iterations(devices, chunk, k) + IterationMessages(devices, chunk, k)[..d]
      {
        msgs := msgs + [Mixer.Data(chunk(k, d), devices[d].rate, devices[d].channels)];
      }
      msgs := msgs + [Mixer.SliceEnd];
      prev := current;
      current := polls[k];
      k := k + 1;
    }
    assert RisingEdge(polls, k - 1);
    assert StopPoll(polls) == Some(k - 1);
    msgs := msgs + [Mixer.StreamEnd];
    stopped := true;
  }

  // ---------------------------------------------------------------------
  // Properties of the protocol

  /** A stopped recording runs at least two iterations (the stop key counts
      as pressed before the first poll, so the first poll can never be a
      rising edge), and it stops exactly at the first rising edge. */
  lemma RecordingLength(polls: seq<bool>)
    requires StopPoll(polls).Some?
    ensures StopPoll(polls).value + 1 >= 2
    ensures polls[StopPoll(polls).value] && !polls[StopPoll(polls).value - 1]
    ensures forall j :: 1 <= j < StopPoll(polls).value ==> !(polls[j] && !polls[j - 1])
  {
    var k := StopPoll(polls).value;
    forall j | 1 <= j < k ensures !(polls[j] && !polls[j - 1]) {
      assert !RisingEdge(polls, j);
    }
  }

  /** Position layout of the first n iterations: iteration k occupies the
      |devices| + 1 messages from k * (|devices| + 1) on, data chunks first. */
  lemma {:induction false} IterationsLayout(devices: seq<Device>, chunk: (nat, nat) -> seq<byte>, n: nat, k: nat, d: nat)
    requires k < n && d <= |devices|
    ensures |Iterations(devices, chunk, n)| == n * (|devices| + 1)
    ensures k * (|devices| + 1) + d < n * (|devices| + 1)
    ensures Iterations(devices, chunk, n)[k * (|devices| + 1) + d]
         == if d < |devices| then Mixer.Data(chunk(k, d), devices[d].rate, devices[d].channels) else Mixer.SliceEnd
  {
    var w := |devices| + 1;
    var prefix := Iterations(devices, chunk, n - 1);
    IterationsLength(devices, chunk, n - 1);
    assert |prefix| == (n - 1) * w;
    IterationsLength(devices, chunk, n);
    if k == n - 1 {
      assert k * w + d == |prefix| + d;
    } else {
      IterationsLayout(devices, chunk, n - 1, k, d);
    }
  }

  lemma {:induction false} IterationsLength(devices: seq<Device>, chunk: (nat, nat) -> seq<byte>, n: nat)
    ensures |Iterations(devices, chunk, n)| == n * (|devices| + 1)
  {
    if n > 0 {
      IterationsLength(devices, chunk, n - 1);
    }
  }

  lemma {:induction false} NoStreamEndInIterations(devices: seq<Device>, chunk: (nat, nat) -> seq<byte>, n: nat)
    ensures Mixer.StreamEnd !in Iterations(devices, chunk, n)
  {
    if n > 0 {
      NoStreamEndInIterations(devices, chunk, n - 1);
      assert Mixer.StreamEnd !in IterationMessages(devices, chunk, n - 1);
    }
  }

  /** Exactly one `-5` is sent, and it is the last message. */
  lemma OneStreamEndLast(devices: seq<Device>, chunk: (nat, nat) -> seq<byte>, n: nat)
    ensures var t := Transcript(devices, chunk, n);
      |t| >= 1 && t[|t| - 1] == Mixer.StreamEnd &&
      forall i :: 0 <= i < |t| - 1 ==> t[i] != Mixer.StreamEnd
  {
    var t := Transcript(devices, chunk, n);
    NoStreamEndInIterations(devices, chunk, n);
    forall i | 0 <= i < |t| - 1 ensures t[i] != Mixer.StreamEnd {
      assert t[i] == Iterations(devices, chunk, n)[i];
    }
  }

  /** Every non-empty data chunk reads as data at the mixer's dispatch, so a
      recording's transcript always reaches the mixer's `-5`: the mixer ends
      there (or at an exception), never by waiting for the poll timeout. */
  lemma MixerReachesStreamEnd(devices: seq<Device>, chunk: (nat, nat) -> seq<byte>, n: nat, acc: seq<int>, cfg: Mixer.Config)
    ensures Mixer.Run(Transcript(devices, chunk, n), acc, cfg).status != Mixer.TimedOut
  {
    OneStreamEndLast(devices, chunk, n);
    var t := Transcript(devices, chunk, n);
    assert t[|t| - 1] == Mixer.StreamEnd;
    Mixer.StreamEndIsReached(t, acc, cfg);
  }
}
