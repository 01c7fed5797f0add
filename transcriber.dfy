/** `from_wav`: walks a recorded wav file in blocks of `block_duration`
    seconds, feeds every block to a recogniser, and every `timestamp_duration`
    seconds' worth of blocks (and once more at the end of the stream) hands the
    recognised text to the writer of the output file's type, followed by one
    footer call. The recogniser is an oracle: recognize(lo, hi) is the text it
    returns for blocks lo..hi-1. The writer calls are returned as a trace. */
module Transcriber {

  import opened Results
  import opened Text
  import opened Clock
  import opened Outputs
  import Arith

  const FooterText: string := "\n\nEnd of transcription. Have a good day."

  /** What the program reads from the wav file: `getframerate()`,
      `getnframes()` and the file's creation time (whole seconds). */
  datatype WavFile = WavFile(rate: nat, nframes: nat, ctime: int)

  /** How `from_wav` ends: a returned code, or a ZeroDivisionError. */
  datatype Outcome = Returned(code: int) | DivisionByZero

  datatype Run = Run(outcome: Outcome, fileOpened: bool, calls: seq<Call>)

  /** The header line built before the output file is opened. */
  function HeaderText(wavPath: string, start: int): string
  {
    "Transcription of " + wavPath + ". Created on " + StampText(start) + "."
  }

  /** The output type: the text after the last '.' of the output path. */
  function FileType(outputPath: string): string
  {
    LastField(outputPath, '.')
  }

  /** The recording's start: creation time minus its length in whole seconds. */
  function StartTime(w: WavFile): int
    requires w.rate > 0
  {
    w.ctime - w.nframes / w.rate
  }

  /** `int(sample_rate * block_duration)` with block_duration = num / den. */
  function FrameDuration(rate: nat, num: nat, den: nat): nat
    requires den >= 1
  {
    rate * num / den
  }

  /** `int(timestamp_duration / block_duration)`: blocks per timestamp window. */
  function BlocksPerWindow(cadence: nat, num: nat, den: nat): nat
    requires num >= 1
  {
    cadence * den / num
  }

  /** The number of non-empty reads of `frames` frames from a file of n frames. */
  function BlockCount(n: nat, frames: nat): nat
  {
    if frames == 0 then 0 else (n + frames - 1) / frames
  }

  /** Window boundaries among the first `read` blocks: the block indices i
      with 1 <= i < read and i % per == 0. */
  function Cuts(read: nat, per: nat): nat
    requires per >= 1
  {
    if read == 0 then 0 else (read - 1) / per
  }

  /** The number of body calls for B blocks: one per boundary and one at the end. */
  function BodyCount(blocks: nat, per: nat): nat
    requires per >= 1
  {
    Cuts(blocks, per) + 1
  }

  /** The first block of window k: window 0 starts at block 0, window k >= 1
      right after the boundary block k * per. */
  function Lo(k: nat, per: nat): nat
  {
    if k == 0 then 0 else k * per + 1
  }

  /** Everything the calls of one successful run depend on. */
  datatype Plan = Plan(start: int, cadence: nat, per: nat, blocks: nat, header: string,
                       recognize: (nat, nat) -> string)

  /** A body call made at a window boundary: window k ends with block (k+1) * per. */
  function MidCall(p: Plan, k: nat): Call
  {
    Call(p.start + k * p.cadence, k * p.cadence, p.cadence,
         p.recognize(Lo(k, p.per), (k + 1) * p.per + 1),
         if k == 0 then p.header else "", "")
  }

  /** The body call made at the end of the stream: window k runs to the last block. */
  function LastCall(p: Plan, k: nat): Call
  {
    Call(p.start + k * p.cadence, k * p.cadence, p.cadence,
         p.recognize(Lo(k, p.per), p.blocks),
         if k == 0 then p.header else "", "")
  }

  /** The closing call `output_func(..., 0, '', footer_string=footer)`. */
  function FooterCall(p: Plan, k: nat): Call
  {
    Call(p.start + k * p.cadence, k * p.cadence, 0, "", "", FooterText)
  }

  /** The calls of a successful run: the boundary calls, the end-of-stream call, the footer. */
  function Transcription(p: Plan): seq<Call>
    requires p.per >= 1
  {
    var k := Cuts(p.blocks, p.per);
    seq(k, i requires 0 <= i < k => MidCall(p, i)) + [LastCall(p, k), FooterCall(p, k + 1)]
  }

  /** What `from_wav` does, stated without its loop. */
  function Expected(wav: Option<WavFile>, wavPath: string, outputPath: string,
                    num: nat, den: nat, cadence: nat, recognize: (nat, nat) -> string): Run
    requires den >= 1
  {
    match wav
    case None => Run(Returned(-1), false, [])
    case Some(w) =>
      if w.rate == 0 then Run(DivisionByZero, false, [])
      else if FileType(outputPath) !in TypeOutputs then Run(Returned(-2), false, [])
      else if num == 0 || BlocksPerWindow(cadence, num, den) == 0 then Run(DivisionByZero, true, [])
      else
        var per := BlocksPerWindow(cadence, num, den);
        var blocks := BlockCount(w.nframes, FrameDuration(w.rate, num, den));
        var start := StartTime(w);
        Run(Returned(1), true,
            Transcription(Plan(start, cadence, per, blocks, HeaderText(wavPath, start), recognize)))
  }

  // ---------------------------------------------------------------------
  // The loop

  /** Where a block ends a window: the boundary rule advances the cut count by
      one exactly at multiples of `per`, and leaves it otherwise. */
  lemma CutStep(i: nat, per: nat)
    requires per >= 1
    ensures i % per == 0 && i != 0 ==> Cuts(i + 1, per) == Cuts(i, per) + 1 && i == Cuts(i + 1, per) * per
    ensures !(i % per == 0 && i != 0) ==> Cuts(i + 1, per) == Cuts(i, per)
  {
    Arith.DivBounds(i, per);
    if i != 0 {
      Arith.DivBounds(i - 1, per);
      var q := i / per;
      if i % per == 0 {
        assert i == q * per;
        Arith.DivUnique(i - 1, per, q - 1);
      } else {
        Arith.DivUnique(i - 1, per, q);
      }
    }
  }

  /** Frames consumed by `read` full reads, capped at the file length. */
  function Consumed(read: nat, frames: nat, n: nat): nat
  {
    if read * frames < n then read * frames else n
  }

  /** A read is empty exactly when all blocks have been read. */
  lemma ReadStep(read: nat, frames: nat, n: nat)
    requires read <= BlockCount(n, frames)
    ensures var pos := Consumed(read, frames, n);
      var take := if frames < n - pos then frames else n - pos;
      (take == 0 <==> read == BlockCount(n, frames))
      && (take > 0 ==> pos + take == Consumed(read + 1, frames, n))
  {
    if frames > 0 {
      Arith.BelowCeil(n, frames, read);
      Arith.BelowCeil(n, frames, read + 1);
      assert (read + 1) * frames == read * frames + frames;
    }
  }

  /** The first m boundary calls. */
  function MidCalls(p: Plan, m: nat): (r: seq<Call>)
    ensures |r| == m
  {
    seq(m, i requires 0 <= i < m => MidCall(p, i))
  }

  lemma MidCallsStep(p: Plan, m: nat)
    ensures MidCalls(p, m) + [MidCall(p, m)] == MidCalls(p, m + 1)
  {
  }

  lemma TranscriptionParts(p: Plan)
    requires p.per >= 1
    ensures var t := Transcription(p);
      var k := Cuts(p.blocks, p.per);
      |t| == k + 2
      && t[..|t| - 1] == MidCalls(p, k) + [LastCall(p, k)]
      && t == t[..|t| - 1] + [FooterCall(p, k + 1)]
  {
  }

  /** The call the loop makes at its m-th boundary is the m-th boundary call of the plan. */
  lemma BoundaryCall(p: Plan, m: nat, wall: int, elapsed: int, lo: nat, hi: nat, header: string)
    requires elapsed == m * p.cadence && wall == p.start + elapsed
    requires lo == Lo(m, p.per) && hi == (m + 1) * p.per + 1
    requires header == (if m == 0 then p.header else "")
    ensures Call(wall, elapsed, p.cadence, p.recognize(lo, hi), header, "") == MidCall(p, m)
  {
  }

  lemma NextElapsed(m: nat, c: nat)
    ensures (m + 1) * c == m * c + c
  {
  }

  method FromWav(wav: Option<WavFile>, wavPath: string, outputPath: string,
                 blockNum: nat, blockDen: nat, timestampDuration: nat,
                 recognize: (nat, nat) -> string)
    returns (outcome: Outcome, fileOpened: bool, calls: seq<Call>)
    requires blockDen >= 1
    ensures Run(outcome, fileOpened, calls)
         == Expected(wav, wavPath, outputPath, blockNum, blockDen, timestampDuration, recognize)
  {
    if wav.None? {
      return Returned(-1), false, [];
    }
    var w := wav.value;
    var sampleRate := w.rate;
    var frameDuration := FrameDuration(sampleRate, blockNum, blockDen);
    if sampleRate == 0 {
      return DivisionByZero, false, [];
    }
    var wavDatetime := StartTime(w);
    var fileType := LastField(outputPath, '.');
    if fileType !in TypeOutputs {
      return Returned(-2), false, [];
    }
    var header := HeaderText(wavPath, wavDatetime);
    fileOpened := true;
    outcome, calls := TranscribeBlocks(w.nframes, frameDuration, blockNum, blockDen, timestampDuration,
                                       wavDatetime, header, recognize);
    if blockNum == 0 || BlocksPerWindow(timestampDuration, blockNum, blockDen) == 0 {
      assert Expected(wav, wavPath, outputPath, blockNum, blockDen, timestampDuration, recognize)
          == Run(DivisionByZero, true, []);
    } else {
      ghost var plan := Plan(wavDatetime, timestampDuration, BlocksPerWindow(timestampDuration, blockNum, blockDen),
                             BlockCount(w.nframes, frameDuration), header, recognize);
      assert Expected(wav, wavPath, outputPath, blockNum, blockDen, timestampDuration, recognize)
          == Run(Returned(1), true, Transcription(plan));
    }
  }

  /** The part of `from_wav` inside `with open(p_output_path)`: the block loop
      and the footer call, from the first read to the return. */
  method TranscribeBlocks(nframes: nat, frameDuration: nat, blockNum: nat, blockDen: nat,
                          timestampDuration: nat, start: int, header: string,
                          recognize: (nat, nat) -> string)
    returns (outcome: Outcome, calls: seq<Call>)
    ensures blockNum == 0 || BlocksPerWindow(timestampDuration, blockNum, blockDen) == 0 ==>
      outcome == DivisionByZero && calls == []
    ensures blockNum >= 1 && BlocksPerWindow(timestampDuration, blockNum, blockDen) >= 1 ==>
      outcome == Returned(1)
      && calls == Transcription(Plan(start, timestampDuration, BlocksPerWindow(timestampDuration, blockNum, blockDen),
                                     BlockCount(nframes, frameDuration), header, recognize))
  {
    var wavDatetime := start;
    var timeElapsed := 0;
    calls := [];
    ghost var blocks := BlockCount(nframes, frameDuration);
    ghost var per := if blockNum == 0 then 0 else BlocksPerWindow(timestampDuration, blockNum, blockDen);
    ghost var plan := Plan(start, timestampDuration, per, blocks, header, recognize);
    var count: int := 0;
    var stopFlag := false;
    var firstThrough := true;
    var pos := 0;
    var read := 0;
    var pending := 0;
    while !stopFlag
      invariant 0 <= pos <= nframes && read <= blocks
      invariant !stopFlag ==> count == read && pos == Consumed(read, frameDuration, nframes)
      invariant per == 0 ==> calls == [] && !stopFlag && read == 0
      invariant per >= 1 && !stopFlag ==>
        calls == MidCalls(plan, Cuts(read, per)) && pending == Lo(|calls|, per)
      invariant per >= 1 && stopFlag ==>
        calls == MidCalls(plan, Cuts(blocks, per)) + [LastCall(plan, Cuts(blocks, per))]
      invariant timeElapsed == |calls| * timestampDuration
      invariant wavDatetime == start + timeElapsed
      invariant firstThrough <==> calls == []
      decreases nframes - pos, if stopFlag then 0 else 1
    {
      ReadStep(read, frameDuration, nframes);
      var take := if frameDuration < nframes - pos then frameDuration else nframes - pos;
      if take == 0 {
        count := -1;
        stopFlag := true;
      } else {
        read := read + 1;
      }
      pos := pos + take;
      if blockNum == 0 {
        return DivisionByZero, calls;
      }
      var n := timestampDuration * blockDen / blockNum;
      if n == 0 {
        return DivisionByZero, calls;
      }
      if !stopFlag {
        CutStep(count, n);
      }
      if (count % n == 0 && count != 0) || count == -1 {
        ghost var m := |calls|;
        var textString := recognize(pending, read);
        // only the first boundary call passes header_string
        var callHeader := if firstThrough then header else "";
        if !stopFlag {
          BoundaryCall(plan, m, wavDatetime, timeElapsed, pending, read, callHeader);
          MidCallsStep(plan, m);
        }
        pending := read;
        calls := calls + [Call(wavDatetime, timeElapsed, timestampDuration, textString, callHeader, "")];
        firstThrough := false;
        NextElapsed(m, timestampDuration);
        wavDatetime := wavDatetime + timestampDuration;
        timeElapsed := timeElapsed + timestampDuration;
      }
      count := count + 1;
    }
    TranscriptionParts(plan);
    NextElapsed(|calls|, timestampDuration);
    calls := calls + [Call(wavDatetime, timeElapsed, 0, "", "", FooterText)];
    return Returned(1), calls;
  }

  // ---------------------------------------------------------------------
  // Properties of a run

  /** The return codes: -1 exactly when the wav file is missing, -2 exactly
      when it exists (with a non-zero rate) but the output type has no writer,
      1 exactly when every check passes. Nothing is written unless the run
      succeeds, and the output file is opened only after both checks. */
  lemma ReturnCodes(wav: Option<WavFile>, wavPath: string, outputPath: string,
                    num: nat, den: nat, cadence: nat, recognize: (nat, nat) -> string)
    requires den >= 1
    ensures var r := Expected(wav, wavPath, outputPath, num, den, cadence, recognize);
      (r.outcome == Returned(-1) <==> wav.None?)
      && (r.outcome == Returned(-2) <==> wav.Some? && wav.value.rate > 0 && FileType(outputPath) !in TypeOutputs)
      && (r.outcome == Returned(1) <==>
            wav.Some? && wav.value.rate > 0 && FileType(outputPath) in TypeOutputs
            && num >= 1 && BlocksPerWindow(cadence, num, den) >= 1)
      && (r.fileOpened <==> wav.Some? && wav.value.rate > 0 && FileType(outputPath) in TypeOutputs)
      && (r.outcome != Returned(1) ==> r.calls == [])
  {
  }

  /** The shape of a successful run's calls: one body call per window
      boundary plus one at the end of the stream, all with the cadence as
      duration, then exactly one footer call, last, with duration 0 and no text. */
  lemma {:induction false} CallShape(p: Plan)
    requires p.per >= 1
    ensures var t := Transcription(p);
      |t| == BodyCount(p.blocks, p.per) + 1
      && (forall i :: 0 <= i < |t| - 1 ==> t[i].footer == "" && t[i].duration == p.cadence)
      && t[|t| - 1].footer == FooterText && t[|t| - 1].duration == 0 && t[|t| - 1].text == ""
      && t[|t| - 1].header == ""
  {
  }

  /** Only the first call carries the header. */
  lemma HeaderOnlyFirst(p: Plan, i: nat)
    requires p.per >= 1 && i < |Transcription(p)|
    ensures Transcription(p)[i].header == (if i == 0 then p.header else "")
  {
  }

  /** The k-th call is stamped start + k*C on the wall clock and k*C elapsed,
      so the two stamps never drift apart. */
  lemma LockStep(p: Plan, i: nat)
    requires p.per >= 1 && i < |Transcription(p)|
    ensures Transcription(p)[i].rel == i * p.cadence
    ensures Transcription(p)[i].wall - Transcription(p)[i].rel == p.start
  {
  }

  /** Body calls for B >= 1 blocks number ceil(B / per), and 1 when there are none. */
  lemma BodyCountIsCeiling(blocks: nat, per: nat)
    requires per >= 1
    ensures BodyCount(blocks, per) == if blocks == 0 then 1 else (blocks + per - 1) / per
  {
    if blocks > 0 {
      var q := (blocks - 1) / per;
      Arith.DivBounds(blocks - 1, per);
      assert (blocks + per - 1) == (blocks - 1) + per;
      Arith.DivUnique(blocks + per - 1, per, q + 1);
    }
  }

  /** Block i is where window k is closed. */
  predicate ClosesWindow(blocks: nat, per: nat, k: nat, i: nat)
  {
    per >= 1 && k < Cuts(blocks, per) && i == (k + 1) * per
  }

  /** The boundary rule: the blocks that close a window before the end of the
      stream are exactly the blocks i with 1 <= i < B and i % per == 0; window
      k (k < Cuts) is closed by block (k+1) * per. */
  lemma BoundaryRule(blocks: nat, per: nat, i: nat)
    requires per >= 1
    ensures (1 <= i < blocks && i % per == 0) <==> (exists k: nat :: ClosesWindow(blocks, per, k, i))
  {
    if 1 <= i < blocks && i % per == 0 {
      BoundaryIsClosing(blocks, per, i);
    }
    if exists k: nat :: ClosesWindow(blocks, per, k, i) {
      var k: nat :| ClosesWindow(blocks, per, k, i);
      ClosingIsBoundary(blocks, per, k);
    }
  }

  lemma BoundaryIsClosing(blocks: nat, per: nat, i: nat)
    requires per >= 1 && 1 <= i < blocks && i % per == 0
    ensures ClosesWindow(blocks, per, i / per - 1, i)
  {
    Arith.DivBounds(i, per);
    assert i == (i / per) * per;
    Arith.DivMono(i, blocks - 1, per);
  }

  lemma ClosingIsBoundary(blocks: nat, per: nat, k: nat)
    requires per >= 1 && k < Cuts(blocks, per)
    ensures 1 <= (k + 1) * per < blocks && ((k + 1) * per) % per == 0
  {
    Arith.DivBounds(blocks - 1, per);
    Arith.MulLe(k + 1, (blocks - 1) / per, per);
    Arith.MulLe(1, k + 1, per);
    Arith.DivOfMulAdd(k + 1, per, 0);
  }

  /** The windows handed to the recogniser are well formed: window 0 starts at
      block 0, each window starts where the previous one ended, and every
      window ends within the stream, the last one at its end. */
  lemma WindowsTileTheStream(p: Plan, k: nat)
    requires p.per >= 1 && k < Cuts(p.blocks, p.per)
    ensures Lo(0, p.per) == 0
    ensures Lo(k, p.per) <= (k + 1) * p.per + 1 == Lo(k + 1, p.per) <= p.blocks
    ensures Lo(Cuts(p.blocks, p.per), p.per) <= p.blocks
  {
    var c := Cuts(p.blocks, p.per);
    Arith.DivBounds(p.blocks - 1, p.per);
    Arith.MulLe(k + 1, c, p.per);
  }

  /** A successful run starts its clock at the creation time minus the
      recording's length in whole seconds, and its header names that time. */
  lemma StartOfRun(w: WavFile, wavPath: string, outputPath: string,
                   num: nat, den: nat, cadence: nat, recognize: (nat, nat) -> string)
    requires den >= 1
    requires Expected(Some(w), wavPath, outputPath, num, den, cadence, recognize).outcome == Returned(1)
    ensures var t := Expected(Some(w), wavPath, outputPath, num, den, cadence, recognize).calls;
      |t| >= 2 && t[0].wall == w.ctime - w.nframes / w.rate && t[0].rel == 0
      && t[0].header == HeaderText(wavPath, w.ctime - w.nframes / w.rate)
  {
  }

  /** The output file name "x.txt" has type "txt". */
  lemma TxtTypeOfName()
    ensures FileType("x.txt") == "txt"
  {
    SplitOfField("x", '.');
    SplitOfField("txt", '.');
    SplitAtSeparator("x", "txt", '.');
    assert "x" + ['.'] + "txt" == "x.txt";
  }

  /** A 20-second 16 kHz recording with 10-second timestamps and quarter-second
      blocks gives two body calls and the footer, the first with the header. */
  lemma TwentySecondExample(ctime: int, wavPath: string, recognize: (nat, nat) -> string)
    ensures var r := Expected(Some(WavFile(16000, 320000, ctime)), wavPath, "x.txt", 1, 4, 10, recognize);
      r.outcome == Returned(1) && |r.calls| == 3
      && r.calls[0].header != "" && r.calls[1].header == "" && r.calls[2].footer == FooterText
      && r.calls[1].rel == 10 && r.calls[2].rel == 20
  {
    TxtTypeOfName();
    assert FrameDuration(16000, 1, 4) == 4000;
    assert BlockCount(320000, 4000) == 80;
    assert BlocksPerWindow(10, 1, 4) == 40;
    assert Cuts(80, 40) == 1;
  }

  // ---------------------------------------------------------------------
  // The header line and the json writer

  /** The header splits on spaces into these fields when the path has no space. */
  function HeaderFieldList(wavPath: string, start: int): seq<string>
  {
    ["Transcription", "of", wavPath + ".", "Created", "on", DateText(start), HMS(start) + "."]
  }

  /** The header with its spaces written as separators between the fields. */
  function HeaderNested(wavPath: string, start: int): string
  {
    "Transcription" + [' '] + ("of" + [' '] + (wavPath + "." + [' '] + ("Created" + [' '] + ("on" + [' '] + (DateText(start) + [' '] + (HMS(start) + "."))))))
  }

  lemma HeaderIsJoin(wavPath: string, start: int)
    ensures HeaderText(wavPath, start) == Join(HeaderFieldList(wavPath, start), ' ')
  {
    HeaderJoinNested(wavPath, start);
    HeaderTextNested(wavPath, start);
  }

  lemma HeaderJoinNested(wavPath: string, start: int)
    ensures Join(HeaderFieldList(wavPath, start), ' ') == HeaderNested(wavPath, start)
  {
    var d, h := DateText(start), HMS(start) + ".";
    JoinCons(d, [h], ' ');
    JoinCons("on", [d, h], ' ');
    JoinCons("Created", ["on", d, h], ' ');
    JoinCons(wavPath + ".", ["Created", "on", d, h], ' ');
    JoinCons("of", [wavPath + ".", "Created", "on", d, h], ' ');
    JoinCons("Transcription", ["of", wavPath + ".", "Created", "on", d, h], ' ');
    assert ["Transcription", "of", wavPath + ".", "Created", "on", d, h] == HeaderFieldList(wavPath, start);
  }

  lemma HeaderTextNested(wavPath: string, start: int)
    ensures HeaderText(wavPath, start) == HeaderNested(wavPath, start)
  {
    HeaderShape(wavPath, DateText(start), HMS(start));
  }

  /** The header's layout over arbitrary path, date and time strings. */
  lemma HeaderShape(p: string, d: string, h: string)
    ensures "Transcription of " + p + ". Created on " + (d + " " + h) + "."
      == "Transcription" + [' '] + ("of" + [' '] + (p + "." + [' '] + ("Created" + [' '] + ("on" + [' '] + (d + [' '] + (h + "."))))))
  {
    var t5 := d + [' '] + (h + ".");
    assert (d + " " + h) + "." == t5;
    var t2 := p + "." + [' '] + ("Created" + [' '] + ("on" + [' '] + t5));
    assert t2 == p + (". Created on " + t5);
  }

  /** `to_json` recovers the wav path and the `%D %H:%M:%S` creation stamp
      from the header `from_wav` builds, when the path contains no space. */
  lemma HeaderRoundTrip(wavPath: string, start: int)
    requires ' ' !in wavPath
    ensures HeaderFields(HeaderText(wavPath, start)) == Some((wavPath, StampText(start)))
  {
    var f := HeaderFieldList(wavPath, start);
    HeaderIsJoin(wavPath, start);
    forall i | 0 <= i < |f| ensures ' ' !in f[i] {
    }
    SplitJoin(f, ' ');
    assert DropLast(wavPath + ".") == wavPath;
    assert DropLast(HMS(start) + ".") == HMS(start);
  }

  /** With a space in the wav path the recovered name is the part before the
      first space minus its last character: "my rec.wav" is read as "m". */
  lemma HeaderWithSpaceInPath(start: int)
    ensures HeaderFields(HeaderText("my rec.wav", start)) == Some(("m", StampText(start)))
  {
    var f := SpacedPathFields(start);
    assert DropLast(f[2]) == "m";
    assert DropLast(f[7]) == HMS(start);
  }

  /** The space-separated fields of the header built for `my rec.wav`: the
      path is cut in two. */
  lemma SpacedPathFields(start: int) returns (f: seq<string>)
    ensures f == ["Transcription", "of", "my", "rec.wav.", "Created", "on", DateText(start), HMS(start) + "."]
    ensures Split(HeaderText("my rec.wav", start), ' ') == f
  {
    f := SpacedPathJoin(start);
    forall i | 0 <= i < |f| ensures ' ' !in f[i] {
    }
    SplitJoin(f, ' ');
  }

  /** The same header as a join of those fields. */
  lemma SpacedPathJoin(start: int) returns (f: seq<string>)
    ensures f == ["Transcription", "of", "my", "rec.wav.", "Created", "on", DateText(start), HMS(start) + "."]
    ensures HeaderText("my rec.wav", start) == Join(f, ' ')
  {
    var pre := ["Transcription", "of"];
    var post := ["Created", "on", DateText(start), HMS(start) + "."];
    HeaderIsJoin("my rec.wav", start);
    assert "my rec.wav" + "." == "my" + [' '] + "rec.wav.";
    assert HeaderFieldList("my rec.wav", start) == pre + ["my" + [' '] + "rec.wav."] + post;
    JoinOfInnerSeparator(pre, "my", "rec.wav.", post, ' ');
    f := pre + ["my", "rec.wav."] + post;
  }

  // ---------------------------------------------------------------------
  // The file a successful run writes

  /** A run's calls are the header call, plain calls, then the footer call. */
  lemma HeaderPlainsFooter(p: Plan) returns (middle: seq<Call>)
    requires p.per >= 1
    ensures var t := Transcription(p);
      |t| >= 2 && t == [t[0]] + middle + [t[|t| - 1]]
      && t[0].header == p.header && t[0].footer == ""
      && (forall i :: 0 <= i < |middle| ==> Plain(middle[i]))
      && t[|t| - 1].header == "" && t[|t| - 1].footer != ""
  {
    var t := Transcription(p);
    var m := |t|;
    CallShape(p);
    HeaderOnlyFirst(p, 0);
    middle := t[1..m - 1];
    forall i | 0 <= i < |middle| ensures Plain(middle[i]) {
      HeaderOnlyFirst(p, i + 1);
    }
    assert t == [t[0]] + middle + [t[m - 1]];
  }

  /** Replaying a successful run's calls on an empty output file: the file
      starts with the format's opening (the header and the rule for txt,
      `[` and the header object for json, `WEBVTT - ` and the header for vtt),
      nothing raises, srt and vtt count one per call including the footer,
      and a json file is closed by the footer's `]`. */
  lemma WrittenFile(fmt: Format, p: Plan, n: nat)
    requires p.per >= 1 && p.header != "" && HeaderFields(p.header).Some?
    ensures var r := Replay(fmt, Sink("", n, false), Transcription(p));
      var opening := Opening(fmt, p.header);
      !r.raised
      && |r.content| >= |opening| && r.content[..|opening|] == opening
      && r.count == n + (if fmt == Srt || fmt == Vtt then |Transcription(p)| else 0)
      && (fmt == Json ==> |r.content| >= 4 && r.content[..2] == "[\n" && r.content[|r.content| - 2..] == "\n]")
  {
    var t := Transcription(p);
    var middle := HeaderPlainsFooter(p);
    HeaderPlainFooter(fmt, Sink("", n, false), t[0], middle, t[|t| - 1]);
    var opening := Opening(fmt, p.header);
    assert "" + opening == opening;
    if fmt == Json {
      var r := Replay(fmt, Sink("", n, false), t);
      var fields := HeaderFields(p.header).value;
      assert opening == "[\n" + HeaderObject(fields.0, fields.1);
      assert opening[..2] == "[\n";
      PrefixTransitive("[\n", opening, r.content);
    }
  }

  /** Every header `from_wav` builds has at least three space-separated fields,
      so `to_json` never raises on it, whatever the wav path. */
  lemma HeaderHasFields(wavPath: string, start: int)
    ensures HeaderFields(HeaderText(wavPath, start)).Some?
  {
    var rest := wavPath + ". Created on " + StampText(start) + ".";
    assert HeaderText(wavPath, start) == "Transcription" + [' '] + ("of" + [' '] + rest);
    SplitAtSeparator("Transcription", "of" + [' '] + rest, ' ');
    SplitAtSeparator("of", rest, ' ');
  }

  /** The file a successful run leaves behind, in the format its output path
      names: it opens with that format's opening for the run's header and
      nothing raises. */
  lemma SuccessfulRunFile(w: WavFile, wavPath: string, outputPath: string, fmt: Format,
                          num: nat, den: nat, cadence: nat, recognize: (nat, nat) -> string, n: nat)
    requires den >= 1 && w.rate > 0 && num >= 1 && BlocksPerWindow(cadence, num, den) >= 1
    requires FileType(outputPath) in TypeOutputs && TypeOutputs[FileType(outputPath)] == fmt
    ensures var run := Expected(Some(w), wavPath, outputPath, num, den, cadence, recognize);
      var r := Replay(fmt, Sink("", n, false), run.calls);
      var opening := Opening(fmt, HeaderText(wavPath, StartTime(w)));
      run.outcome == Returned(1) && !r.raised && |r.content| >= |opening| && r.content[..|opening|] == opening
  {
    var start := StartTime(w);
    HeaderHasFields(wavPath, start);
    var per := BlocksPerWindow(cadence, num, den);
    var blocks := BlockCount(w.nframes, FrameDuration(w.rate, num, den));
    var plan := Plan(start, cadence, per, blocks, HeaderText(wavPath, start), recognize);
    assert Expected(Some(w), wavPath, outputPath, num, den, cadence, recognize) == Run(Returned(1), true, Transcription(plan));
    WrittenFile(fmt, plan, n);
  }
}
