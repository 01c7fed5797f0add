# Digital Meeting Audio Transcriber — a verified model

This project models the core of the Digital Meeting Audio Transcriber. The
program records a microphone and a desktop "stereo mix" device at once. It
mixes them into one mono 16 kHz, 16-bit wav file, then walks that file
through a speech recogniser and writes a time-stamped transcript. The
transcript is written as txt, json, srt or vtt.

The Dafny modules follow the program's files:

- `Pcm` (pcm.dfy): int16 samples, their little-endian bytes, and numpy int32
  wrap-around.
- `Mixer` (mixer.dfy): `prepare_audio`, the mixing process. It reads pipe
  messages and handles each kind:
  - a data chunk is decoded, downmixed by floor-averaging its channels,
    decimated toward 16 kHz and added to an int32 accumulator;
  - at `-6` the accumulator is floor-divided by the device count, clipped to
    int16 and written;
  - at `-5` the process stops.
- `Capture` (capture.dfy): the loop of `record`. It waits for the start key.
  Each iteration then sends one chunk per device followed by `-6`. It stops
  on a rising edge of the stop key and sends `-5`.
- `Outputs` (outputs.dfy): the four writers and `type_outputs`. A `Writers`
  class holds `static_count`, and a `TextFile` class holds the file content
  that the writers append to. `Replay` states what a sequence of writer calls
  leaves in the file.
- `Transcriber` (transcriber.dfy): `from_wav`. It returns its return code,
  says whether the output file was opened, and gives the writer calls it
  makes. `Expected` gives the same three things without the loop.
- `Driver` (driver.dfy): the command-line driver's rules:
  - which input devices are recorded;
  - which recognition model directory is used;
  - the `_copy` renaming of an output name that already exists.
- `Text` (text.dfy) and `Clock` (clock.dfy): the string and time operations
  these rely on. They cover `str.split`/`join`, `upper`, `in` on strings,
  `str(n)`, and `strftime` with `%H:%M:%S` and `%D`.
- `Arith` (arith.dfy) holds helper lemmas on integer division.
- `Results` (results.dfy) holds `Option` and `Result`.

Three parts of the program are inputs to the model:

- The recogniser is the function `recognize(lo, hi)`: the text it returns
  after being fed blocks `lo .. hi-1`.
- The device data and key polls are sequences.
- The directory listing and the set of existing file names are values.

Where the design description of the program and its code disagree, the model
follows the code:

- The recording stops on a rising edge of the stop key: pressed at this poll
  and not at the previous one. The key counts as pressed before the first
  poll, so at least two iterations always run.
- The downmix uses floor division (`//`), not truncation toward zero.
- `-5` stops the mixer without flushing the pending accumulator
  (`Mixer.PendingDataNeverWritten`).
- Adding chunks of different lengths raises a numpy shape error, unless one
  side has length 1. The model does not sum to the shorter length.
- The mixer accumulator starts, and restarts after every flush, as one
  uninitialised int32 element, so a slice starts from that element, not from
  zero. The model gives it the value `g` (see "Left out"). The single-device
  round trip holds only when `g` is 0 (`Mixer.SingleDeviceRoundTrip`).
- The block size and the blocks per window use `int()`, which truncates.
  They are not rounded.
- The first window spans N+1 blocks and later windows span N.
- The end of the stream produces a body call with the remaining text, then a
  separate footer call with duration 0 and no text. So B >= 1 blocks give
  ceil(B/N) body calls plus the footer. An empty stream still gives one body
  call with empty text.
- Successive srt cues are written with no blank line between them.

Two consequences of the code are proved as lemmas:

- `to_json` recovers the wav name from the header by splitting on spaces. A
  path containing a space is therefore cut short
  (`Transcriber.HeaderWithSpaceInPath`).
- The `_copy` rename inserts its text before the last four characters. For a
  `.json` output the new name's type becomes `_copyjson`, which has no writer
  (`Driver.CopySplitsJsonExtension`). Three-letter extensions are kept
  (`Driver.CopyKeepsShortExtension`).

## Model

| member | source | states |
|---|---|---|
| `Pcm.Wrap32` | src/record_audio.py:77 | int32 addition wraps: the result is in int32 range, congruent to the exact sum modulo 2^32, and equal to it when no overflow happens |
| `Pcm.DecodeInt16` | src/record_audio.py:54 | `frombuffer(int16)` succeeds exactly on an even byte count and gives one int16 sample per two bytes |
| `Pcm.EncodeInt16` | src/record_audio.py:44-45 | `astype(int16).tobytes()` gives two bytes per sample |
| `Pcm.DecodeEncode` | src/record_audio.py:44-54 | decoding the bytes of int16 samples gives the samples back |
| `Pcm.EncodeDecode` | src/record_audio.py:44-54 | encoding the samples of an even byte string gives the bytes back |
| `Mixer.DispatchIsUnambiguous` | src/record_audio.py:34-50 | a non-empty data chunk always takes the data case; an empty one raises; `-6` flushes and `-5` stops |
| `Mixer.Slice` | src/record_audio.py:57 | `s[start::step]` has ceil((n-start)/step) elements |
| `Mixer.SliceIsResidueClass` | src/record_audio.py:57-59 | `s[start::step]` holds exactly the elements at indices congruent to start modulo step, in order |
| `Mixer.Broadcast` | src/record_audio.py:77 | numpy `+` succeeds exactly when the lengths agree or one side has length 1, and sums elementwise with int32 wrap-around |
| `Mixer.DownmixChannels` | src/record_audio.py:56-60 | the channel loop computes the downmix, including its errors (0 channels, shape mismatch) |
| `Mixer.LaneSumIsFrameSum` | src/record_audio.py:57-59 | after k lanes, `temp[i]` is the sum of the first k channels of frame i, with no overflow |
| `Mixer.DownmixAverages` | src/record_audio.py:56-60 | for whole frames each output sample is the floor of the mean of its frame's channels; one channel passes through unchanged |
| `Mixer.CursorPick` | src/record_audio.py:70-74 | the fractional path yields one leading uninitialised element plus one sample per cursor position |
| `Mixer.DecimateByCursor` | src/record_audio.py:70-74 | the `arange` loop computes the fractional-path decimation |
| `Mixer.StrideDecimation` | src/record_audio.py:68-69 | a whole factor f keeps `s[0], s[f], ...`, ceil(n/f) samples; two seconds at f·16 kHz give 32000 samples |
| `Mixer.CursorDecimation` | src/record_audio.py:70-74 | a fractional factor picks `s[floor(k·rate/16000)]` for every cursor position below n, all in bounds and non-decreasing |
| `Mixer.ProcessChunk` | src/record_audio.py:50-74 | one data chunk is decoded, downmixed and decimated, or fails with the exception the code raises |
| `Mixer.Clamp` | src/record_audio.py:44 | `numpy.clip` keeps in-range values and maps values outside to the nearer bound |
| `Mixer.FlushFrames` | src/record_audio.py:41-45 | a flush writes one int16 frame per accumulator element: the floor-divided value, clipped |
| `Mixer.FlushIsClippedAverage` | src/record_audio.py:41-45 | each written frame is the floor average when it fits in int16, and the nearer bound otherwise |
| `Mixer.PrepareAudio` | src/record_audio.py:14-78 | the message loop writes exactly the frames of the run, ends as the run ends, and writes only int16 values |
| `Mixer.EmptySliceWritesOneFrame` | src/record_audio.py:39-48 | a `-6` with no data since the last flush writes one frame, the uninitialised element averaged and clipped |
| `Mixer.PendingDataNeverWritten` | src/record_audio.py:35-37 | data not followed by a `-6` is never written, so `-5` does not flush |
| `Mixer.StreamEndIsReached` | src/record_audio.py:30-37 | once `-5` is in the pipe the process ends there or at an earlier exception, never at the poll timeout |
| `Mixer.MonoTargetRateContribution` | src/record_audio.py:54-74 | a mono 16 kHz chunk contributes exactly its samples |
| `Mixer.SingleDeviceSlice` | src/record_audio.py:28-77 | one mono 16 kHz device mixed alone writes its samples offset by the uninitialised element, wrapped then clipped |
| `Mixer.SingleDeviceRoundTrip` | src/record_audio.py:28-77 | with a zero initial element, one mono 16 kHz device is written back sample for sample |
| `Capture.FirstPressed` | src/record_audio.py:105-106 | the start poll is the first poll with the key down, or None if there is none |
| `Capture.AwaitStart` | src/record_audio.py:105-106 | the busy-wait returns the first pressed poll |
| `Capture.IterationMessages` | src/record_audio.py:128-132 | one iteration sends one message per device and then `-6` |
| `Capture.EdgeFrom` | src/record_audio.py:127-136 | finds the first rising edge of the stop key at or after a poll, or reports that there is none |
| `Capture.Record` | src/record_audio.py:123-138 | the loop stops exactly when a rising edge occurs; it has then sent every iteration up to that poll and then `-5`; otherwise it has sent one iteration per poll |
| `Capture.RecordingLength` | src/record_audio.py:123-136 | a stopped recording runs at least two iterations and stops at the first rising edge |
| `Capture.IterationsLayout` | src/record_audio.py:127-132 | message k·(d+1)+j is device j's chunk of iteration k, and message k·(d+1)+d is that iteration's `-6` |
| `Capture.NoStreamEndInIterations` | src/record_audio.py:128-132 | the iterations never send `-5` |
| `Capture.OneStreamEndLast` | src/record_audio.py:138 | exactly one `-5` is sent, as the last message |
| `Capture.MixerReachesStreamEnd` | src/record_audio.py:132-138 | the mixer run on a recording's messages never ends by timeout |
| `Text.NatToString` | src/outputs.py:81 | `str(n)` is a non-empty string of decimal digits without a leading zero |
| `Text.NatRoundTrip` | src/outputs.py:81 | reading `str(n)` back gives n |
| `Text.Pad2` | src/outputs.py:36 | `%02d` gives two digits whose value is n |
| `Text.Split` | src/transcriber.py:38 | `split(sep)` gives at least one field and no field contains the separator |
| `Text.JoinSplit` | src/outputs.py:46 | joining the fields of a split restores the string |
| `Text.SplitJoin` | src/outputs.py:46 | splitting the join of separator-free fields gives the fields back |
| `Text.SplitAtSeparator` | src/outputs.py:46 | splitting `a + sep + b` splits a and b independently |
| `Text.LastField` | src/transcriber.py:38 | `split(sep)[-1]` contains no separator |
| `Text.LastFieldIsSuffix` | src/transcriber.py:38 | the last field is the suffix after the last separator, or the whole string when there is none |
| `Text.Upper` | digital_meeting_audio_transcriber.py:120 | `upper()` maps each ASCII letter to upper case and keeps everything else |
| `Text.UpperIdempotent` | digital_meeting_audio_transcriber.py:120 | upper-casing twice is upper-casing once |
| `Text.ContainsIsOccurrence` | digital_meeting_audio_transcriber.py:120 | `needle in hay` holds exactly when the needle occurs at some offset |
| `Clock.HMS` | src/outputs.py:36 | `%H:%M:%S` is 8 characters with colons at positions 2 and 5 |
| `Clock.HMSRoundTrip` | src/outputs.py:36 | `%H:%M:%S` reads back as the time of day |
| `Clock.HMSPeriodic` | src/outputs.py:36 | two stamps render alike exactly when they differ by whole days |
| `Clock.DateOf` | src/outputs.py:60 | a day number becomes a valid Gregorian date |
| `Clock.DateRoundTrip` | src/outputs.py:60 | converting the date back gives the day number |
| `Clock.DateText` | src/outputs.py:60 | `%D` is 8 characters with slashes at positions 2 and 5 |
| `Clock.StampText` | src/transcriber.py:42 | `%D %H:%M:%S` is the date, a space, then the time |
| `Outputs.TypeOutputsKeys` | src/outputs.py:108 | exactly txt, json, srt and vtt have a writer |
| `Outputs.HeaderFields` | src/outputs.py:46-48 | the header fields `to_json` extracts; it raises exactly when the header has fewer than three space-separated fields |
| `Outputs.JsonText` | src/outputs.py:41-64 | `to_json` raises exactly on a header call whose header has too few fields |
| `Outputs.JsonOpening` | src/outputs.py:44-52 | the opening `[` and header object; it raises after writing `[` when the header is too short |
| `Outputs.CueEndTime` | src/outputs.py:82-83 | a cue ends `duration` seconds after it starts, on the 24-hour clock |
| `Outputs.TextFile.Write` | src/outputs.py:37 | writing appends to the file |
| `Outputs.Writers.constructor` | src/outputs.py:24 | `static_count` starts at 0 |
| `Outputs.Writers.ToTxt` | src/outputs.py:27-38 | `to_txt` appends the header and rule, nothing more for the footer, otherwise the stamp line and text |
| `Outputs.Writers.ToJson` | src/outputs.py:41-64 | `to_json` appends the opening and header object, `\n]` for the footer, otherwise `,\n` and the entry object, and reports the IndexError |
| `Outputs.Writers.ToSrt` | src/outputs.py:68-84 | `to_srt` increments `static_count` on every call and appends the cue with that number |
| `Outputs.Writers.ToVtt` | src/outputs.py:88-104 | `to_vtt` increments `static_count` on every call and appends the `WEBVTT` line and the cue |
| `Outputs.Writers.Output` | src/outputs.py:108 | dispatching on the type runs that format's writer |
| `Outputs.Writers.WriteAll` | src/transcriber.py:73-87 | making the calls one after another leaves the file, the counter and the exception state that `Replay` gives |
| `Outputs.Apply` | src/outputs.py:27-104 | a call only appends to the file, and nothing is written after an exception |
| `Outputs.RaisedStays` | src/outputs.py:49-52 | after an exception, later calls change nothing |
| `Outputs.ReplayAppend` | src/outputs.py:71-93 | replaying two traces in turn is replaying their concatenation |
| `Outputs.CountAfterReplay` | src/outputs.py:71-93 | srt and vtt count every call, header and footer included; txt leaves the counter alone |
| `Outputs.ReplayExtends` | src/outputs.py:27-104 | the file content only grows |
| `Outputs.PlainWrites` | src/outputs.py:36-38 | a plain call appends exactly its entry and never raises |
| `Outputs.HeaderWrites` | src/outputs.py:30-31 | a header call appends the format's opening and then the entry |
| `Outputs.FooterWrites` | src/outputs.py:33-34 | the footer appends nothing, except `\n]` in json; srt and vtt still count it |
| `Outputs.PlainReplay` | src/outputs.py:58-64 | plain calls never raise, and srt and vtt count each one |
| `Outputs.HeaderPlainFooter` | src/outputs.py:27-104 | a header call, plain calls and a footer: the file opens with the format's opening, nothing raises, the counter is right, and json ends with `\n]` |
| `Transcriber.FromWav` | src/transcriber.py:15-89 | `from_wav` returns the code, opened state and writer calls of `Expected` |
| `Transcriber.TranscribeBlocks` | src/transcriber.py:46-89 | the block loop raises ZeroDivisionError when the block length or window is 0; otherwise it makes the boundary calls, the end-of-stream call and the footer, and returns 1 |
| `Transcriber.ReturnCodes` | src/transcriber.py:18-46 | -1 exactly when the wav file is missing, -2 exactly when the type has no writer, 1 exactly when every check passes; the output file is opened only after both checks, and only a successful run makes calls |
| `Transcriber.CallShape` | src/transcriber.py:55-87 | a run makes ceil-many body calls of the cadence's duration, then exactly one footer call, last, with duration 0 and no text |
| `Transcriber.HeaderOnlyFirst` | src/transcriber.py:72-76 | only the first call carries the header |
| `Transcriber.LockStep` | src/transcriber.py:78-81 | call k is stamped k·C elapsed and start + k·C on the wall clock, so the two never drift |
| `Transcriber.BodyCountIsCeiling` | src/transcriber.py:55-67 | B >= 1 blocks give ceil(B/N) body calls, and an empty file gives 1 |
| `Transcriber.CutStep` | src/transcriber.py:67 | the boundary test fires exactly at nonzero multiples of N |
| `Transcriber.BoundaryRule` | src/transcriber.py:67 | the blocks closing a window are exactly the i with 1 <= i < B and i % N == 0 |
| `Transcriber.WindowsTileTheStream` | src/transcriber.py:57-70 | the windows start at block 0, each starts where the previous ended, and all end within the stream |
| `Transcriber.ReadStep` | src/transcriber.py:57-61 | a read is empty exactly when every block has been read |
| `Transcriber.StartOfRun` | src/transcriber.py:32-33 | the first call is stamped at the creation time minus the recording's whole seconds, and its header names that time |
| `Transcriber.TwentySecondExample` | src/transcriber.py:15-89 | 20 s at 16 kHz, 0.25 s blocks and a 10 s cadence give two body calls and the footer |
| `Transcriber.HeaderIsJoin` | src/transcriber.py:42 | the header is its seven space-separated words joined by spaces |
| `Transcriber.HeaderHasFields` | src/transcriber.py:42 | every header `from_wav` builds has at least three fields, so `to_json` never raises on it |
| `Transcriber.HeaderRoundTrip` | src/outputs.py:46-48 | for a path without spaces, `to_json` recovers the wav path and the creation stamp from the header |
| `Transcriber.HeaderWithSpaceInPath` | src/outputs.py:46-47 | for `my rec.wav` the recovered name is `m` |
| `Transcriber.WrittenFile` | src/transcriber.py:46-87 | the file a run writes opens with the format's opening, nothing raises, srt and vtt count every call, and json is closed by `]` |
| `Transcriber.SuccessfulRunFile` | src/transcriber.py:38-87 | a successful run writes its header's opening in the output path's format without raising |
| `Driver.SelectInputDevices` | digital_meeting_audio_transcriber.py:111-133 | the device loop collects the indices that `Selected` gives |
| `Driver.SelectedAppend` | digital_meeting_audio_transcriber.py:111-133 | devices are selected independently and in enumeration order |
| `Driver.SelectedLength` | digital_meeting_audio_transcriber.py:111-133 | each device adds at most one index |
| `Driver.SelectedMembership` | digital_meeting_audio_transcriber.py:117-131 | an index is collected exactly when a device with that index passes the desktop or the microphone rule |
| `Driver.FlagsDisableOwnRule` | digital_meeting_audio_transcriber.py:117-127 | `--no_desktop` and `--no_mic` each switch off only their own rule |
| `Driver.SameRuleTwice` | digital_meeting_audio_transcriber.py:115-124 | because the flags are reset for every device, two devices can match the same rule |
| `Driver.BackendEqualityVersusContainment` | digital_meeting_audio_transcriber.py:121-130 | backend `Windows WASAPI` fails the desktop rule's equality with `wasapi` but passes the microphone rule's containment |
| `Driver.FirstModelIsFirst` | digital_meeting_audio_transcriber.py:92-101 | a model is found exactly when a listed directory contains the wanted text, and it is the first such entry |
| `Driver.FindModel` | digital_meeting_audio_transcriber.py:92-101 | the search loop with `break` returns `FirstModel` |
| `Driver.CopyName` | digital_meeting_audio_transcriber.py:168 | a rename adds 5 characters |
| `Driver.CopyNameRoundTrip` | digital_meeting_audio_transcriber.py:168 | taking `_copy` out again restores the name |
| `Driver.CopyNameInjective` | digital_meeting_audio_transcriber.py:168 | two different names never rename to the same name |
| `Driver.CopyNameKeepsEnds` | digital_meeting_audio_transcriber.py:168 | `_copy` is inserted before the last four characters, and both sides are kept |
| `Driver.Copies` | digital_meeting_audio_transcriber.py:167-168 | k renames add 5k characters |
| `Driver.CopyCount` | digital_meeting_audio_transcriber.py:167-168 | the loop renames as often as the least k whose k-th name is free |
| `Driver.UniqueName` | digital_meeting_audio_transcriber.py:183-185 | the rename loop terminates on any finite set of existing names and returns the first free name in the `_copy` sequence |
| `Driver.CopyKeepsShortExtension` | digital_meeting_audio_transcriber.py:184-185 | a name with a three-letter extension keeps its output type when renamed |
| `Driver.CopySplitsJsonExtension` | digital_meeting_audio_transcriber.py:184-185 | `a.json` becomes `a._copyjson`, whose type has no writer |

## Left out

- Device streams (`pyaudio` open, read, start and close), the key polls
  (`keyboard.is_pressed`) and the host-API lookup are not modelled as I/O.
  They are the chunk function, the poll sequences and the `backend` string of
  a device record.
- The `multiprocessing` pipe and process are reduced to a message sequence.
  A pipe that stays silent for the two-second poll is the end of that
  sequence (`TimedOut`). Scheduling and timing are not modelled.
- The `wave` module is left out: the mixer returns its frames, and the
  transcriber sees only the frame rate, the frame count and the creation
  time.
- The `vosk` recogniser and the `Result()[14:-3]` slice are the oracle
  `recognize(lo, hi)`. The model does not capture what text it produces.
- `block_duration` and the `numpy.arange` cursor are floats in the program.
  The model uses exact rationals (`num/den`, `k·rate/16000`), so float
  rounding is not captured.
- `os.path.getctime` is an integer, so fractional seconds are dropped.
  `datetime.fromtimestamp` is read with no time-zone offset, and datetime's
  year-range errors are not modelled.
- `json.dump` string escaping is not modelled. Strings are written between
  quotes as they are.
- `upper()` maps ASCII letters only.
- Argument parsing, the config file, the interactive overwrite prompt with
  its `os.remove`, and the printed messages are left out. They are command-line
  plumbing and I/O.
- The `.\models\` path prefix and `os.path.isdir` become the `isDir` flag of
  a listing entry. `quit()` when no model is found becomes `None`.
- The root-level `record_audio.py`, `transcriber.py` and
  `desktop_audio_transcriber.py` are not part of this model.
- Capture.Record: when no rising edge occurs within the given polls, the
  model reports the iterations sent so far. It does not model a loop that
  never ends.
- Mixer.PrepareAudio: every freshly allocated uninitialised int32 element has the same
  value in one run. This covers the accumulator at the start and after each
  flush (src/record_audio.py:28, 48), which gets `g`, and the leading element
  of every fractional-path chunk (src/record_audio.py:71), which gets `h`. The
  program may find a different value in each allocation, so the model covers
  only the runs where these values repeat.
- Transcriber.FromWav: the timestamp cadence is a `nat`, so a negative
  `TRANSCRIPTION_TIMESTAMP_FREQUENCY` is not covered. The program accepts one
  (digital_meeting_audio_transcriber.py:51). Its window test at
  src/transcriber.py:67 still fires at multiples of the window size, but the
  clocks would then step back from `datetime(1,1,1)`, which Python's datetime
  rejects.
