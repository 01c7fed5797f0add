/** The output writers of `outputs`: four serialisers that append one entry
    per call to an open text file, the module-wide entry counter that the srt
    and vtt writers bump, and the table that maps a file extension to its
    writer. The file is a string buffer that only grows. */
module Outputs {

  import opened Results
  import opened Text
  import opened Clock
  import Arith

  /** The arguments of one call of an output function: the wall-clock stamp,
      the elapsed stamp, the window length in seconds, the recognised text,
      and the keyword arguments; an empty header or footer stands for the
      default `False` (both are falsy in Python). */
  datatype Call = Call(wall: int, rel: int, duration: nat, text: string, header: string, footer: string)

  datatype Format = Txt | Json | Srt | Vtt

  /** `type_outputs`: the file extensions that have a writer. */
  const TypeOutputs: map<string, Format> := map["txt" := Txt, "json" := Json, "srt" := Srt, "vtt" := Vtt]

  /** The rule written under the txt header. */
  const Rule: string := "------------------------------------------------------"

  lemma TypeOutputsKeys()
    ensures TypeOutputs.Keys == {"txt", "json", "srt", "vtt"}
    ensures forall e :: e in TypeOutputs ==> |e| <= 4
  {
  }

  // ---------------------------------------------------------------------
  // What each writer appends

  /** `to_txt`: the header and a rule on the first call, nothing on the footer
      call, otherwise one line "HH:MM:SS, HH:MM:SS - text" of wall and elapsed time. */
  function TxtText(c: Call): string
  {
    (if c.header != "" then TxtHeading(c.header) else "")
    + (if c.footer != "" then "" else TxtStamp(c) + c.text)
  }

  function TxtHeading(header: string): string
  {
    header + "\n" + Rule + "\n"
  }

  function TxtStamp(c: Call): string
  {
    "\n" + HMS(c.wall) + ", " + HMS(c.rel) + " - "
  }

  /** A JSON string literal (escaping is not modelled). */
  function JsonString(s: string): string
  {
    "\"" + s + "\""
  }

  /** `s[:-1]`. */
  function DropLast(s: string): (r: string)
    ensures |s| >= 1 ==> r + [s[|s| - 1]] == s
    ensures |s| == 0 ==> r == ""
  {
    if s == [] then [] else s[..|s| - 1]
  }

  /** The header fields `to_json` extracts: the third space-separated field
      without its last character, and the last two fields, the final one
      without its last character. A header with fewer than three fields
      raises IndexError, which is None here. */
  function HeaderFields(header: string): (r: Option<(string, string)>)
    ensures r.None? <==> |Split(header, ' ')| < 3
  {
    var fields := Split(header, ' ');
    if |fields| < 3 then None
    else Some((DropLast(fields[2]),
               fields[|fields| - 2] + " " + DropLast(fields[|fields| - 1])))
  }

  /** One member of a JSON object, `"key": value`. */
  function Member(key: string, value: string): string
  {
    JsonString(key) + ": " + value
  }

  /** The header object, written with `json.dump` defaults. */
  function HeaderObject(name: string, created: string): string
  {
    "{" + Member("audio_file_name", JsonString(name)) + ", "
        + Member("creation_timestamp", JsonString(created)) + "}"
  }

  /** One entry object, written with `json.dump(..., indent=4)`. */
  function EntryObject(c: Call): string
  {
    var sep := ",\n    ";
    "{\n    " + Member("time_stamp", JsonString(StampText(c.wall))) + sep
              + Member("rel_timestamp", JsonString(HMS(c.rel))) + sep
              + Member("duration", NatToString(c.duration)) + sep
              + Member("text", JsonString(c.text)) + "\n}"
  }

  /** What one call appends, and whether it raised before returning. */
  datatype Written = Written(text: string, raised: bool)

  /** `to_json`: a header call opens the array and writes the header object,
      then, like every call that is not the footer, a comma and the entry
      object; the footer call only closes the array. */
  function JsonText(c: Call): (r: Written)
    ensures r.raised <==> c.header != "" && HeaderFields(c.header).None?
  {
    if c.header != "" then
      var opening := JsonOpening(c.header);
      if opening.raised then opening else Written(opening.text + (",\n" + EntryObject(c)), false)
    else if c.footer != "" then Written("\n]", false)
    else Written(",\n" + EntryObject(c), false)
  }

  /** What a header call writes before its entry: `[` and the header object,
      or only `[` when the header has too few fields. */
  function JsonOpening(header: string): (r: Written)
    ensures r.raised <==> HeaderFields(header).None?
  {
    match HeaderFields(header)
    case None => Written("[\n", true)
    case Some(fields) => Written("[\n" + HeaderObject(fields.0, fields.1), false)
  }

  /** The cue timing line shared by srt and vtt, with the millisecond
      separator `ms` (`,` for srt, `.` for vtt). */
  function CueTiming(c: Call, ms: char): string
  {
    HMS(c.rel) + [ms] + "000 --> " + HMS(c.rel + c.duration) + [ms] + "000\n"
  }

  /** `to_srt` after the counter became n: two newlines before the first cue,
      nothing for the footer, otherwise the cue numbered n. */
  function SrtText(n: nat, c: Call): string
  {
    var cue := SrtNumber(n) + (CueTiming(c, ',') + c.text);
    if c.header != "" then "\n\n" + cue
    else if c.footer != "" then ""
    else cue
  }

  /** The cue number line `str(static_count) + "\n"`. */
  function SrtNumber(n: nat): string
  {
    NatToString(n) + "\n"
  }

  /** `to_vtt`: the `WEBVTT - header` line before the first cue, nothing for
      the footer, otherwise a blank line and the cue. */
  function VttText(c: Call): string
  {
    var cue := "\n\n" + (CueTiming(c, '.') + c.text);
    if c.header != "" then ("WEBVTT - " + c.header) + cue
    else if c.footer != "" then ""
    else cue
  }

  /** A cue ends `duration` seconds after it starts, on the 24-hour clock. */
  lemma CueEndTime(c: Call)
    ensures ParseHMS(HMS(c.rel)) == Some(c.rel % SecondsPerDay)
    ensures ParseHMS(HMS(c.rel + c.duration))
         == Some((ParseHMS(HMS(c.rel)).value + c.duration) % SecondsPerDay)
  {
    var start, end := c.rel, c.rel + c.duration;
    HMSRoundTrip(start);
    HMSRoundTrip(end);
    Arith.ModAdd(start, c.duration, SecondsPerDay);
    assert ParseHMS(HMS(start)).value == start % SecondsPerDay;
    assert (start % SecondsPerDay + c.duration) % SecondsPerDay == end % SecondsPerDay;
  }

  /** What a header call of `to_json` writes, by whether its header has enough fields. */
  lemma JsonHeaderCall(c: Call)
    requires c.header != ""
    ensures HeaderFields(c.header).None? ==> JsonText(c) == Written("[\n", true)
    ensures HeaderFields(c.header).Some? ==>
      var fields := HeaderFields(c.header).value;
      JsonText(c) == Written("[\n" + HeaderObject(fields.0, fields.1) + (",\n" + EntryObject(c)), false)
  {
  }

  /** An srt call that is not the footer writes its opening and then the cue. */
  lemma SrtTextShape(n: nat, c: Call)
    requires c.header != "" || c.footer == ""
    ensures SrtText(n, c)
         == (if c.header != "" then "\n\n" else "") + (SrtNumber(n) + (CueTiming(c, ',') + c.text))
  {
  }

  /** A vtt call that is not the footer writes its opening and then the cue. */
  lemma VttTextShape(c: Call)
    requires c.header != "" || c.footer == ""
    ensures VttText(c)
         == (if c.header != "" then "WEBVTT - " + c.header else "") + ("\n\n" + (CueTiming(c, '.') + c.text))
  {
  }

  /** Regrouping an append of two pieces. */
  lemma Assoc3(a: string, b: string, c: string)
    ensures a + b + c == a + (b + c)
  {
  }

  /** Regrouping an append of three pieces. */
  lemma Assoc(a: string, b: string, c: string, d: string)
    ensures a + b + c + d == a + (b + (c + d))
  {
  }

  /** Regrouping an append of four pieces. */
  lemma Assoc5(a: string, b: string, c: string, d: string, e: string)
    ensures a + b + c + d + e == a + (b + (c + (d + e)))
    ensures a + b + c + d + e == a + ((b + c) + (d + e))
  {
  }

  // ---------------------------------------------------------------------
  // The writers over a file

  /** An open text file: writing appends. */
  class TextFile {
    var content: string

    constructor ()
      ensures content == ""
    {
      content := "";
    }

    method Write(s: string)
      modifies this
      ensures content == old(content) + s
    {
      content := content + s;
    }
  }

  /** The `outputs` module: its one piece of state is `static_count`. */
  class Writers {
    var staticCount: nat

    constructor ()
      ensures staticCount == 0
    {
      staticCount := 0;
    }

    method ToTxt(f: TextFile, c: Call)
      modifies f
      ensures f.content == old(f.content) + TxtText(c)
    {
      ghost var before := f.content;
      var heading := if c.header != "" then TxtHeading(c.header) else "";
      if c.header != "" {
        f.Write(heading);
      }
      if c.footer != "" {
        assert f.content == before + heading;
        return;
      }
      var stamp := TxtStamp(c);
      f.Write(stamp);
      f.Write(c.text);
      Assoc(before, heading, stamp, c.text);
    }

    method ToJson(f: TextFile, c: Call) returns (raised: bool)
      modifies f
      ensures f.content == old(f.content) + JsonText(c).text
      ensures raised == JsonText(c).raised
    {
      ghost var before := f.content;
      raised := false;
      if c.header == "" && c.footer != "" {
        f.Write("\n]");
        return;
      }
      var entry := EntryObject(c);
      if c.header == "" {
        f.Write(",\n");
        f.Write(entry);
        Assoc3(before, ",\n", entry);
        return;
      }
      f.Write("[\n");
      var fields := HeaderFields(c.header);
      JsonHeaderCall(c);
      if fields.None? {
        return true;
      }
      var headerObject := HeaderObject(fields.value.0, fields.value.1);
      f.Write(headerObject);
      f.Write(",\n");
      f.Write(entry);
      ghost var opening, tail := "[\n" + headerObject, ",\n" + entry;
      Assoc3(before, "[\n", headerObject);
      Assoc3(before + opening, ",\n", entry);
      Assoc3(before, opening, tail);
    }

    method ToSrt(f: TextFile, c: Call)
      modifies this, f
      ensures staticCount == old(staticCount) + 1
      ensures f.content == old(f.content) + SrtText(staticCount, c)
    {
      ghost var before := f.content;
      staticCount := staticCount + 1;
      if c.header == "" && c.footer != "" {
        return;
      }
      var opening := if c.header != "" then "\n\n" else "";
      if c.header != "" {
        f.Write(opening);
      }
      assert f.content == before + opening;
      var number := SrtNumber(staticCount);
      var timing := CueTiming(c, ',');
      f.Write(number);
      f.Write(timing);
      f.Write(c.text);
      SrtTextShape(staticCount, c);
      Assoc5(before, opening, number, timing, c.text);
    }

    method ToVtt(f: TextFile, c: Call)
      modifies this, f
      ensures staticCount == old(staticCount) + 1
      ensures f.content == old(f.content) + VttText(c)
    {
      ghost var before := f.content;
      staticCount := staticCount + 1;
      if c.header == "" && c.footer != "" {
        return;
      }
      var opening := if c.header != "" then "WEBVTT - " + c.header else "";
      if c.header != "" {
        f.Write(opening);
      }
      assert f.content == before + opening;
      var timing := CueTiming(c, '.');
      f.Write("\n\n");
      f.Write(timing);
      f.Write(c.text);
      VttTextShape(c);
      Assoc5(before, opening, "\n\n", timing, c.text);
    }

    /** `type_outputs[file_type](...)`: the writer of the format. */
    method Output(fmt: Format, f: TextFile, c: Call) returns (raised: bool)
      modifies this, f
      ensures Sink(f.content, staticCount, raised) == Apply(fmt, Sink(old(f.content), old(staticCount), false), c)
    {
      ghost var st := Sink(f.content, staticCount, false);
      raised := false;
      match fmt {
        case Txt =>
          ToTxt(f, c);
          assert Apply(fmt, st, c) == Sink(st.content + TxtText(c), st.count, false);
        case Json =>
          raised := ToJson(f, c);
          assert Apply(fmt, st, c) == Sink(st.content + JsonText(c).text, st.count, JsonText(c).raised);
        case Srt =>
          ToSrt(f, c);
          assert Apply(fmt, st, c) == Sink(st.content + SrtText(st.count + 1, c), st.count + 1, false);
        case Vtt =>
          ToVtt(f, c);
          assert Apply(fmt, st, c) == Sink(st.content + VttText(c), st.count + 1, false);
      }
    }

    /** Makes the calls of a trace one after another, as `from_wav` does; an
        exception ends the run. */
    method WriteAll(fmt: Format, f: TextFile, calls: seq<Call>) returns (raised: bool)
      modifies this, f
      ensures Sink(f.content, staticCount, raised) == Replay(fmt, Sink(old(f.content), old(staticCount), false), calls)
    {
      ghost var goal := Replay(fmt, Sink(f.content, staticCount, false), calls);
      raised := false;
      var i := 0;
      while i < |calls| && !raised
        invariant 0 <= i <= |calls|
        invariant goal == Replay(fmt, Sink(f.content, staticCount, raised), calls[i..])
      {
        ghost var st := Sink(f.content, staticCount, raised);
        ReplayCons(fmt, st, calls[i..]);
        assert calls[i..][1..] == calls[i + 1..];
        raised := Output(fmt, f, calls[i]);
        i := i + 1;
      }
      if raised {
        RaisedStays(fmt, Sink(f.content, staticCount, raised), calls[i..]);
      }
    }
  }

  // ---------------------------------------------------------------------
  // Replaying a trace of calls

  /** The file content, `static_count` and whether an exception escaped. */
  datatype Sink = Sink(content: string, count: nat, raised: bool)

  /** One call on a sink; after an exception nothing more is written. */
  function Apply(fmt: Format, st: Sink, c: Call): (r: Sink)
    ensures st.raised ==> r == st
  {
    if st.raised then st
    else match fmt
      case Txt => Sink(st.content + TxtText(c), st.count, false)
      case Json => var w := JsonText(c); Sink(st.content + w.text, st.count, w.raised)
      case Srt => Sink(st.content + SrtText(st.count + 1, c), st.count + 1, false)
      case Vtt => Sink(st.content + VttText(c), st.count + 1, false)
  }

  /** One call only appends to the file. */
  lemma ApplyExtends(fmt: Format, st: Sink, c: Call)
    ensures var r := Apply(fmt, st, c);
      |r.content| >= |st.content| && r.content[..|st.content|] == st.content
  {
    var r := Apply(fmt, st, c);
    if !st.raised {
      var w := r.content[|st.content|..];
      assert r.content == st.content + w;
    }
  }

  function Replay(fmt: Format, st: Sink, calls: seq<Call>): Sink
    decreases |calls|
  {
    if calls == [] then st else Replay(fmt, Apply(fmt, st, calls[0]), calls[1..])
  }

  lemma ReplayCons(fmt: Format, st: Sink, calls: seq<Call>)
    requires calls != []
    ensures Replay(fmt, st, calls) == Replay(fmt, Apply(fmt, st, calls[0]), calls[1..])
  {
  }

  lemma ReplayOne(fmt: Format, st: Sink, c: Call)
    ensures Replay(fmt, st, [c]) == Apply(fmt, st, c)
  {
    assert [c][1..] == [];
  }

  lemma {:induction false} RaisedStays(fmt: Format, st: Sink, calls: seq<Call>)
    requires st.raised
    ensures Replay(fmt, st, calls) == st
    decreases |calls|
  {
    if calls != [] {
      RaisedStays(fmt, st, calls[1..]);
    }
  }

  /** Replaying two traces one after the other is replaying their concatenation. */
  lemma {:induction false} ReplayAppend(fmt: Format, st: Sink, a: seq<Call>, b: seq<Call>)
    ensures Replay(fmt, st, a + b) == Replay(fmt, Replay(fmt, st, a), b)
    decreases |a|
  {
    if a == [] {
      assert a + b == b;
    } else {
      assert (a + b)[0] == a[0];
      assert (a + b)[1..] == a[1..] + b;
      ReplayAppend(fmt, Apply(fmt, st, a[0]), a[1..], b);
    }
  }

  /** The srt and vtt writers bump `static_count` once per call, header and
      footer calls included, and never reset it; txt and json leave it alone. */
  lemma {:induction false} CountAfterReplay(fmt: Format, st: Sink, calls: seq<Call>)
    requires !st.raised && fmt != Json
    ensures !Replay(fmt, st, calls).raised
    ensures Replay(fmt, st, calls).count == st.count + (if fmt == Txt then 0 else |calls|)
    decreases |calls|
  {
    if calls != [] {
      CountAfterReplay(fmt, Apply(fmt, st, calls[0]), calls[1..]);
    }
  }

  /** The content only grows: what was in the file stays a prefix. */
  lemma {:induction false} ReplayExtends(fmt: Format, st: Sink, calls: seq<Call>)
    ensures var r := Replay(fmt, st, calls);
      |r.content| >= |st.content| && r.content[..|st.content|] == st.content
    decreases |calls|
  {
    if calls != [] {
      var next := Apply(fmt, st, calls[0]);
      ApplyExtends(fmt, st, calls[0]);
      ReplayExtends(fmt, next, calls[1..]);
      var r := Replay(fmt, next, calls[1..]);
      assert r.content[..|st.content|] == r.content[..|next.content|][..|st.content|];
    }
  }

  // ---------------------------------------------------------------------
  // Header, plain and footer calls

  /** A plain call: neither header nor footer. */
  predicate Plain(c: Call)
  {
    c.header == "" && c.footer == ""
  }

  /** The entry a call writes for its own window, `n` being `static_count` after the call. */
  function Entry(fmt: Format, n: nat, c: Call): string
  {
    match fmt
    case Txt => TxtStamp(c) + c.text
    case Json => ",\n" + EntryObject(c)
    case Srt => SrtNumber(n) + (CueTiming(c, ',') + c.text)
    case Vtt => "\n\n" + (CueTiming(c, '.') + c.text)
  }

  /** What a header call writes before its entry. */
  function Opening(fmt: Format, header: string): string
  {
    match fmt
    case Txt => TxtHeading(header)
    case Json => JsonOpening(header).text
    case Srt => "\n\n"
    case Vtt => "WEBVTT - " + header
  }

  function NextCount(fmt: Format, n: nat): nat
  {
    if fmt == Srt || fmt == Vtt then n + 1 else n
  }

  /** A plain call writes exactly its entry and never raises. */
  lemma PlainWrites(fmt: Format, st: Sink, c: Call)
    requires !st.raised && Plain(c)
    ensures Apply(fmt, st, c) == Sink(st.content + Entry(fmt, st.count + 1, c), NextCount(fmt, st.count), false)
  {
    var entry := Entry(fmt, st.count + 1, c);
    match fmt
    case Txt =>
      assert TxtText(c) == entry;
      assert Apply(Txt, st, c) == Sink(st.content + TxtText(c), st.count, false);
    case Json =>
      assert JsonText(c) == Written(entry, false);
      assert Apply(Json, st, c) == Sink(st.content + JsonText(c).text, st.count, false);
    case Srt =>
      assert SrtText(st.count + 1, c) == entry;
      assert Apply(Srt, st, c) == Sink(st.content + SrtText(st.count + 1, c), st.count + 1, false);
    case Vtt =>
      assert VttText(c) == entry;
      assert Apply(Vtt, st, c) == Sink(st.content + VttText(c), st.count + 1, false);
  }

  /** A header call writes the format's opening and then the same entry as a plain call. */
  lemma HeaderWrites(fmt: Format, st: Sink, c: Call)
    requires !st.raised && c.header != "" && c.footer == ""
    requires HeaderFields(c.header).Some?
    ensures Apply(fmt, st, c)
         == Sink(st.content + (Opening(fmt, c.header) + Entry(fmt, st.count + 1, c)), NextCount(fmt, st.count), false)
  {
    HeaderCallText(fmt, st.count + 1, c);
    match fmt
    case Txt => assert Apply(Txt, st, c) == Sink(st.content + TxtText(c), st.count, false);
    case Json => assert Apply(Json, st, c) == Sink(st.content + JsonText(c).text, st.count, false);
    case Srt => assert Apply(Srt, st, c) == Sink(st.content + SrtText(st.count + 1, c), st.count + 1, false);
    case Vtt => assert Apply(Vtt, st, c) == Sink(st.content + VttText(c), st.count + 1, false);
  }

  /** What each writer appends for a header call, as opening then entry. */
  lemma HeaderCallText(fmt: Format, n: nat, c: Call)
    requires c.header != "" && c.footer == "" && HeaderFields(c.header).Some?
    ensures fmt == Txt ==> TxtText(c) == Opening(Txt, c.header) + Entry(Txt, n, c)
    ensures fmt == Json ==> JsonText(c) == Written(Opening(Json, c.header) + Entry(Json, n, c), false)
    ensures fmt == Srt ==> SrtText(n, c) == Opening(Srt, c.header) + Entry(Srt, n, c)
    ensures fmt == Vtt ==> VttText(c) == Opening(Vtt, c.header) + Entry(Vtt, n, c)
  {
  }

  /** The footer call writes nothing in txt, srt and vtt, and only `\n]` in json;
      srt and vtt still count it. */
  lemma FooterWrites(fmt: Format, st: Sink, c: Call)
    requires !st.raised && c.header == "" && c.footer != ""
    ensures Apply(fmt, st, c) == Sink(st.content + (if fmt == Json then "\n]" else ""), NextCount(fmt, st.count), false)
  {
  }

  /** Plain calls never raise, and srt and vtt count every one of them. */
  lemma {:induction false} PlainReplay(fmt: Format, st: Sink, calls: seq<Call>)
    requires !st.raised
    requires forall i :: 0 <= i < |calls| ==> Plain(calls[i])
    ensures !Replay(fmt, st, calls).raised
    ensures Replay(fmt, st, calls).count == st.count + (if fmt == Srt || fmt == Vtt then |calls| else 0)
    decreases |calls|
  {
    if calls != [] {
      PlainWrites(fmt, st, calls[0]);
      PlainReplay(fmt, Apply(fmt, st, calls[0]), calls[1..]);
    }
  }

  /** A header call followed by plain calls: the file gains the format's
      opening first, nothing raises, and srt and vtt count every call. */
  lemma HeaderThenPlain(fmt: Format, st: Sink, first: Call, middle: seq<Call>)
    requires !st.raised && first.header != "" && first.footer == "" && HeaderFields(first.header).Some?
    requires forall i :: 0 <= i < |middle| ==> Plain(middle[i])
    ensures var r := Replay(fmt, st, [first] + middle);
      var prefix := st.content + Opening(fmt, first.header);
      !r.raised
      && |r.content| >= |prefix| && r.content[..|prefix|] == prefix
      && r.count == st.count + (if fmt == Srt || fmt == Vtt then |middle| + 1 else 0)
  {
    var st1 := Apply(fmt, st, first);
    HeaderWrites(fmt, st, first);
    ReplayOne(fmt, st, first);
    ReplayAppend(fmt, st, [first], middle);
    PlainReplay(fmt, st1, middle);
    ReplayExtends(fmt, st1, middle);
    var prefix := st.content + Opening(fmt, first.header);
    AppendKeepsPrefix(st.content, Opening(fmt, first.header), Entry(fmt, st.count + 1, first));
    PrefixTransitive(prefix, st1.content, Replay(fmt, st1, middle).content);
  }

  lemma AppendKeepsPrefix(a: string, b: string, c: string)
    ensures |a + b| <= |a + (b + c)| && (a + (b + c))[..|a + b|] == a + b
  {
    assert a + (b + c) == (a + b) + c;
  }

  lemma PrefixTransitive(p: string, a: string, b: string)
    requires |p| <= |a| && a[..|p|] == p
    requires |a| <= |b| && b[..|a|] == a
    ensures b[..|p|] == p
  {
    assert b[..|p|] == b[..|a|][..|p|];
  }

  /** A header call, plain calls, then a footer call: as HeaderThenPlain, with
      the footer counted by srt and vtt, and json ending with the footer's `]`. */
  lemma HeaderPlainFooter(fmt: Format, st: Sink, first: Call, middle: seq<Call>, last: Call)
    requires !st.raised && first.header != "" && first.footer == "" && HeaderFields(first.header).Some?
    requires forall i :: 0 <= i < |middle| ==> Plain(middle[i])
    requires last.header == "" && last.footer != ""
    ensures var r := Replay(fmt, st, [first] + middle + [last]);
      var prefix := st.content + Opening(fmt, first.header);
      !r.raised
      && |r.content| >= |prefix| && r.content[..|prefix|] == prefix
      && r.count == st.count + (if fmt == Srt || fmt == Vtt then |middle| + 2 else 0)
      && (fmt == Json ==> |r.content| >= 2 && r.content[|r.content| - 2..] == "\n]")
  {
    var calls := [first] + middle;
    HeaderThenPlain(fmt, st, first, middle);
    var st2 := Replay(fmt, st, calls);
    var r := Apply(fmt, st2, last);
    FooterWrites(fmt, st2, last);
    ReplayOne(fmt, st2, last);
    ReplayAppend(fmt, st, calls, [last]);
    assert Replay(fmt, st, calls + [last]) == r;
    ApplyExtends(fmt, st2, last);
    PrefixTransitive(st.content + Opening(fmt, first.header), st2.content, r.content);
  }
}
