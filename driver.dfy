/** The selection rules of the command-line driver: which input devices are
    recorded, which recognition model directory is used, and how an output
    name that already exists is renamed with `_copy`. The device list, the
    directory listing and the set of existing file names are parameters. */
module Driver {

  import opened Results
  import opened Text
  import Outputs
  import Transcriber

  // ---------------------------------------------------------------------
  // Input devices

  /** What the loop reads of a device record; `backend` is the name of its
      host API, looked up by the record's `hostApi` index. */
  datatype DeviceInfo = DeviceInfo(index: int, name: string, maxInputChannels: int, backend: string)

  /** The command-line flags and the four device strings after defaults. */
  datatype Selection = Selection(noDesktop: bool, noMic: bool,
                                 desktopName: string, desktopBackend: string,
                                 micName: string, micBackend: string)

  /** The desktop (stereo mix) rule: two input channels, the name contains the
      wanted text and the backend equals the wanted backend, both ignoring case. */
  predicate DesktopMatch(s: Selection, d: DeviceInfo)
  {
    !s.noDesktop && d.maxInputChannels == 2
    && Contains(Upper(d.name), Upper(s.desktopName))
    && Upper(d.backend) == Upper(s.desktopBackend)
  }

  /** The microphone rule: as the desktop rule, but the backend need only
      contain the wanted backend. */
  predicate MicMatch(s: Selection, d: DeviceInfo)
  {
    !s.noMic && d.maxInputChannels == 2
    && Contains(Upper(d.name), Upper(s.micName))
    && Contains(Upper(d.backend), Upper(s.micBackend))
  }

  /** What one device adds to the list: its index once, whichever branch takes it. */
  function Pick(s: Selection, d: DeviceInfo): seq<int>
  {
    if DesktopMatch(s, d) || MicMatch(s, d) then [d.index] else []
  }

  /** The indices the loop collects from the devices, in enumeration order. */
  function Selected(s: Selection, devices: seq<DeviceInfo>): seq<int>
  {
    if devices == [] then []
    else Selected(s, devices[..|devices| - 1]) + Pick(s, devices[|devices| - 1])
  }

  /** The device loop. The two found flags are reset for every device, so
      they never stop a later device from matching. */
  method SelectInputDevices(s: Selection, devices: seq<DeviceInfo>) returns (inputDevices: seq<int>)
    ensures inputDevices == Selected(s, devices)
  {
    inputDevices := [];
    for x := 0 to |devices|
      invariant inputDevices == Selected(s, devices[..x])
    {
      assert devices[..x + 1][..x] == devices[..x];
      var b := devices[x];
      var desktopFound := false;
      var micFound := false;
      if !s.noDesktop && !desktopFound && b.maxInputChannels == 2
         && Contains(Upper(b.name), Upper(s.desktopName))
         && Upper(b.backend) == Upper(s.desktopBackend)
      {
        inputDevices := inputDevices + [b.index];
        desktopFound := true;
      } else if !s.noMic && !micFound && b.maxInputChannels == 2
         && Contains(Upper(b.name), Upper(s.micName))
         && Contains(Upper(b.backend), Upper(s.micBackend))
      {
        inputDevices := inputDevices + [b.index];
        micFound := true;
      }
    }
    assert devices[..|devices|] == devices;
  }

  /** Device i is taken by one of the two rules and has index x. */
  predicate ChosenAt(s: Selection, devices: seq<DeviceInfo>, i: int, x: int)
  {
    0 <= i < |devices| && devices[i].index == x && (DesktopMatch(s, devices[i]) || MicMatch(s, devices[i]))
  }

  /** The selection of a concatenated device list is the two selections, in order. */
  lemma {:induction false} SelectedAppend(s: Selection, a: seq<DeviceInfo>, b: seq<DeviceInfo>)
    ensures Selected(s, a + b) == Selected(s, a) + Selected(s, b)
    decreases |b|
  {
    if b == [] {
      assert a + b == a;
    } else {
      var b' := b[..|b| - 1];
      assert (a + b)[..|a + b| - 1] == a + b';
      SelectedAppend(s, a, b');
    }
  }

  /** Each device contributes at most one index, so the list is never longer than the devices. */
  lemma {:induction false} SelectedLength(s: Selection, devices: seq<DeviceInfo>)
    ensures |Selected(s, devices)| <= |devices|
    decreases |devices|
  {
    if devices != [] {
      SelectedLength(s, devices[..|devices| - 1]);
    }
  }

  /** An index is collected exactly when some device with that index passes a rule. */
  lemma {:induction false} SelectedMembership(s: Selection, devices: seq<DeviceInfo>, x: int)
    ensures x in Selected(s, devices) <==> exists i :: ChosenAt(s, devices, i, x)
    decreases |devices|
  {
    if devices != [] {
      var n := |devices| - 1;
      var front := devices[..n];
      SelectedMembership(s, front, x);
      if x in Selected(s, devices) && x !in Selected(s, front) {
        assert ChosenAt(s, devices, n, x);
      }
      if exists i :: ChosenAt(s, devices, i, x) {
        var i :| ChosenAt(s, devices, i, x);
        if i < n {
          assert ChosenAt(s, front, i, x);
        }
      }
      if exists i :: ChosenAt(s, front, i, x) {
        var i :| ChosenAt(s, front, i, x);
        assert ChosenAt(s, devices, i, x);
      }
    }
  }

  /** `--no_desktop` and `--no_mic` each switch off only their own rule: a
      device the desktop rule skips is still offered to the microphone rule. */
  lemma FlagsDisableOwnRule(s: Selection, d: DeviceInfo)
    ensures Pick(s.(noDesktop := true), d) == if MicMatch(s, d) then [d.index] else []
    ensures Pick(s.(noMic := true), d) == if DesktopMatch(s, d) then [d.index] else []
    ensures Pick(s.(noDesktop := true, noMic := true), d) == []
  {
  }

  /** Several devices can be taken by the same rule: two stereo-mix devices
      with the same backend are both recorded. */
  lemma SameRuleTwice(s: Selection, d: DeviceInfo, e: DeviceInfo)
    requires DesktopMatch(s, d) && DesktopMatch(s, e)
    ensures Selected(s, [d, e]) == [d.index, e.index]
  {
    assert [d, e][..1] == [d];
    assert [d][..0] == [];
    assert Selected(s, [d]) == [d.index];
  }

  /** The backend "Windows WASAPI" fails the desktop rule for the wanted backend
      "wasapi" (equality) but passes the microphone rule (containment). */
  lemma BackendEqualityVersusContainment(d: DeviceInfo, s: Selection)
    requires d.backend == "Windows WASAPI" && s.desktopBackend == "wasapi" && s.micBackend == "wasapi"
    ensures !DesktopMatch(s, d)
    ensures d.maxInputChannels == 2 && !s.noMic && Contains(Upper(d.name), Upper(s.micName)) ==> MicMatch(s, d)
  {
    var backend := Upper(d.backend);
    var wanted := Upper(s.micBackend);
    assert |backend| == 14 && |wanted| == 6;
    assert wanted == "WASAPI";
    assert backend[8..14] == "WASAPI";
    assert OccursAt(backend, wanted, 8);
    ContainsIsOccurrence(backend, wanted);
  }

  // ---------------------------------------------------------------------
  // The recognition model directory

  /** An entry of the models directory. */
  datatype DirEntry = DirEntry(name: string, isDir: bool)

  predicate IsModel(e: DirEntry, wanted: string)
  {
    e.isDir && Contains(e.name, wanted)
  }

  /** The first listed directory whose name contains `wanted` (case-sensitive);
      None when there is none, where the program quits. */
  function FirstModel(entries: seq<DirEntry>, wanted: string): Option<string>
  {
    if entries == [] then None
    else if IsModel(entries[0], wanted) then Some(entries[0].name)
    else FirstModel(entries[1..], wanted)
  }

  /** Entry i is a model directory named `name` and no earlier entry is one. */
  predicate FirstModelAt(entries: seq<DirEntry>, wanted: string, i: int, name: string)
  {
    0 <= i < |entries| && IsModel(entries[i], wanted) && entries[i].name == name
    && forall j :: 0 <= j < i ==> !IsModel(entries[j], wanted)
  }

  /** The search finds a directory exactly when one is listed, and it finds
      the first one listed. */
  lemma {:induction false} FirstModelIsFirst(entries: seq<DirEntry>, wanted: string)
    ensures FirstModel(entries, wanted).Some? <==> exists i :: 0 <= i < |entries| && IsModel(entries[i], wanted)
    ensures FirstModel(entries, wanted).Some? ==> exists i :: FirstModelAt(entries, wanted, i, FirstModel(entries, wanted).value)
  {
    if entries != [] && !IsModel(entries[0], wanted) {
      var rest := entries[1..];
      FirstModelIsFirst(rest, wanted);
      assert forall i :: 1 <= i < |entries| ==> entries[i] == rest[i - 1];
      if exists i :: 0 <= i < |entries| && IsModel(entries[i], wanted) {
        var i :| 0 <= i < |entries| && IsModel(entries[i], wanted);
        assert IsModel(rest[i - 1], wanted);
      }
      if FirstModel(rest, wanted).Some? {
        var name := FirstModel(rest, wanted).value;
        var i :| FirstModelAt(rest, wanted, i, name);
        assert FirstModelAt(entries, wanted, i + 1, name);
      }
    } else if entries != [] {
      assert FirstModelAt(entries, wanted, 0, entries[0].name);
    }
  }

  /** The search loop with its `break`. */
  method FindModel(entries: seq<DirEntry>, wanted: string) returns (modelName: Option<string>)
    ensures modelName == FirstModel(entries, wanted)
  {
    modelName := None;
    var x := 0;
    while x < |entries|
      invariant 0 <= x <= |entries|
      invariant FirstModel(entries, wanted) == FirstModel(entries[x..], wanted)
    {
      assert entries[x..][1..] == entries[x + 1..];
      if entries[x].isDir && Contains(entries[x].name, wanted) {
        modelName := Some(entries[x].name);
        return;
      }
      x := x + 1;
    }
  }

  // ---------------------------------------------------------------------
  // `_copy` renaming

  /** `name[:-4] + '_copy' + name[-4:]`: `_copy` goes before the last four
      characters; a name shorter than four characters gets it in front. */
  function CopyName(name: string): (r: string)
    ensures |r| == |name| + 5
  {
    if |name| >= 4 then name[..|name| - 4] + "_copy" + name[|name| - 4..]
    else "_copy" + name
  }

  /** Taking `_copy` back out of a renamed name. */
  function UncopyName(r: string): string
  {
    if |r| >= 9 then r[..|r| - 9] + r[|r| - 4..] else if |r| >= 5 then r[5..] else r
  }

  /** Renaming keeps what it was given: UncopyName undoes CopyName, so two
      different names never rename to the same name. */
  lemma CopyNameRoundTrip(name: string)
    ensures UncopyName(CopyName(name)) == name
  {
    var r := CopyName(name);
    if |name| >= 4 {
      assert r[..|r| - 9] == name[..|name| - 4];
      assert r[|r| - 4..] == name[|name| - 4..];
    } else {
      assert r[5..] == name;
    }
  }

  lemma CopyNameInjective(a: string, b: string)
    requires CopyName(a) == CopyName(b)
    ensures a == b
  {
    CopyNameRoundTrip(a);
    CopyNameRoundTrip(b);
  }

  /** Renaming keeps the last four characters and everything before them. */
  lemma CopyNameKeepsEnds(name: string)
    requires |name| >= 4
    ensures CopyName(name)[|name| + 1..] == name[|name| - 4..]
    ensures CopyName(name)[..|name| - 4] == name[..|name| - 4]
    ensures CopyName(name)[|name| - 4..|name| + 1] == "_copy"
  {
  }

  /** The name after k renamings. */
  function Copies(name: string, k: nat): (r: string)
    ensures |r| == |name| + 5 * k
  {
    if k == 0 then name else CopyName(Copies(name, k - 1))
  }

  lemma {:induction false} CopiesShift(name: string, k: nat)
    ensures Copies(CopyName(name), k) == Copies(name, k + 1)
  {
    if k > 0 {
      CopiesShift(name, k - 1);
    }
  }

  /** The existing names at least as long as `name`: every renaming removes
      at least the current name from this set. */
  function Longer(name: string, existing: set<string>): set<string>
  {
    set e | e in existing && |e| >= |name|
  }

  /** How many times the loop renames: the least k with the k-th name free. */
  function CopyCount(name: string, existing: set<string>): (k: nat)
    ensures Copies(name, k) !in existing
    ensures forall j :: 0 <= j < k ==> Copies(name, j) in existing
    decreases Longer(name, existing)
  {
    if name !in existing then 0
    else
      assert name in Longer(name, existing) && name !in Longer(CopyName(name), existing);
      var k := CopyCount(CopyName(name), existing);
      CopiesShift(name, k);
      forall j | 0 <= j < k + 1 ensures Copies(name, j) in existing {
        if j > 0 {
          CopiesShift(name, j - 1);
        }
      }
      k + 1
  }

  /** `while os.path.exists(name): name = name[:-4] + '_copy' + name[-4:]`;
      the loop ends because every step leaves the set of existing names at
      least as long as the current one smaller. */
  method UniqueName(name: string, existing: set<string>) returns (r: string)
    ensures r == Copies(name, CopyCount(name, existing))
    ensures r !in existing
  {
    r := name;
    ghost var k: nat := 0;
    while r in existing
      invariant r == Copies(name, k)
      invariant CopyCount(name, existing) == k + CopyCount(r, existing)
      decreases Longer(r, existing)
    {
      assert r in Longer(r, existing) && r !in Longer(CopyName(r), existing);
      CopiesShift(name, k);
      r := CopyName(r);
      k := k + 1;
    }
  }

  /** The text after the last separator of a + [sep] + b is b when b has no separator. */
  lemma LastFieldOfJoin(a: string, b: string, sep: char)
    requires sep !in b
    ensures LastField(a + [sep] + b, sep) == b
  {
    SplitAtSeparator(a, b, sep);
    SplitOfField(b, sep);
  }

  /** A name with a three-letter extension keeps its output type when renamed. */
  lemma CopyKeepsShortExtension(name: string)
    requires |name| >= 4 && name[|name| - 4] == '.' && '.' !in name[|name| - 3..]
    ensures Transcriber.FileType(CopyName(name)) == Transcriber.FileType(name)
  {
    var ext := name[|name| - 3..];
    assert name == name[..|name| - 4] + ['.'] + ext;
    LastFieldOfJoin(name[..|name| - 4], ext, '.');
    assert CopyName(name) == name[..|name| - 4] + "_copy" + ['.'] + ext;
    LastFieldOfJoin(name[..|name| - 4] + "_copy", ext, '.');
  }

  /** A four-letter extension is split by the rename: "a.json" becomes
      "a._copyjson", whose type "_copyjson" has no writer. */
  lemma CopySplitsJsonExtension()
    ensures CopyName("a.json") == "a._copyjson"
    ensures Transcriber.FileType(CopyName("a.json")) == "_copyjson"
    ensures Transcriber.FileType(CopyName("a.json")) !in Outputs.TypeOutputs
  {
    assert "a._copyjson" == "a" + ['.'] + "_copyjson";
    LastFieldOfJoin("a", "_copyjson", '.');
    Outputs.TypeOutputsKeys();
  }
}
