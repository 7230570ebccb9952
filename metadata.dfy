/** `_get_sequence_infos`: frame size and length of each sequence, with their fallbacks. */
module Metadata {
  import opened Wrappers
  import opened Decimal
  import opened Layout

  datatype SequenceInfo = SequenceInfo(width: int, height: int, length: int, isStatic: bool)

  /** How many frames `range(length)` visits: none for a length below one. */
  function FrameCount(info: SequenceInfo): nat {
    if info.length > 0 then info.length else 0
  }

  /** The section names tried, in order; only the first one present is read. */
  const SectionNames: seq<string> := ["Sequence", "sequence"]
  /**
   * The option names tried for each value, preferred name first, as ConfigParser
   * compares them: its `optionxform` lower-cases `imWidth`, `imHeight` and
   * `seqLength` both when reading the file and when asked.
   */
  const WidthKeys: seq<string> := ["imwidth", "width"]
  const HeightKeys: seq<string> := ["imheight", "height"]
  const LengthKeys: seq<string> := ["seqlength", "length"]

  const DefaultWidth := 1920
  const DefaultHeight := 1080

  /** `ini.get(section, key, fallback=fallback)` on a section that exists. */
  function IniGet(ini: Ini, section: string, key: string, fallback: Option<string>): Option<string> {
    if (section, key) in ini.options then Some(ini.options[(section, key)]) else fallback
  }

  /** `int(value)`: `None` stands for the `TypeError` of `int(None)` and for a `ValueError`. */
  function IntOf(value: Option<string>): Option<int> {
    match value
    case None => None
    case Some(s) => ParseInt(s)
  }

  /** The size the image probe yields, or the default when there is no image or PIL fails. */
  function ProbedSize(image: FirstImage): (int, int) {
    match image
    case Size(w, h) => (w, h)
    case _ => (DefaultWidth, DefaultHeight)
  }

  // ---- The fallback chain as an ordered list of candidates ----

  /** The first of `names` that is a section of `ini`. */
  function FirstSection(ini: Ini, names: seq<string>): (r: Option<string>)
    ensures r.Some? ==> exists k :: 0 <= k < |names| && names[k] == r.value && r.value in ini.sections
                                 && forall j :: 0 <= j < k ==> names[j] !in ini.sections
    ensures r.None? ==> forall k :: 0 <= k < |names| ==> names[k] !in ini.sections
  {
    if names == [] then None
    else if names[0] in ini.sections then Some(names[0])
    else
      var r := FirstSection(ini, names[1..]);
      assert r.Some? ==> exists k :: 1 <= k < |names| && names[k] == r.value
                                   && forall j :: 0 <= j < k ==> names[j] !in ini.sections by {
        if r.Some? {
          var k :| 0 <= k < |names[1..]| && names[1..][k] == r.value
                   && forall j :: 0 <= j < k ==> names[1..][j] !in ini.sections;
          assert forall j :: 0 <= j < k + 1 ==> names[j] !in ini.sections by {
            forall j | 0 <= j < k + 1 ensures names[j] !in ini.sections {
              if j > 0 { assert names[j] == names[1..][j - 1]; }
            }
          }
        }
      }
      r
  }

  /** The value of the first of `keys` that is an option of `section`. */
  function FirstOption(ini: Ini, section: string, keys: seq<string>): (r: Option<string>)
    ensures r.Some? ==> exists k :: 0 <= k < |keys| && (section, keys[k]) in ini.options
                                 && r.value == ini.options[(section, keys[k])]
                                 && forall j :: 0 <= j < k ==> (section, keys[j]) !in ini.options
    ensures r.None? ==> forall k :: 0 <= k < |keys| ==> (section, keys[k]) !in ini.options
  {
    if keys == [] then None
    else if (section, keys[0]) in ini.options then Some(ini.options[(section, keys[0])])
    else FirstOption(ini, section, keys[1..])
  }

  /** The longest prefix of `fields` that `int()` accepts: the values kept when `int()` raises part-way. */
  function ParsedPrefix(fields: seq<Option<string>>): (r: seq<int>)
  {
    if fields == [] then []
    else match IntOf(fields[0])
      case Some(v) => [v] + ParsedPrefix(fields[1..])
      case None => []
  }

  /** Each kept value is what `int()` made of its field, and the first field not kept is one `int()` rejects. */
  lemma {:induction false} ParsedPrefixMeaning(fields: seq<Option<string>>)
    ensures |ParsedPrefix(fields)| <= |fields|
    ensures forall k :: 0 <= k < |ParsedPrefix(fields)| ==> IntOf(fields[k]) == Some(ParsedPrefix(fields)[k])
    ensures |ParsedPrefix(fields)| < |fields| ==> IntOf(fields[|ParsedPrefix(fields)|]) == None
  {
    if fields != [] && IntOf(fields[0]).Some? {
      ParsedPrefixMeaning(fields[1..]);
    }
  }

  /** Width, height and length as far as `seqinfo.ini` gives them, in that order. */
  function IniValues(ini: Ini): seq<int> {
    match FirstSection(ini, SectionNames)
    case None => []
    case Some(sec) =>
      ParsedPrefix([FirstOption(ini, sec, WidthKeys), FirstOption(ini, sec, HeightKeys), FirstOption(ini, sec, LengthKeys)])
  }

  /**
   * The metadata of one sequence: the INI values where they parse; otherwise
   * the length is the jpg count (0 without `img1`), and the size, unless both
   * width and height parsed, comes from the first image or the default.
   */
  function ResolvedInfo(e: Entry): (r: Result<SequenceInfo, LoadError>)
    ensures r.Failure? <==> e.seqinfo.Unreadable?
    ensures r.Success? ==> !r.value.isStatic
  {
    if e.seqinfo.Unreadable? then Failure(SeqInfoUnreadable)
    else
      var size := ResolvedSize(e);
      Success(SequenceInfo(size.0, size.1, ResolvedLength(e), false))
  }

  /** The INI length if it parsed, else the jpg count when `img1` is a directory, else 0. */
  function ResolvedLength(e: Entry): int {
    var length := IniValue(e, 2);
    if length.Some? then length.value else if e.hasImageDir then e.jpgCount else 0
  }

  /** The INI width and height if both parsed, else the probed or default size. */
  function ResolvedSize(e: Entry): (int, int) {
    var width, height := IniValue(e, 0), IniValue(e, 1);
    if width.Some? && height.Some? then (width.value, height.value) else ProbedSize(e.firstImage)
  }

  /** The value `seqinfo.ini` gives for position `k` (width, height, length), if any. */
  function IniValue(e: Entry, k: nat): Option<int> {
    if e.seqinfo.Parsed? then IniValueAt(e.seqinfo.ini, k) else None
  }

  function IniValueAt(ini: Ini, k: nat): Option<int> {
    var p := IniValues(ini);
    if k < |p| then Some(p[k]) else None
  }

  /** `ini.get(sec, a, fallback=ini.get(sec, b, fallback=None))` is the two-candidate priority list. */
  lemma FirstOptionOfTwo(ini: Ini, section: string, a: string, b: string)
    ensures FirstOption(ini, section, [a, b]) == IniGet(ini, section, a, IniGet(ini, section, b, None))
  {
    assert [a, b][1..] == [b];
    assert [b][1..] == [];
  }

  /** What the `try` block leaves behind, read off the candidate lists. */
  lemma IniValuesFrom(ini: Ini, s: nat, w: Option<int>, h: Option<int>, l: Option<int>)
    requires s < |SectionNames| && SectionNames[s] in ini.sections
    requires forall k :: 0 <= k < s ==> SectionNames[k] !in ini.sections
    requires w == IntOf(IniGet(ini, SectionNames[s], "imwidth", IniGet(ini, SectionNames[s], "width", None)))
    requires h == IntOf(IniGet(ini, SectionNames[s], "imheight", IniGet(ini, SectionNames[s], "height", None)))
    requires l == IntOf(IniGet(ini, SectionNames[s], "seqlength", IniGet(ini, SectionNames[s], "length", None)))
    ensures IniValues(ini) ==
      if w.None? then [] else if h.None? then [w.value] else if l.None? then [w.value, h.value]
      else [w.value, h.value, l.value]
  {
    var sec := SectionNames[s];
    assert FirstSection(ini, SectionNames) == Some(sec) by {
      if s == 1 {
        assert SectionNames[1..] == ["sequence"];
      }
    }
    FirstOptionOfTwo(ini, sec, "imwidth", "width");
    FirstOptionOfTwo(ini, sec, "imheight", "height");
    FirstOptionOfTwo(ini, sec, "seqlength", "length");
    ParsedPrefixOfThree(FirstOption(ini, sec, WidthKeys), FirstOption(ini, sec, HeightKeys), FirstOption(ini, sec, LengthKeys));
  }

  lemma ParsedPrefixOfThree(a: Option<string>, b: Option<string>, c: Option<string>)
    ensures ParsedPrefix([a, b, c]) ==
      if IntOf(a).None? then [] else if IntOf(b).None? then [IntOf(a).value]
      else if IntOf(c).None? then [IntOf(a).value, IntOf(b).value]
      else [IntOf(a).value, IntOf(b).value, IntOf(c).value]
  {
    var fields := [a, b, c];
    assert fields[1..] == [b, c];
    assert fields[1..][1..] == [c];
    assert fields[1..][1..][1..] == [];
    var x, y, z := IntOf(a), IntOf(b), IntOf(c);
    if x.Some? {
      assert ParsedPrefix(fields) == [x.value] + ParsedPrefix([b, c]);
      if y.Some? {
        assert ParsedPrefix([b, c]) == [y.value] + ParsedPrefix([c]);
        if z.Some? {
          assert ParsedPrefix([c]) == [z.value] + ParsedPrefix([]);
        }
      }
    }
  }

  // ---- The loader's step-by-step resolution ----

  /** The `for sec in ("Sequence", "sequence")` loop over a parsed `seqinfo.ini`. */
  method ReadSeqInfo(ini: Ini) returns (width: Option<int>, height: Option<int>, length: Option<int>)
    ensures width == IniValueAt(ini, 0) && height == IniValueAt(ini, 1) && length == IniValueAt(ini, 2)
  {
    width, height, length := None, None, None;
    for s := 0 to |SectionNames|
      invariant width.None? && height.None? && length.None?
      invariant forall k :: 0 <= k < s ==> SectionNames[k] !in ini.sections
    {
      var sec := SectionNames[s];
      if sec in ini.sections {
        // try: an int() that raises leaves the values stored before it
        var w := IntOf(IniGet(ini, sec, "imwidth", IniGet(ini, sec, "width", None)));
        var h := IntOf(IniGet(ini, sec, "imheight", IniGet(ini, sec, "height", None)));
        var l := IntOf(IniGet(ini, sec, "seqlength", IniGet(ini, sec, "length", None)));
        if w.Some? {
          width := w;
          if h.Some? {
            height := h;
            if l.Some? {
              length := l;
            }
          }
        }
        IniValuesFrom(ini, s, w, h, l);
        break;
      }
    }
    if width.None? {
      assert FirstSection(ini, SectionNames).None? ==> IniValues(ini) == [];
    }
  }

  /** Opening `img1/00000001.jpg` with PIL, or the default size when that is impossible. */
  method ProbeFirstImage(image: FirstImage) returns (width: int, height: int)
    ensures (width, height) == ProbedSize(image)
    ensures image.Size? ==> width == image.width && height == image.height
    ensures !image.Size? ==> width == 1920 && height == 1080
  {
    match image {
      case Size(w, h) =>
        width, height := w, h;
      case Undecodable =>
        width, height := DefaultWidth, DefaultHeight;
      case NoImage =>
        width, height := DefaultWidth, DefaultHeight;
    }
  }

  /** The body of the per-sequence loop of `_get_sequence_infos`. */
  method ResolveInfo(e: Entry) returns (r: Result<SequenceInfo, LoadError>)
    ensures r == ResolvedInfo(e)
  {
    var width: Option<int>, height: Option<int>, length: Option<int> := None, None, None;
    match e.seqinfo {
      case Unreadable =>
        return Failure(SeqInfoUnreadable);
      case NoIniFile =>
      case Parsed(ini) =>
        width, height, length := ReadSeqInfo(ini);
    }
    assert width == IniValue(e, 0) && height == IniValue(e, 1) && length == IniValue(e, 2);
    if length.None? {
      if e.hasImageDir {
        length := Some(e.jpgCount);
      }
      if length.None? {
        length := Some(0);
      }
    }
    assert length.value == ResolvedLength(e);
    if width.None? || height.None? {
      var w, h := ProbeFirstImage(e.firstImage);
      width, height := Some(w), Some(h);
    }
    assert (width.value, height.value) == ResolvedSize(e);
    r := Success(SequenceInfo(width.value, height.value, length.value, false));
  }

  /** `_get_sequence_infos`: the metadata of every discovered sequence, keyed by name. */
  method GetSequenceInfos(contents: SplitContents, names: seq<string>)
    returns (r: Result<map<string, SequenceInfo>, LoadError>)
    ensures r.Failure? <==> exists n :: n in names && EntryOf(contents, n).seqinfo.Unreadable?
    ensures r.Failure? ==> r.error == SeqInfoUnreadable
    ensures r.Success? ==> r.value.Keys == set n | n in names
    ensures r.Success? ==> forall n :: n in r.value ==> ResolvedInfo(EntryOf(contents, n)) == Success(r.value[n])
  {
    var infos: map<string, SequenceInfo> := map[];
    for i := 0 to |names|
      invariant infos.Keys == set k | 0 <= k < i :: names[k]
      invariant forall n :: n in infos ==> ResolvedInfo(EntryOf(contents, n)) == Success(infos[n])
      invariant forall k :: 0 <= k < i ==> !EntryOf(contents, names[k]).seqinfo.Unreadable?
    {
      var info := ResolveInfo(EntryOf(contents, names[i]));
      if info.Failure? {
        return Failure(info.error);
      }
      infos := infos[names[i] := info.value];
    }
    assert infos.Keys == set n | n in names by {
      forall n | n in names ensures n in infos.Keys {
        var k :| 0 <= k < |names| && names[k] == n;
      }
    }
    return Success(infos);
  }

  // ---- What the fallback chain promises ----

  /** The section `ini.has_section` finds first. */
  lemma ChosenSection(ini: Ini, sec: string)
    requires sec in ini.sections
    requires sec == "Sequence" || (sec == "sequence" && "Sequence" !in ini.sections)
    ensures FirstSection(ini, SectionNames) == Some(sec)
  {
    if sec == "sequence" {
      assert SectionNames[1..] == ["sequence"];
    }
  }

  /** A `seqinfo.ini` whose chosen section holds `imWidth`, `imHeight` and `seqLength` as integers gives exactly those. */
  lemma SeqInfoComplete(e: Entry, sec: string, w: int, h: int, l: int)
    requires e.seqinfo.Parsed? && sec in e.seqinfo.ini.sections
    requires sec == "Sequence" || (sec == "sequence" && "Sequence" !in e.seqinfo.ini.sections)
    requires (sec, "imwidth") in e.seqinfo.ini.options && e.seqinfo.ini.options[(sec, "imwidth")] == IntText(w)
    requires (sec, "imheight") in e.seqinfo.ini.options && e.seqinfo.ini.options[(sec, "imheight")] == IntText(h)
    requires (sec, "seqlength") in e.seqinfo.ini.options && e.seqinfo.ini.options[(sec, "seqlength")] == IntText(l)
    ensures ResolvedInfo(e) == Success(SequenceInfo(w, h, l, false))
  {
    var ini := e.seqinfo.ini;
    ChosenSection(ini, sec);
    ParseIntText(w);
    ParseIntText(h);
    ParseIntText(l);
    ParsedPrefixOfThree(FirstOption(ini, sec, WidthKeys), FirstOption(ini, sec, HeightKeys), FirstOption(ini, sec, LengthKeys));
  }

  /**
   * Values parsed before a failing `int()` are kept: with a good width and
   * height but no length option, the size is the INI's and the length falls
   * back to the jpg count.
   */
  lemma SeqInfoWithoutLength(e: Entry, sec: string, w: int, h: int)
    requires e.seqinfo.Parsed? && sec in e.seqinfo.ini.sections
    requires sec == "Sequence" || (sec == "sequence" && "Sequence" !in e.seqinfo.ini.sections)
    requires (sec, "imwidth") in e.seqinfo.ini.options && e.seqinfo.ini.options[(sec, "imwidth")] == IntText(w)
    requires (sec, "imheight") in e.seqinfo.ini.options && e.seqinfo.ini.options[(sec, "imheight")] == IntText(h)
    requires (sec, "seqlength") !in e.seqinfo.ini.options && (sec, "length") !in e.seqinfo.ini.options
    ensures ResolvedInfo(e) == Success(SequenceInfo(w, h, if e.hasImageDir then e.jpgCount else 0, false))
  {
    var ini := e.seqinfo.ini;
    ChosenSection(ini, sec);
    FirstOptionOfTwo(ini, sec, "imwidth", "width");
    FirstOptionOfTwo(ini, sec, "imheight", "height");
    FirstOptionOfTwo(ini, sec, "seqlength", "length");
    var a, b, c := FirstOption(ini, sec, WidthKeys), FirstOption(ini, sec, HeightKeys), FirstOption(ini, sec, LengthKeys);
    assert a == Some(IntText(w)) && b == Some(IntText(h)) && c == None;
    WidthAndHeightOnly(w, h);
    assert IniValues(ini) == [w, h];
  }

  /** Two numerals and a missing third field leave two values. */
  lemma WidthAndHeightOnly(w: int, h: int)
    ensures ParsedPrefix([Some(IntText(w)), Some(IntText(h)), None]) == [w, h]
  {
    ParseIntText(w);
    ParseIntText(h);
    ParsedPrefixOfThree(Some(IntText(w)), Some(IntText(h)), None);
  }

  /**
   * A missing width aborts the `try` block before anything is stored: even a
   * well-formed `seqLength` is ignored, the length comes from the jpg count
   * and the size from the first image or the default.
   */
  lemma SeqInfoWithoutWidth(e: Entry, sec: string)
    requires e.seqinfo.Parsed? && sec in e.seqinfo.ini.sections
    requires sec == "Sequence" || (sec == "sequence" && "Sequence" !in e.seqinfo.ini.sections)
    requires (sec, "imwidth") !in e.seqinfo.ini.options && (sec, "width") !in e.seqinfo.ini.options
    ensures ResolvedInfo(e) == Success(SequenceInfo(ProbedSize(e.firstImage).0, ProbedSize(e.firstImage).1,
                                                    if e.hasImageDir then e.jpgCount else 0, false))
  {
    var ini := e.seqinfo.ini;
    ChosenSection(ini, sec);
    ParsedPrefixOfThree(FirstOption(ini, sec, WidthKeys), FirstOption(ini, sec, HeightKeys), FirstOption(ini, sec, LengthKeys));
  }

  /** Only the first section present is read: a `Sequence` section hides a `sequence` one entirely. */
  lemma SectionPrecedence(ini: Ini)
    requires "Sequence" in ini.sections
    ensures IniValues(ini) == IniValues(WithoutSection(ini, "sequence"))
  {
    var other := WithoutSection(ini, "sequence");
    ChosenSection(ini, "Sequence");
    ChosenSection(other, "Sequence");
    SameSectionOptions(ini, other, "Sequence", WidthKeys);
    SameSectionOptions(ini, other, "Sequence", HeightKeys);
    SameSectionOptions(ini, other, "Sequence", LengthKeys);
  }

  /** `ini` with one section and its options removed. */
  function WithoutSection(ini: Ini, sec: string): Ini {
    Ini(ini.sections - {sec}, map k | k in ini.options && k.0 != sec :: ini.options[k])
  }

  lemma {:induction false} SameSectionOptions(a: Ini, b: Ini, sec: string, keys: seq<string>)
    requires forall key: string :: (sec, key) in a.options <==> (sec, key) in b.options
    requires forall key: string :: (sec, key) in a.options ==> a.options[(sec, key)] == b.options[(sec, key)]
    ensures FirstOption(a, sec, keys) == FirstOption(b, sec, keys)
  {
    if keys != [] {
      SameSectionOptions(a, b, sec, keys[1..]);
    }
  }

  /** Without `seqinfo.ini` the length is the jpg count (0 without `img1`) and the size is probed. */
  lemma NoSeqInfo(e: Entry)
    requires e.seqinfo.NoIniFile?
    ensures ResolvedInfo(e) == Success(SequenceInfo(ProbedSize(e.firstImage).0, ProbedSize(e.firstImage).1,
                                                    if e.hasImageDir then e.jpgCount else 0, false))
  {
  }

  /** 640x480 with 100 frames in `[Sequence]` gives exactly that. */
  lemma SeqInfoExample(e: Entry)
    requires e.seqinfo == Parsed(Ini({"Sequence"},
      map[("Sequence", "imwidth") := "640", ("Sequence", "imheight") := "480", ("Sequence", "seqlength") := "100"]))
    ensures ResolvedInfo(e) == Success(SequenceInfo(640, 480, 100, false))
  {
    assert IntText(640) == "640" && IntText(480) == "480" && IntText(100) == "100";
    SeqInfoComplete(e, "Sequence", 640, 480, 100);
  }

  /** No `seqinfo.ini`, fifty jpgs and no readable first image: 1920x1080 and 50 frames. */
  lemma NoSeqInfoExample(e: Entry)
    requires e.seqinfo.NoIniFile? && e.hasImageDir && e.jpgCount == 50 && !e.firstImage.Size?
    ensures ResolvedInfo(e) == Success(SequenceInfo(1920, 1080, 50, false))
  {
  }
}
