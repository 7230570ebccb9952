/**
 * `_init_annotations` and `_get_annotations`: the per-frame object records of
 * every sequence, built from its `gt/gt.txt` lines and then stamped with the
 * legality policy.
 */
module Annotations {
  import opened Wrappers
  import opened Text
  import opened Decimal
  import opened Layout
  import opened Ordering
  import opened Metadata

  /** A box `[x, y, w, h]` (top-left corner, width, height); each coordinate is the text `float()` read. */
  datatype Box = Box(x: string, y: string, w: string, h: string)

  /**
   * The annotation of one frame: parallel lists of object ids, categories,
   * boxes and visibilities in ground-truth file order, and `is_legal`, which is
   * unset until the legality pass.
   */
  datatype Frame = Frame(ids: seq<int>, categories: seq<int>, boxes: seq<Box>, visibilities: seq<real>, isLegal: Option<bool>)

  const EmptyFrame := Frame([], [], [], [], None)

  /** Every object of this dataset gets category 0 and visibility 1.0. */
  const Category := 0
  const Visibility: real := 1.0

  /** One parsed ground-truth line: `frame_id, obj_id, x, y, w, h` (the last three fields are ignored). */
  datatype GtRecord = GtRecord(frameId: int, objId: int, box: Box)

  /** `line.strip().split(",")`, unpacked into nine fields, then `int` and `float` on the first six. */
  function ParseLine(line: string): Result<GtRecord, LoadError> {
    ParseFields(Split(Strip(line), ','))
  }

  /** The unpacking and the conversions of the fields of one line. */
  function ParseFields(fields: seq<string>): Result<GtRecord, LoadError> {
    if |fields| != 9 then Failure(WrongFieldCount)
    else
      match (ParseInt(fields[0]), ParseInt(fields[1]))
      case (Some(frameId), Some(objId)) =>
        if IsFloatLiteral(fields[2]) && IsFloatLiteral(fields[3]) && IsFloatLiteral(fields[4]) && IsFloatLiteral(fields[5])
        then Success(GtRecord(frameId, objId, Box(fields[2], fields[3], fields[4], fields[5])))
        else Failure(NotAFloat)
      case _ => Failure(NotAnInteger)
  }

  /** The text of a ground-truth line with these nine fields. */
  function GtLine(frameId: int, objId: int, box: Box, rest: seq<string>): string
    requires |rest| == 3
  {
    JoinWith([IntText(frameId), IntText(objId), box.x, box.y, box.w, box.h] + rest, ',')
  }

  /** Python's `list[index]` on a list of `len` elements: a negative index counts from the end. */
  function ListIndex(index: int, len: nat): (r: Option<nat>)
    ensures r.Some? <==> -(len as int) <= index < len
    ensures r.Some? ==> r.value < len && (r.value == index || r.value == index + len)
  {
    if 0 <= index < len then Some(index) else if -(len as int) <= index < 0 then Some(index + len) else None
  }

  /** The frame a record lands on: `annotations[sequence_name][frame_id - 1]`. */
  function Target(rec: GtRecord, len: nat): Option<nat> {
    ListIndex(rec.frameId - 1, len)
  }

  /** `append_annotation`: one more object on each of the frame's lists. */
  function AddObject(frame: Frame, rec: GtRecord): Frame {
    Frame(frame.ids + [rec.objId], frame.categories + [Category], frame.boxes + [rec.box],
          frame.visibilities + [Visibility], frame.isLegal)
  }

  /** One iteration of the loop over the lines of `gt.txt`. */
  function Step(frames: seq<Frame>, line: string): Result<seq<Frame>, LoadError> {
    match ParseLine(line)
    case Failure(e) => Failure(e)
    case Success(rec) =>
      match Target(rec, |frames|)
      case None => Failure(FrameOutOfRange)
      case Some(t) => Success(frames[t := AddObject(frames[t], rec)])
  }

  /** All lines of one `gt.txt` folded into the frames, stopping at the first exception. */
  function FoldLines(frames: seq<Frame>, lines: seq<string>): Result<seq<Frame>, LoadError>
    decreases |lines|
  {
    if lines == [] then Success(frames)
    else
      match Step(frames, lines[0])
      case Failure(e) => Failure(e)
      case Success(next) => FoldLines(next, lines[1..])
  }

  /** `length` empty records. */
  function InitialFrames(count: nat): (r: seq<Frame>)
    ensures |r| == count && forall i :: 0 <= i < count ==> r[i] == EmptyFrame
  {
    seq(count, _ => EmptyFrame)
  }

  /** The frames of sequence `name` after its ground truth is folded in. */
  function FoldedFrames(contents: SplitContents, info: SequenceInfo, name: string): Result<seq<Frame>, LoadError> {
    FoldLines(InitialFrames(FrameCount(info)), EntryOf(contents, name).groundTruth)
  }

  /** The legality pass over one sequence: `is_legal` of each complete frame, stored in that frame. */
  function Stamp(frames: seq<Frame>, policy: Frame -> bool): (r: seq<Frame>)
  {
    seq(|frames|, i requires 0 <= i < |frames| => frames[i].(isLegal := Some(policy(frames[i]))))
  }

  // ---- The reference view: records grouped by frame ----

  /** Every line parsed, or the exception of the first line that does not parse. */
  function Records(lines: seq<string>): Result<seq<GtRecord>, LoadError> {
    if lines == [] then Success([])
    else
      match ParseLine(lines[0])
      case Failure(e) => Failure(e)
      case Success(rec) =>
        match Records(lines[1..])
        case Failure(e) => Failure(e)
        case Success(rs) => Success([rec] + rs)
  }

  /** The records that land on frame `f`, in file order. */
  function At(rs: seq<GtRecord>, len: nat, f: nat): seq<GtRecord> {
    Filter(rs, (rec: GtRecord) => Target(rec, len) == Some(f))
  }

  /** A frame with the records appended one after another. */
  function AppendAll(frame: Frame, rs: seq<GtRecord>): Frame
    decreases |rs|
  {
    if rs == [] then frame else AppendAll(AddObject(frame, rs[0]), rs[1..])
  }

  function IdsOf(rs: seq<GtRecord>): seq<int> {
    seq(|rs|, i requires 0 <= i < |rs| => rs[i].objId)
  }

  function BoxesOf(rs: seq<GtRecord>): seq<Box> {
    seq(|rs|, i requires 0 <= i < |rs| => rs[i].box)
  }

  // ---- Properties ----

  /**
   * Nine comma-separated fields, two integers and four floats, parse into
   * exactly that record, whatever the three ignored fields hold (they may be
   * empty, and `strip()` may take white space off the last one).
   */
  lemma ParseLineOfFields(frameId: int, objId: int, box: Box, rest: seq<string>)
    requires |rest| == 3
    requires forall k :: 0 <= k < 3 ==> ',' !in rest[k]
    requires ',' !in box.x && ',' !in box.y && ',' !in box.w && ',' !in box.h
    requires IsFloatLiteral(box.x) && IsFloatLiteral(box.y) && IsFloatLiteral(box.w) && IsFloatLiteral(box.h)
    ensures ParseLine(GtLine(frameId, objId, box, rest)) == Success(GtRecord(frameId, objId, box))
  {
    FieldsOfLine(frameId, objId, box, rest);
    ParseFieldsOf(frameId, objId, box, [rest[0], rest[1], TrimRight(rest[2])]);
  }

  /** The fields `line.strip().split(",")` finds in a line of nine comma-free fields. */
  lemma FieldsOfLine(frameId: int, objId: int, box: Box, rest: seq<string>)
    requires |rest| == 3
    requires forall k :: 0 <= k < 3 ==> ',' !in rest[k]
    requires ',' !in box.x && ',' !in box.y && ',' !in box.w && ',' !in box.h
    ensures Split(Strip(GtLine(frameId, objId, box, rest)), ',')
         == [IntText(frameId), IntText(objId), box.x, box.y, box.w, box.h, rest[0], rest[1], TrimRight(rest[2])]
  {
    var parts := [IntText(frameId), IntText(objId), box.x, box.y, box.w, box.h] + rest;
    NumeralHasNoComma(frameId);
    NumeralHasNoComma(objId);
    assert forall k :: 0 <= k < |parts| ==> ',' !in parts[k] by {
      forall k | 0 <= k < |parts| ensures ',' !in parts[k] {
        if k >= 6 { assert parts[k] == rest[k - 6]; }
      }
    }
    SplitStripJoin(parts, ',');
    assert TrimLeft(parts[0]) == parts[0];
    assert parts[1..8] == [IntText(objId), box.x, box.y, box.w, box.h, rest[0], rest[1]] && parts[8] == rest[2];
  }

  /** A line that is only white space (a trailing empty line, say) does not unpack into nine fields. */
  lemma BlankLineRejected(line: string)
    requires forall k :: 0 <= k < |line| ==> IsSpace(line[k])
    ensures ParseLine(line) == Failure(WrongFieldCount)
  {
    StripWithin(line);
    var t := Strip(line);
    assert t == [];
    assert Split(t, ',') == [[]];
  }

  /** A line of more or fewer than nine comma-separated fields raises on the unpacking. */
  lemma FieldCountRejected(parts: seq<string>)
    requires |parts| >= 1 && |parts| != 9
    requires forall k :: 0 <= k < |parts| ==> ',' !in parts[k]
    ensures ParseLine(JoinWith(parts, ',')) == Failure(WrongFieldCount)
  {
    SplitStripJoin(parts, ',');
  }

  lemma ParseFieldsOf(frameId: int, objId: int, box: Box, rest: seq<string>)
    requires |rest| == 3
    requires IsFloatLiteral(box.x) && IsFloatLiteral(box.y) && IsFloatLiteral(box.w) && IsFloatLiteral(box.h)
    ensures ParseFields([IntText(frameId), IntText(objId), box.x, box.y, box.w, box.h] + rest)
         == Success(GtRecord(frameId, objId, box))
  {
    var parts := [IntText(frameId), IntText(objId), box.x, box.y, box.w, box.h] + rest;
    assert |parts| == 9;
    assert parts[0] == IntText(frameId) && parts[1] == IntText(objId);
    assert parts[2] == box.x && parts[3] == box.y && parts[4] == box.w && parts[5] == box.h;
    ParseIntText(frameId);
    ParseIntText(objId);
  }

  lemma NumeralHasNoComma(i: int)
    ensures ',' !in IntText(i) && !IsSpace(IntText(i)[0])
  {
    var d := if i < 0 then Digits(-i) else Digits(i);
    if i < 0 {
      assert IntText(i) == ['-'] + d;
    }
  }

  /**
   * Which frame a line lands on: frame ids `1 .. len` name frames `0 .. len-1`;
   * an id in `-len+1 .. 0` wraps around to the end of the list, as Python's
   * negative indexing does; every other id raises.
   */
  lemma TargetOfFrameId(rec: GtRecord, len: nat)
    ensures Target(rec, len).Some? <==> -(len as int) < rec.frameId <= len
    ensures 1 <= rec.frameId <= len ==> Target(rec, len) == Some(rec.frameId - 1)
    ensures -(len as int) < rec.frameId <= 0 ==> Target(rec, len) == Some(rec.frameId - 1 + len)
  {
  }

  /** A line for frame id 0 is not rejected: it lands on the last frame. */
  lemma FrameIdZeroLandsLast(objId: int, box: Box, len: nat)
    requires len > 0
    ensures Target(GtRecord(0, objId, box), len) == Some(len - 1)
  {
    TargetOfFrameId(GtRecord(0, objId, box), len);
  }

  /** The legality pass changes nothing but `is_legal`, which it sets from the policy on each frame. */
  lemma StampOnlyLegality(frames: seq<Frame>, policy: Frame -> bool)
    ensures |Stamp(frames, policy)| == |frames|
    ensures forall i :: 0 <= i < |frames| ==>
      && Stamp(frames, policy)[i].(isLegal := None) == frames[i].(isLegal := None)
      && Stamp(frames, policy)[i].isLegal == Some(policy(frames[i]))
  {
  }

  /** One line changes only the frame it targets, by one more object, and keeps the frame count. */
  lemma StepOnlyTarget(frames: seq<Frame>, line: string)
    requires Step(frames, line).Success?
    ensures ParseLine(line).Success? && Target(ParseLine(line).value, |frames|).Some?
    ensures var rec := ParseLine(line).value;
            var t := Target(rec, |frames|).value;
            var r := Step(frames, line).value;
            |r| == |frames| && r[t] == AddObject(frames[t], rec)
            && forall j :: 0 <= j < |frames| && j != t ==> r[j] == frames[j]
  {
  }

  /** A line fails exactly when it does not parse or names a frame outside the list. */
  lemma StepFailure(frames: seq<Frame>, line: string)
    ensures Step(frames, line).Failure? <==>
      ParseLine(line).Failure? || Target(ParseLine(line).value, |frames|).None?
    ensures ParseLine(line).Failure? ==> Step(frames, line) == Failure(ParseLine(line).error)
  {
  }

  /** Every record names a frame of a list of `len` frames. */
  predicate AllInRange(rs: seq<GtRecord>, len: nat) {
    forall k :: 0 <= k < |rs| ==> Target(rs[k], len).Some?
  }

  /**
   * The whole load of one sequence succeeds exactly when every line parses
   * and names a frame in range; the frame count never changes.
   */
  lemma {:induction false} FoldLinesSucceeds(frames: seq<Frame>, lines: seq<string>)
    ensures FoldLines(frames, lines).Success? <==> Records(lines).Success? && AllInRange(Records(lines).value, |frames|)
    ensures FoldLines(frames, lines).Success? ==> |FoldLines(frames, lines).value| == |frames|
    decreases |lines|
  {
    if lines != [] {
      var p := ParseLine(lines[0]);
      if p.Success? {
        var rec := p.value;
        if Target(rec, |frames|).Some? {
          var t := Target(rec, |frames|).value;
          var next := frames[t := AddObject(frames[t], rec)];
          assert Step(frames, lines[0]) == Success(next);
          FoldLinesSucceeds(next, lines[1..]);
          if Records(lines[1..]).Success? {
            var rs := Records(lines[1..]).value;
            assert Records(lines).value == [rec] + rs;
            RangeCons(rec, rs, |frames|);
          }
        } else if Records(lines).Success? {
          assert Records(lines).value[0] == rec;
        }
      }
    }
  }

  lemma RangeCons(rec: GtRecord, rs: seq<GtRecord>, len: nat)
    ensures AllInRange([rec] + rs, len) <==> Target(rec, len).Some? && AllInRange(rs, len)
  {
    if Target(rec, len).Some? && AllInRange(rs, len) {
      forall k | 0 <= k < |[rec] + rs| ensures Target(([rec] + rs)[k], len).Some? {
        if k > 0 { assert ([rec] + rs)[k] == rs[k - 1]; }
      }
    }
    if AllInRange([rec] + rs, len) {
      assert ([rec] + rs)[0] == rec;
      forall k | 0 <= k < |rs| ensures Target(rs[k], len).Some? {
        assert ([rec] + rs)[k + 1] == rs[k];
      }
    }
  }

  /**
   * Folding the lines is grouping the records by frame: each frame ends up
   * with the records that target it appended in file order.
   */
  lemma {:induction false} FoldLinesGroups(frames: seq<Frame>, lines: seq<string>)
    requires FoldLines(frames, lines).Success?
    ensures Records(lines).Success?
    ensures |FoldLines(frames, lines).value| == |frames|
    ensures forall f :: 0 <= f < |frames| ==>
      FoldLines(frames, lines).value[f] == AppendAll(frames[f], At(Records(lines).value, |frames|, f))
    decreases |lines|
  {
    FoldLinesSucceeds(frames, lines);
    if lines != [] {
      var rec := ParseLine(lines[0]).value;
      var t := Target(rec, |frames|).value;
      var next := Step(frames, lines[0]).value;
      FoldLinesGroups(next, lines[1..]);
      var rs := Records(lines[1..]).value;
      assert Records(lines).value == [rec] + rs;
      forall f | 0 <= f < |frames|
        ensures FoldLines(frames, lines).value[f] == AppendAll(frames[f], At([rec] + rs, |frames|, f))
      {
        assert ([rec] + rs)[1..] == rs;
        if f == t {
          assert At([rec] + rs, |frames|, f) == [rec] + At(rs, |frames|, f);
          assert ([rec] + At(rs, |frames|, f))[1..] == At(rs, |frames|, f);
        } else {
          assert At([rec] + rs, |frames|, f) == At(rs, |frames|, f);
        }
      }
    }
  }

  /** Appending records lengthens each list of the frame by their fields, in order. */
  lemma {:induction false} AppendAllFields(frame: Frame, rs: seq<GtRecord>)
    ensures AppendAll(frame, rs) == Frame(frame.ids + IdsOf(rs), frame.categories + seq(|rs|, _ => Category),
                                          frame.boxes + BoxesOf(rs), frame.visibilities + seq(|rs|, _ => Visibility),
                                          frame.isLegal)
    decreases |rs|
  {
    if rs == [] {
      assert frame.ids + IdsOf(rs) == frame.ids;
      assert frame.boxes + BoxesOf(rs) == frame.boxes;
      assert frame.categories + seq(|rs|, _ => Category) == frame.categories;
      assert frame.visibilities + seq(|rs|, _ => Visibility) == frame.visibilities;
    } else {
      AppendAllFields(AddObject(frame, rs[0]), rs[1..]);
      assert IdsOf(rs) == [rs[0].objId] + IdsOf(rs[1..]);
      assert BoxesOf(rs) == [rs[0].box] + BoxesOf(rs[1..]);
      assert seq(|rs|, _ => Category) == [Category] + seq(|rs| - 1, _ => Category);
      assert seq(|rs|, _ => Visibility) == [Visibility] + seq(|rs| - 1, _ => Visibility);
    }
  }

  /**
   * After the lines of a sequence are folded into its empty frames, frame `f`
   * holds the ids and boxes of exactly the lines that target it, in file
   * order, each with category 0 and visibility 1.0, and no legality yet.
   */
  lemma FrameContents(count: nat, lines: seq<string>, f: nat)
    requires FoldLines(InitialFrames(count), lines).Success? && f < count
    ensures Records(lines).Success?
    ensures var out := FoldLines(InitialFrames(count), lines).value;
            var a := At(Records(lines).value, count, f);
            |out| == count && out[f].ids == IdsOf(a) && out[f].boxes == BoxesOf(a)
            && out[f].categories == seq(|a|, _ => Category) && out[f].visibilities == seq(|a|, _ => Visibility)
            && out[f].isLegal.None?
  {
    FoldLinesGroups(InitialFrames(count), lines);
    var a := At(Records(lines).value, count, f);
    AppendAllFields(EmptyFrame, a);
  }

  /** Two lines for frame 1 give frame index 0 the objects 5 and 6, in that order. */
  lemma AccumulationExample(count: nat)
    requires count >= 1
    ensures var lines := [GtLine(1, 5, Box("10", "20", "30", "40"), ["0", "0", "0"]),
                          GtLine(1, 6, Box("15", "25", "35", "45"), ["0", "0", "0"])];
            var out := FoldLines(InitialFrames(count), lines);
            out.Success? && out.value[0].ids == [5, 6] && out.value[0].categories == [0, 0]
            && out.value[0].visibilities == [1.0, 1.0]
            && out.value[0].boxes == [Box("10", "20", "30", "40"), Box("15", "25", "35", "45")]
  {
    ExampleLineParses(1, 5, 10, 20, 30, 40);
    ExampleLineParses(1, 6, 15, 25, 35, 45);
    ExampleNumerals();
    TwoLinesOneFrame(count, GtLine(1, 5, Box("10", "20", "30", "40"), ["0", "0", "0"]),
                     GtLine(1, 6, Box("15", "25", "35", "45"), ["0", "0", "0"]),
                     GtRecord(1, 5, Box("10", "20", "30", "40")), GtRecord(1, 6, Box("15", "25", "35", "45")));
  }

  /** Two lines for frame 1 accumulate on frame index 0 in file order. */
  lemma TwoLinesOneFrame(count: nat, l1: string, l2: string, r1: GtRecord, r2: GtRecord)
    requires count >= 1 && ParseLine(l1) == Success(r1) && ParseLine(l2) == Success(r2)
    requires r1.frameId == 1 && r2.frameId == 1
    ensures FoldLines(InitialFrames(count), [l1, l2])
         == Success(InitialFrames(count)[0 := Frame([r1.objId, r2.objId], [0, 0], [r1.box, r2.box], [1.0, 1.0], None)])
  {
    var s0 := InitialFrames(count);
    var s1 := s0[0 := AddObject(s0[0], r1)];
    var s2 := s1[0 := AddObject(s1[0], r2)];
    assert Target(r1, |s0|) == Some(0) && Target(r2, |s1|) == Some(0);
    FoldOne(s0, l1, [l2], r1, 0);
    FoldOne(s1, l2, [], r2, 0);
    assert [l1] + [l2] == [l1, l2] && [l2] + [] == [l2];
    assert FoldLines(s2, []) == Success(s2);
    assert s0[0] == EmptyFrame && s1[0] == AddObject(EmptyFrame, r1);
    TwoObjects(count, r1, r2);
  }

  /** Two objects added to the first of `count` empty frames, in order. */
  lemma TwoObjects(count: nat, r1: GtRecord, r2: GtRecord)
    requires count >= 1
    ensures InitialFrames(count)[0 := AddObject(EmptyFrame, r1)][0 := AddObject(AddObject(EmptyFrame, r1), r2)]
         == InitialFrames(count)[0 := Frame([r1.objId, r2.objId], [0, 0], [r1.box, r2.box], [1.0, 1.0], None)]
  {
    assert AddObject(AddObject(EmptyFrame, r1), r2) == Frame([r1.objId, r2.objId], [0, 0], [r1.box, r2.box], [1.0, 1.0], None);
  }

  /** A first line that parses and targets frame `t` appends its record there before the rest is folded. */
  lemma FoldOne(frames: seq<Frame>, line: string, rest: seq<string>, rec: GtRecord, t: nat)
    requires ParseLine(line) == Success(rec) && Target(rec, |frames|) == Some(t)
    ensures FoldLines(frames, [line] + rest) == FoldLines(frames[t := AddObject(frames[t], rec)], rest)
  {
    assert ([line] + rest)[0] == line && ([line] + rest)[1..] == rest;
  }

  /** A line of integral coordinates parses into its record. */
  lemma ExampleLineParses(frameId: int, objId: int, x: int, y: int, w: int, h: int)
    ensures ParseLine(GtLine(frameId, objId, Box(IntText(x), IntText(y), IntText(w), IntText(h)), ["0", "0", "0"]))
         == Success(GtRecord(frameId, objId, Box(IntText(x), IntText(y), IntText(w), IntText(h))))
  {
    IntTextIsFloat(x); IntTextIsFloat(y); IntTextIsFloat(w); IntTextIsFloat(h);
    NumeralHasNoComma(x); NumeralHasNoComma(y); NumeralHasNoComma(w); NumeralHasNoComma(h);
    ParseLineOfFields(frameId, objId, Box(IntText(x), IntText(y), IntText(w), IntText(h)), ["0", "0", "0"]);
  }

  lemma ExampleNumerals()
    ensures IntText(10) == "10" && IntText(20) == "20" && IntText(30) == "30" && IntText(40) == "40"
    ensures IntText(15) == "15" && IntText(25) == "25" && IntText(35) == "35" && IntText(45) == "45"
  {
  }

  // ---- The loader's loops ----

  /** `_init_annotations`: every sequence gets `length` empty records (none when the length is not positive). */
  method InitAnnotations(names: seq<string>, infos: map<string, SequenceInfo>) returns (anns: map<string, seq<Frame>>)
    requires forall n :: n in names ==> n in infos
    ensures anns.Keys == set n | n in names
    ensures forall n :: n in anns ==> anns[n] == InitialFrames(FrameCount(infos[n]))
  {
    anns := map[];
    for j := 0 to |names|
      invariant anns.Keys == set n | n in names[..j]
      invariant forall n :: n in anns ==> n in infos && anns[n] == InitialFrames(FrameCount(infos[n]))
    {
      var name := names[j];
      anns := anns[name := []];
      // `range(length)` is empty for a length below one.
      for i := 0 to FrameCount(infos[name])
        invariant name in anns && anns[name] == InitialFrames(i)
        invariant anns.Keys == (set n | n in names[..j]) + {name}
        invariant forall n :: n in anns && n != name ==> anns[n] == InitialFrames(FrameCount(infos[n]))
      {
        anns := anns[name := anns[name] + [EmptyFrame]];
      }
      assert names[..j + 1] == names[..j] + [name];
    }
    assert names[..|names|] == names;
  }

  /**
   * The loop over the lines of one `gt.txt`, appending each object to the
   * frame it names in place; the first line that raises ends the load.
   */
  method FoldInto(anns: map<string, seq<Frame>>, name: string, lines: seq<string>)
    returns (r: Result<map<string, seq<Frame>>, LoadError>)
    requires name in anns
    ensures r.Success? <==> FoldLines(anns[name], lines).Success?
    ensures r.Failure? ==> r.error == FoldLines(anns[name], lines).error
    ensures r.Success? ==> r.value == anns[name := FoldLines(anns[name], lines).value]
  {
    var cur := anns;
    for i := 0 to |lines|
      invariant name in cur && cur == anns[name := cur[name]]
      invariant FoldLines(cur[name], lines[i..]) == FoldLines(anns[name], lines)
    {
      var frames := cur[name];
      assert lines[i..][1..] == lines[i + 1..];
      var rec := ParseLine(lines[i]);
      if rec.Failure? {
        return Failure(rec.error);
      }
      var t := Target(rec.value, |frames|);
      if t.None? {
        return Failure(FrameOutOfRange);
      }
      cur := cur[name := frames[t.value := AddObject(frames[t.value], rec.value)]];
    }
    return Success(cur);
  }

  /** The legality loop over one sequence: `is_legal` of each frame stored in that frame. */
  method StampInto(anns: map<string, seq<Frame>>, name: string, count: nat, policy: Frame -> bool)
    returns (out: map<string, seq<Frame>>)
    requires name in anns && count == |anns[name]|
    ensures out == anns[name := Stamp(anns[name], policy)]
  {
    out := anns;
    var frames := anns[name];
    for i := 0 to count
      invariant name in out && out == anns[name := out[name]] && |out[name]| == count
      invariant forall q :: 0 <= q < i ==> out[name][q] == frames[q].(isLegal := Some(policy(frames[q])))
      invariant forall q :: i <= q < count ==> out[name][q] == frames[q]
    {
      var frame := out[name][i];
      out := out[name := out[name][i := frame.(isLegal := Some(policy(frame)))]];
    }
    assert out[name] == Stamp(frames, policy);
  }

  /**
   * `_get_annotations`: the empty records, every sequence's ground truth
   * folded in, then every frame stamped with `is_legal`. The load fails
   * exactly when some sequence's ground truth does, with the exception of
   * the first such sequence.
   */
  method GetAnnotations(contents: SplitContents, names: seq<string>, infos: map<string, SequenceInfo>, policy: Frame -> bool)
    returns (r: Result<map<string, seq<Frame>>, LoadError>)
    requires Distinct(names)
    requires forall n :: n in names ==> n in infos
    ensures r.Failure? <==> exists k :: 0 <= k < |names| && FoldedFrames(contents, infos[names[k]], names[k]).Failure?
    ensures r.Failure? ==> exists k :: 0 <= k < |names| && FoldedFrames(contents, infos[names[k]], names[k]) == Failure(r.error)
                             && forall q :: 0 <= q < k ==> FoldedFrames(contents, infos[names[q]], names[q]).Success?
    ensures r.Success? ==> r.value.Keys == (set n | n in names)
                           && forall n :: n in r.value ==> r.value[n] == Stamp(FoldedFrames(contents, infos[n], n).value, policy)
  {
    var anns := InitAnnotations(names, infos);
    var folded := FoldAll(contents, names, infos, anns);
    if folded.Failure? {
      return Failure(folded.error);
    }
    forall n | n in folded.value
      ensures |folded.value[n]| == FrameCount(infos[n])
    {
      FoldLinesSucceeds(InitialFrames(FrameCount(infos[n])), EntryOf(contents, n).groundTruth);
    }
    var stamped := StampAll(names, infos, folded.value, policy);
    return Success(stamped);
  }

  /** The loading loop of `_get_annotations`, over the sequences in order. */
  method FoldAll(contents: SplitContents, names: seq<string>, infos: map<string, SequenceInfo>, anns: map<string, seq<Frame>>)
    returns (r: Result<map<string, seq<Frame>>, LoadError>)
    requires Distinct(names)
    requires forall n :: n in names ==> n in infos
    requires anns.Keys == set n | n in names
    requires forall n :: n in anns ==> anns[n] == InitialFrames(FrameCount(infos[n]))
    ensures r.Failure? <==> exists k :: 0 <= k < |names| && FoldedFrames(contents, infos[names[k]], names[k]).Failure?
    ensures r.Failure? ==> exists k :: 0 <= k < |names| && FoldedFrames(contents, infos[names[k]], names[k]) == Failure(r.error)
                             && forall q :: 0 <= q < k ==> FoldedFrames(contents, infos[names[q]], names[q]).Success?
    ensures r.Success? ==> r.value.Keys == anns.Keys
                           && forall n :: n in r.value ==> FoldedFrames(contents, infos[n], n) == Success(r.value[n])
  {
    var cur := anns;
    for j := 0 to |names|
      invariant cur.Keys == anns.Keys
      invariant forall k :: 0 <= k < j ==> FoldedFrames(contents, infos[names[k]], names[k]) == Success(cur[names[k]])
      invariant forall k :: j <= k < |names| ==> cur[names[k]] == anns[names[k]]
    {
      var name := names[j];
      assert name in anns && cur[name] == InitialFrames(FrameCount(infos[name]));
      var folded := FoldInto(cur, name, EntryOf(contents, name).groundTruth);
      if folded.Failure? {
        assert FoldedFrames(contents, infos[names[j]], names[j]) == Failure(folded.error);
        return Failure(folded.error);
      }
      assert FoldedFrames(contents, infos[name], name) == Success(folded.value[name]);
      assert forall k :: 0 <= k < |names| && k != j ==> names[k] != name;
      cur := folded.value;
    }
    forall n | n in cur
      ensures FoldedFrames(contents, infos[n], n) == Success(cur[n])
    {
      var k :| 0 <= k < |names| && names[k] == n;
    }
    return Success(cur);
  }

  /** The legality loop of `_get_annotations`, over the sequences in order. */
  method StampAll(names: seq<string>, infos: map<string, SequenceInfo>, anns: map<string, seq<Frame>>, policy: Frame -> bool)
    returns (out: map<string, seq<Frame>>)
    requires Distinct(names)
    requires forall n :: n in names ==> n in infos
    requires anns.Keys == set n | n in names
    requires forall n :: n in anns ==> |anns[n]| == FrameCount(infos[n])
    ensures out.Keys == anns.Keys
    ensures forall n :: n in out ==> out[n] == Stamp(anns[n], policy)
  {
    out := anns;
    for j := 0 to |names|
      invariant out.Keys == anns.Keys
      invariant forall k :: 0 <= k < j ==> out[names[k]] == Stamp(anns[names[k]], policy)
      invariant forall k :: j <= k < |names| ==> out[names[k]] == anns[names[k]]
    {
      out := StampInto(out, names[j], FrameCount(infos[names[j]]), policy);
    }
  }
}
