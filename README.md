# DanceTrack ground-truth index, modelled in Dafny

This project models how the DanceTrack dataset loader (`data/dancetrack.py`) builds its three
tables for one split:

- **Discovery.** The sequences of the split are the sorted directory listing, narrowed to
  directories that have an `img1/` directory. When annotations load, only those that also have
  `gt/gt.txt` are kept.
- **`sequence_infos`.** Each sequence gets a width, height and length with their fallback chain:
  - the `[Sequence]`/`[sequence]` section of `seqinfo.ini`, with the candidate option names
    tried in order;
  - then the jpg count of `img1/`;
  - then the size of the first image, or 1920x1080.
- **`image_paths`.** One path `<data_dir>/<split>/<name>/img1/<8-digit frame number>.jpg` per
  frame, collected in a `defaultdict(list)`.
- **`annotations`.** Every sequence gets `length` empty frame records. Each line
  `frame_id,obj_id,x,y,w,h,_,_,_` of `gt/gt.txt` appends one object to frame `frame_id - 1`.
  Then every frame is stamped with `is_legal`.

Modules, one file each:

- `Text`: models `strip` and `split`.
- `Decimal`: models `int()`, `str()`, `{:08d}` and the `float()` grammar.
- `Ordering`: models `sorted` and list filters.
- `Layout`: the split directory as seen by the loader.
- `Paths`: `os.path.join` and the file names.
- `Discovery`: models `_get_sequence_names`.
- `Metadata`: models `_get_sequence_infos`.
- `ImageIndex`: models `_get_image_paths`.
- `Annotations`: models `_init_annotations` and `_get_annotations`.
- `Catalog`: models the constructor.
- `Wrappers`: `Option` and `Result`.

The loops of the source are methods with loop invariants. Each method is proved against a
specification function; the promises of the source are lemmas about those functions.

The file system is a value:

- `SplitContents` holds the listing of the split directory and one `Entry` per name.
- An `Entry` holds what `os.path.isdir`/`isfile`, `glob`, `ConfigParser.read`, PIL and the lines
  of `gt.txt` report for that sequence.

The `is_legal` policy is a parameter `policy: Frame -> bool`. An exception that leaves the
constructor is the `Failure` case of a `Result`.

Behaviour of the code that the model keeps, and that a reader may not expect:

- **Unreadable `seqinfo.ini`.** An INI file that `ConfigParser.read` cannot parse raises out of
  the loader, because nothing catches it. The load fails with `SeqInfoUnreadable`; it is not
  recovered with defaults.
- **Non-positive length.** A length `int()` reads as zero or negative gives no frames:
  `range(length)` is empty. `FrameCount` is `max(0, length)`.
- **No frames, no key.** A sequence with no frames has no key in `image_paths`, because the
  `defaultdict` only creates a key on `append`. Reading it gives the empty list (`PathsOf`).
- **Frame ids are not range-checked.** `frame_id - 1` indexes a Python list, so:
  - an id in `-length+1 .. 0` wraps around to the end of the list (id 0 lands on the last frame);
  - any other id outside `1 .. length` raises `IndexError` (`FrameOutOfRange`).

## Model

| member | source | states |
|---|---|---|
| Discovery.SequenceNamesCorrect | data/dancetrack.py:35-48 | the discovered names are sorted and distinct; a name is discovered iff it is listed, is a directory with `img1/`, and, when annotations load, has `gt/gt.txt` |
| Ordering.SortCorrect | data/dancetrack.py:38 | `sorted(os.listdir(...))` is ordered by code points and is a permutation of the listing |
| Ordering.SortedUnique | data/dancetrack.py:38 | two ordered permutations of the same names are equal, so the insertion sort gives exactly Python's `sorted` |
| Ordering.SortDistinct | data/dancetrack.py:38 | sorting a listing without repeats gives a list without repeats |
| Ordering.FilterMembers | data/dancetrack.py:37-47 | a list comprehension with a condition keeps exactly the members that satisfy it |
| Ordering.InsertPermutes | data/dancetrack.py:38 | one insertion step of the sort adds exactly the inserted name |
| Metadata.FirstOptionOfTwo | data/dancetrack.py:63-65 | `ini.get(sec, a, fallback=ini.get(sec, b, fallback=None))` is the value of the first of `a`, `b` present in the section, or none |
| Metadata.FirstSection | data/dancetrack.py:60-61 | the section chosen is the first listed name that is present (every name before it is absent); no listed section is present when none is chosen |
| Metadata.FirstOption | data/dancetrack.py:63-65 | the value chosen is that of the first candidate option present; none means no candidate is present |
| Metadata.ParsedPrefixMeaning | data/dancetrack.py:62-67 | the values kept when an `int()` raises inside the `try` are exactly those converted before it, and the next one is rejected by `int()` |
| Metadata.ParsedPrefixOfThree | data/dancetrack.py:62-67 | width, height and length are kept in that order up to the first failing `int()` |
| Metadata.ReadSeqInfo | data/dancetrack.py:59-68 | the section loop with its `try` and `break` yields the INI's width, height and length as the fallback chain defines them |
| Metadata.ProbeFirstImage | data/dancetrack.py:75-85 | the probed size is the first image's when PIL reads it, else 1920x1080 |
| Metadata.ResolveInfo | data/dancetrack.py:53-91 | the loop body computes the sequence's resolved metadata, including the unreadable-INI failure |
| Metadata.ResolvedInfo | data/dancetrack.py:53-91 | the metadata of a sequence fails exactly when its INI file is unreadable, and `is_static` is always false |
| Metadata.GetSequenceInfos | data/dancetrack.py:50-92 | the result fails iff some sequence has an unreadable INI file; otherwise its keys are the sequence names and each value is that sequence's resolved metadata |
| Metadata.SeqInfoComplete | data/dancetrack.py:59-65 | integers under `imWidth`, `imHeight`, `seqLength` in the chosen section are taken as they are |
| Metadata.SeqInfoWithoutLength | data/dancetrack.py:62-74 | with good width and height but no length option the INI size is kept and the length is the jpg count (0 without `img1`) |
| Metadata.SeqInfoWithoutWidth | data/dancetrack.py:62-85 | with no width option a valid `seqLength` is ignored: the length is the jpg count and the size is probed |
| Metadata.SectionPrecedence | data/dancetrack.py:60-68 | once `[Sequence]` exists, removing `[sequence]` changes nothing |
| Metadata.NoSeqInfo | data/dancetrack.py:69-85 | without `seqinfo.ini` the length is the jpg count (0 without `img1`) and the size is probed |
| Metadata.SeqInfoExample | data/dancetrack.py:59-65 | `imWidth=640`, `imHeight=480`, `seqLength=100` in `[Sequence]` give 640x480 and 100 frames |
| Metadata.NoSeqInfoExample | data/dancetrack.py:69-85 | no INI, fifty jpgs and an undecodable first image give 1920x1080 and 50 frames |
| Decimal.ParseIntText | data/dancetrack.py:123 | `int(str(i)) == i` for every integer |
| Decimal.IntIsFloat | data/dancetrack.py:123-124 | every string `int()` accepts is also accepted by `float()` |
| Decimal.NumberSpaceExamples | data/dancetrack.py:123-124 | U+001C is white space to `strip()` but makes `int()` and `float()` raise; U+00A0 around a number is skipped |
| Decimal.ParseIntNeedsDigit | data/dancetrack.py:63-65 | a value with no digit makes `int()` raise |
| Decimal.Format08dValue | data/dancetrack.py:109 | `{:08d}` writes only digits and reads back as the number; it has exactly 8 characters below 10^8 and never fewer |
| Decimal.IntTextIsFloat | data/dancetrack.py:124 | every integer numeral is accepted by `float()` |
| Decimal.FloatLiteralAccepts | data/dancetrack.py:124 | `float()` accepts `10.5` and `.5e-3` |
| Decimal.FloatLiteralWord | data/dancetrack.py:124 | `float()` accepts `-Infinity` |
| Decimal.FloatLiteralRejects | data/dancetrack.py:124 | `float()` rejects `.`, `e5` and `1.2.3` |
| Text.Split | data/dancetrack.py:121 | the pieces of `split(",")` contain no comma, there is at least one, and joining them with commas gives the line back |
| Text.StripWithin | data/dancetrack.py:121 | `strip()` only removes characters |
| Text.SplitStripJoin | data/dancetrack.py:121 | `line.strip().split(",")` has one piece per comma-separated field, and only the first and last lose white space |
| Paths.JoinEndsWith | data/dancetrack.py:105 | a joined path ends with its last component |
| Paths.FirstFrameFileName | data/dancetrack.py:109 | frame index 0 is the image `00000001.jpg`, the name the size probe opens |
| Paths.FrameFileNameRoundTrip | data/dancetrack.py:109 | the image name of frame `i` reads back as `i`; it is 12 characters while `i+1 < 10^8`, and its stem is all digits |
| Paths.FrameFileNameInjective | data/dancetrack.py:109 | distinct frame indices give distinct image names |
| Paths.ImagePathUnderImg1 | data/dancetrack.py:107-109 | every frame image path ends with `img1/<image name>` |
| Paths.ImagePathInjective | data/dancetrack.py:107-109 | in one sequence directory, distinct frames have distinct paths |
| ImageIndex.GetImagePaths | data/dancetrack.py:94-101 | a sequence has a key iff it has at least one frame; its list holds the path of frame `i` at position `i` for every frame |
| ImageIndex.AppendFramePaths | data/dancetrack.py:99-100 | the inner loop appends the paths of frames `0 .. length-1`, in order, to the sequence's list and touches no other key |
| ImageIndex.FramePathsIndex | data/dancetrack.py:99-100 | position `i` of a sequence's list is the image path of frame `i` |
| ImageIndex.FramePathsDistinct | data/dancetrack.py:99-100 | all frame paths of a sequence are distinct |
| ImageIndex.FramePathsAt | data/dancetrack.py:99-100 | entry `i` is `img1/<i+1 as eight digits>.jpg` under the sequence, and that name reads back as `i` |
| Annotations.ParseLineOfFields | data/dancetrack.py:121-125 | a line of nine comma-free fields, two integers then four floats, parses into exactly those ids and that box, whatever the three ignored fields hold, empty ones included |
| Annotations.FieldsOfLine | data/dancetrack.py:121 | a line of nine comma-free fields is split back into exactly those fields, the last one right-stripped |
| Annotations.BlankLineRejected | data/dancetrack.py:120-122 | a line of only white space, such as a trailing empty line, raises on the nine-field unpacking |
| Annotations.FieldCountRejected | data/dancetrack.py:121-122 | a line of more or fewer than nine comma-separated fields, empty ones included (a trailing comma, say), raises on the unpacking |
| Annotations.ListIndex | data/dancetrack.py:129-130 | Python list indexing: an index is valid iff `-len <= index < len`, and a negative one counts from the end |
| Annotations.TargetOfFrameId | data/dancetrack.py:127-130 | a line lands on a frame iff `-len < frame_id <= len`; ids `1..len` land on frame `id-1` and the others wrap around from the end |
| Annotations.FrameIdZeroLandsLast | data/dancetrack.py:127-130 | a line with frame id 0 raises nothing and lands on the last frame |
| Annotations.StepFailure | data/dancetrack.py:121-130 | a line raises exactly when it does not parse or names no frame |
| Annotations.StepOnlyTarget | data/dancetrack.py:129-135 | a line changes only the frame it targets, by one more object, and keeps the frame count |
| Annotations.FoldLinesSucceeds | data/dancetrack.py:119-135 | a `gt.txt` loads iff every line parses and names a frame; the frame count never changes |
| Annotations.FoldLinesGroups | data/dancetrack.py:119-135 | after the loop each frame holds its earlier objects followed by the records that target it, in file order |
| Annotations.AppendAllFields | data/dancetrack.py:126-135 | appending records extends ids and boxes with theirs, categories with 0 and visibilities with 1.0, in order |
| Annotations.FrameContents | data/dancetrack.py:116-135 | frame `f` of a freshly loaded sequence lists exactly the objects of the lines targeting it, in file order, with category 0, visibility 1.0 and no legality yet |
| Annotations.AccumulationExample | data/dancetrack.py:119-135 | two lines for frame 1 put objects 5 and 6, in that order, on frame index 0 |
| Annotations.StampOnlyLegality | data/dancetrack.py:137-139 | the legality pass keeps every frame's objects and sets `is_legal` to the policy's verdict on that frame |
| Annotations.InitAnnotations | data/dancetrack.py:142-153 | every sequence gets `max(0, length)` empty frame records and no other key exists |
| Annotations.FoldInto | data/dancetrack.py:119-135 | the line loop of one sequence fails with the error of the first bad line, or updates only that sequence to the folded frames |
| Annotations.FoldAll | data/dancetrack.py:116-135 | the loading loop fails iff some sequence's ground truth fails, with the first such error; otherwise every sequence holds its folded frames |
| Annotations.StampInto | data/dancetrack.py:138-139 | the legality loop of one sequence stamps exactly that sequence |
| Annotations.StampAll | data/dancetrack.py:137-139 | every sequence ends up stamped and the keys are unchanged |
| Annotations.GetAnnotations | data/dancetrack.py:111-140 | fails iff some sequence's ground truth raises, with the first such error; otherwise each sequence's frames are its folded ground truth stamped by the policy |
| Catalog.Load | data/dancetrack.py:14-33 | loading fails iff an INI file of a discovered sequence is unreadable, or, when annotations load, a ground-truth line raises; otherwise the three tables are those of the discovered sequences, and each sequence has as many image paths as annotated frames |
| Catalog.Build | data/dancetrack.py:29-32 | the constructor's three steps over a list of distinct names, with the same guarantees |

## Left out

- The file system, `glob`, `ConfigParser` and PIL are not called. Their answers are the fields of
  `Layout.Entry`: directory and file tests, the jpg count, the parsed INI or its failure, the
  first image's size or failure, and the lines of `gt.txt`.
- `OneDataset` is not part of this model. This includes how it computes `data_dir` from
  `data_root` and `sub_dir`; `data_dir` is a parameter.
- ConfigParser's internals are not modelled: the `DEFAULT` section, interpolation, and
  duplicate-section errors other than "the file cannot be read". The INI is its section set and
  its options, with option names already lower-cased as ConfigParser stores them.
- `int()` and `float()` skip the white space CPython skips around a number: every character of
  `str.isspace` except the ASCII separators U+001C..U+001F (`Decimal.IsNumberSpace`). They accept
  ASCII signs and digits only; underscores between digits and non-ASCII digits are not accepted.
- Boxes keep their coordinates as the text `float()` accepted. The float values, and the `torch`
  tensors in which the source stores them, are not modelled.
- `util.is_legal` and `util.append_annotation` are not part of this model. `is_legal` is the
  `policy` parameter. `append_annotation` is modelled as appending one element to each list of
  the frame (`AddObject`).
- Catalog.Load computes the sequence names once. The source computes them three times, over the
  same file system, so the three results are equal.
- `{:08d}` is modelled for non-negative numbers only, because frame indices start at 0.
- Opening `gt.txt` is assumed to succeed: discovery only keeps sequences where it is a file.
- Reading `gt.txt` yields a sequence of lines; file encodings are not modelled.
