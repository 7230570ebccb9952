/** `_get_image_paths`: the image file of every frame of every sequence. */
module ImageIndex {
  import opened Wrappers
  import opened Ordering
  import opened Metadata
  import opened Paths

  /** `image_paths[name]` on a `defaultdict(list)`: a key never appended to reads as the empty list. */
  function PathsOf(paths: map<string, seq<string>>, name: string): seq<string> {
    if name in paths then paths[name] else []
  }

  /** `path(0), path(1), …, path(count - 1)`: a list built by appending one frame at a time. */
  function FrameList(path: nat -> string, count: nat): (r: seq<string>)
    ensures |r| == count
  {
    if count == 0 then [] else FrameList(path, count - 1) + [path(count - 1)]
  }

  /** Position `i` of the list is the entry for frame `i`. */
  lemma {:induction false} FrameListIndex(path: nat -> string, count: nat, i: nat)
    requires i < count
    ensures FrameList(path, count)[i] == path(i)
  {
    if i < count - 1 {
      FrameListIndex(path, count - 1, i);
    }
  }

  /** `_get_image_path` for the sequence in `dir`, as a function of the frame index. */
  function ImagePathIn(dir: string): nat -> string {
    (i: nat) => ImagePath(dir, i)
  }

  /** The image paths of frames `0 .. count-1` of the sequence in `dir`, in frame order. */
  function FramePaths(dir: string, count: nat): seq<string> {
    FrameList(ImagePathIn(dir), count)
  }

  /** Position `i` of the list is the path of frame `i`. */
  lemma FramePathsIndex(dir: string, count: nat, i: nat)
    requires i < count
    ensures FramePaths(dir, count)[i] == ImagePath(dir, i)
  {
    FrameListIndex(ImagePathIn(dir), count, i);
  }

  /**
   * `_get_image_paths`: for each sequence, in order, the path of each of its
   * `length` frames is appended to its list. A sequence whose length is not
   * positive never touches the `defaultdict`, so it has no key.
   */
  method GetImagePaths(dataDir: string, split: string, names: seq<string>, infos: map<string, SequenceInfo>)
    returns (paths: map<string, seq<string>>)
    requires Distinct(names)
    requires forall n :: n in names ==> n in infos
    ensures forall n :: n in paths <==> n in names && FrameCount(infos[n]) > 0
    ensures forall n :: n in names ==> PathsOf(paths, n) == FramePaths(SequenceDir(dataDir, split, n), FrameCount(infos[n]))
  {
    paths := map[];
    for j := 0 to |names|
      invariant forall n :: n in paths <==> n in names[..j] && FrameCount(infos[n]) > 0
      invariant forall n :: n in names[..j] ==> PathsOf(paths, n) == FramePaths(SequenceDir(dataDir, split, n), FrameCount(infos[n]))
    {
      var name := names[j];
      assert forall k :: 0 <= k < j ==> names[k] != name;
      assert name !in names[..j];
      assert names[..j + 1] == names[..j] + [name];
      paths := AppendFramePaths(paths, name, ImagePathIn(SequenceDir(dataDir, split, name)), FrameCount(infos[name]));
    }
    assert names[..|names|] == names;
  }

  /** The inner loop: the `count` frame paths `path(i)` of one sequence appended to its list. */
  method AppendFramePaths(paths: map<string, seq<string>>, name: string, path: nat -> string, count: nat)
    returns (out: map<string, seq<string>>)
    ensures PathsOf(out, name) == PathsOf(paths, name) + FrameList(path, count)
    ensures forall n :: n != name ==> PathsOf(out, n) == PathsOf(paths, n)
    ensures forall n :: n in out <==> n in paths || (n == name && count > 0)
  {
    out := paths;
    // `range(length)` is empty for a length below one.
    for i := 0 to count
      invariant PathsOf(out, name) == PathsOf(paths, name) + FrameList(path, i)
      invariant forall n :: n != name ==> PathsOf(out, n) == PathsOf(paths, n)
      invariant forall n :: n in out <==> n in paths || (n == name && i > 0)
    {
      out := out[name := PathsOf(out, name) + [path(i)]];
    }
  }

  /** Every frame of a sequence has its own image file. */
  lemma FramePathsDistinct(dir: string, count: nat)
    ensures Distinct(FramePaths(dir, count))
  {
    var ps := FramePaths(dir, count);
    forall i, j | 0 <= i < j < count
      ensures ps[i] != ps[j]
    {
      FramePathsIndex(dir, count, i);
      FramePathsIndex(dir, count, j);
      ImagePathInjective(dir, i, j);
    }
  }

  /** Frame `i` of a sequence is the image `img1/<i+1 as eight digits>.jpg` in its directory. */
  lemma FramePathsAt(dir: string, count: nat, i: nat)
    requires i < count
    ensures EndsWith(FramePaths(dir, count)[i], "img1/" + FrameFileName(i))
    ensures ParseFrameFileName(FrameFileName(i)) == Some(i)
  {
    FramePathsIndex(dir, count, i);
    ImagePathUnderImg1(dir, i);
    FrameFileNameRoundTrip(i);
  }
}
