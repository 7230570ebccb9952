/** Path construction: `os.path.join`, the sequence directory and the frame image names. */
module Paths {
  import opened Wrappers
  import opened Decimal

  predicate EndsWith(s: string, suffix: string) {
    |suffix| <= |s| && s[|s| - |suffix|..] == suffix
  }

  /** POSIX `os.path.join(a, b)` for two components. */
  function Join(a: string, b: string): string
  {
    if |b| > 0 && b[0] == '/' then b
    else if a == [] || a[|a| - 1] == '/' then a + b
    else a + "/" + b
  }

  /** A joined path ends with its last component. */
  lemma JoinEndsWith(a: string, b: string)
    ensures EndsWith(Join(a, b), b)
  {
    var r := Join(a, b);
    if !(|b| > 0 && b[0] == '/') {
      assert r[|r| - |b|..] == b;
    }
  }

  /** `_get_sequence_dir`: `os.path.join(data_dir, split, sequence_name)`. */
  function SequenceDir(dataDir: string, split: string, name: string): string {
    Join(Join(dataDir, split), name)
  }

  /** The 1-based on-disk image name of the 0-based frame index `frameIdx`. */
  function FrameFileName(frameIdx: nat): string {
    Format08d(frameIdx + 1) + ".jpg"
  }

  /** `_get_image_path`: `os.path.join(sequence_dir, "img1", f"{frame_idx+1:08d}.jpg")`. */
  function ImagePath(sequenceDir: string, frameIdx: nat): string {
    Join(Join(sequenceDir, "img1"), FrameFileName(frameIdx))
  }

  /** Reads a frame image name back into its 0-based frame index. */
  function ParseFrameFileName(name: string): Option<nat> {
    if |name| >= 4 && name[|name| - 4..] == ".jpg" then
      var stem := name[..|name| - 4];
      if |stem| > 0 && AllDigits(stem) && ValueOf(stem) >= 1 then Some(ValueOf(stem) - 1) else None
    else None
  }

  /** Frame index 0 is the image `00000001.jpg`. */
  lemma FirstFrameFileName()
    ensures FrameFileName(0) == "00000001.jpg"
  {
    assert Digits(1) == "1";
    assert Zeros(7) == "0000000";
  }

  /**
   * The image name of frame `i` is `i+1` in eight zero-padded digits and `.jpg`
   * (for `i+1 < 10^8`), and reading it back gives `i` whatever its size.
   */
  lemma {:induction false} FrameFileNameRoundTrip(i: nat)
    ensures ParseFrameFileName(FrameFileName(i)) == Some(i)
    ensures i + 1 < Pow10(8) ==> |FrameFileName(i)| == 12
    ensures AllDigits(FrameFileName(i)[..|FrameFileName(i)| - 4])
  {
    var name := FrameFileName(i);
    Format08dValue(i + 1);
    assert name[..|name| - 4] == Format08d(i + 1);
    assert name[|name| - 4..] == ".jpg";
  }

  /** Distinct frame indices name distinct image files. */
  lemma FrameFileNameInjective(i: nat, j: nat)
    requires i != j
    ensures FrameFileName(i) != FrameFileName(j)
  {
    FrameFileNameRoundTrip(i);
    FrameFileNameRoundTrip(j);
  }

  /** Every frame image lies in the sequence's `img1` directory. */
  lemma ImagePathUnderImg1(sequenceDir: string, i: nat)
    ensures EndsWith(ImagePath(sequenceDir, i), "img1/" + FrameFileName(i))
  {
    var d := Join(sequenceDir, "img1");
    var name := FrameFileName(i);
    JoinEndsWith(sequenceDir, "img1");
    assert d[|d| - 1] == '1';
    assert name[0] != '/' by {
      Format08dValue(i + 1);
      assert name[0] == Format08d(i + 1)[0];
    }
    var p := ImagePath(sequenceDir, i);
    assert p == d + "/" + name;
    assert p[|p| - |"img1/" + name|..] == d[|d| - 4..] + "/" + name;
  }

  /** Distinct frames of one sequence have distinct image paths. */
  lemma ImagePathInjective(dir: string, i: nat, j: nat)
    requires i != j
    ensures ImagePath(dir, i) != ImagePath(dir, j)
  {
    FrameFileNameInjective(i, j);
    var d := Join(dir, "img1");
    JoinEndsWith(dir, "img1");
    assert d != [] && d[|d| - 1] == '1';
    var a, b := FrameFileName(i), FrameFileName(j);
    FrameFileNameRoundTrip(i);
    FrameFileNameRoundTrip(j);
    assert a[0] != '/' && b[0] != '/' by {
      Format08dValue(i + 1);
      Format08dValue(j + 1);
      assert a[0] == Format08d(i + 1)[0] && b[0] == Format08d(j + 1)[0];
    }
    assert ImagePath(dir, i) == d + "/" + a;
    assert ImagePath(dir, j) == d + "/" + b;
    assert (d + "/" + a)[|d| + 1..] == a;
    assert (d + "/" + b)[|d| + 1..] == b;
  }
}
