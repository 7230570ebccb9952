/** The `DanceTrack` constructor: sequence metadata, image paths and, on request, annotations. */
module Catalog {
  import opened Wrappers
  import opened Layout
  import opened Ordering
  import opened Discovery
  import opened Metadata
  import opened Paths
  import opened ImageIndex
  import opened Annotations

  /** The three tables a loaded split holds; `annotations` is absent when annotations are not loaded. */
  datatype Dataset = Dataset(
    sequenceInfos: map<string, SequenceInfo>,
    imagePaths: map<string, seq<string>>,
    annotations: Option<map<string, seq<Frame>>>)

  /** Every INI file of the discovered sequences can be read. */
  predicate AllReadable(contents: SplitContents, names: seq<string>) {
    forall n :: n in names ==> !EntryOf(contents, n).seqinfo.Unreadable?
  }

  /** The sequence with a ground-truth line that raises, once every INI file reads. */
  ghost predicate SomeGroundTruthFails(contents: SplitContents, names: seq<string>)
    requires AllReadable(contents, names)
  {
    exists n :: n in names && FoldedFrames(contents, ResolvedInfo(EntryOf(contents, n)).value, n).Failure?
  }

  /** The tables of one split built for the given (discovered) sequences. */
  ghost predicate Built(dataDir: string, split: string, contents: SplitContents, names: seq<string>, loadAnnotation: bool,
                  policy: Frame -> bool, d: Dataset)
  {
    && d.sequenceInfos.Keys == (set n | n in names)
    && (forall n :: n in names ==> Success(d.sequenceInfos[n]) == ResolvedInfo(EntryOf(contents, n)))
    && (forall n :: n in d.imagePaths <==> n in names && FrameCount(d.sequenceInfos[n]) > 0)
    && (forall n :: n in names ==> PathsOf(d.imagePaths, n)
                                     == FramePaths(SequenceDir(dataDir, split, n), FrameCount(d.sequenceInfos[n])))
    && (d.annotations.Some? <==> loadAnnotation)
    && (d.annotations.Some? ==>
          && d.annotations.value.Keys == (set n | n in names)
          && forall n :: n in names ==>
               && FoldedFrames(contents, d.sequenceInfos[n], n).Success?
               && d.annotations.value[n] == Stamp(FoldedFrames(contents, d.sequenceInfos[n], n).value, policy)
               && |d.annotations.value[n]| == |PathsOf(d.imagePaths, n)| == FrameCount(d.sequenceInfos[n]))
  }

  /**
   * Building the dataset of one split. It fails exactly when an INI file of
   * a discovered sequence cannot be read, or, when annotations load, a
   * ground-truth line of one raises. Otherwise the metadata, the image paths
   * and the annotations are those of the discovered sequences, and each
   * sequence has as many image paths as annotated frames.
   */
  method Load(dataDir: string, split: string, contents: SplitContents, loadAnnotation: bool, policy: Frame -> bool)
    returns (r: Result<Dataset, LoadError>)
    requires Distinct(contents.listing)
    ensures var names := SequenceNames(contents, loadAnnotation);
      r.Failure? <==> !AllReadable(contents, names) || (loadAnnotation && SomeGroundTruthFails(contents, names))
    ensures var names := SequenceNames(contents, loadAnnotation);
      r.Failure? && !AllReadable(contents, names) ==> r.error == SeqInfoUnreadable
    ensures r.Success? ==> Built(dataDir, split, contents, SequenceNames(contents, loadAnnotation), loadAnnotation, policy, r.value)
  {
    var names := SequenceNames(contents, loadAnnotation);
    SequenceNamesCorrect(contents, loadAnnotation);
    r := Build(dataDir, split, contents, names, loadAnnotation, policy);
  }

  /** The constructor's three steps over a list of distinct sequence names. */
  method Build(dataDir: string, split: string, contents: SplitContents, names: seq<string>, loadAnnotation: bool,
               policy: Frame -> bool)
    returns (r: Result<Dataset, LoadError>)
    requires Distinct(names)
    ensures r.Failure? <==> !AllReadable(contents, names) || (loadAnnotation && SomeGroundTruthFails(contents, names))
    ensures r.Failure? && !AllReadable(contents, names) ==> r.error == SeqInfoUnreadable
    ensures r.Success? ==> Built(dataDir, split, contents, names, loadAnnotation, policy, r.value)
  {
    var infos := GetSequenceInfos(contents, names);
    if infos.Failure? {
      return Failure(infos.error);
    }
    var paths := GetImagePaths(dataDir, split, names, infos.value);
    if !loadAnnotation {
      return Success(Dataset(infos.value, paths, None));
    }
    var anns := GetAnnotations(contents, names, infos.value, policy);
    if anns.Failure? {
      ghost var k :| 0 <= k < |names| && FoldedFrames(contents, infos.value[names[k]], names[k]) == Failure(anns.error);
      assert FoldedFrames(contents, ResolvedInfo(EntryOf(contents, names[k])).value, names[k]).Failure?;
      return Failure(anns.error);
    }
    forall n | n in names
      ensures |anns.value[n]| == FrameCount(infos.value[n])
    {
      FoldLinesSucceeds(InitialFrames(FrameCount(infos.value[n])), EntryOf(contents, n).groundTruth);
    }
    return Success(Dataset(infos.value, paths, Some(anns.value)));
  }
}
