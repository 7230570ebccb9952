/** `_get_sequence_names`: which entries of the split directory are sequences. */
module Discovery {
  import opened Layout
  import opened Ordering

  /** `<split>/<name>` is a directory and holds an `img1` directory. */
  predicate HasImages(contents: SplitContents, name: string) {
    EntryOf(contents, name).isDir && EntryOf(contents, name).hasImageDir
  }

  /** `<split>/<name>/gt/gt.txt` is a file. */
  predicate HasGroundTruth(contents: SplitContents, name: string) {
    EntryOf(contents, name).hasGroundTruth
  }

  /** The sorted listing, kept where there are images and, when annotations load, ground truth. */
  function SequenceNames(contents: SplitContents, loadAnnotation: bool): seq<string>
  {
    var names := Filter(Sort(contents.listing), n => HasImages(contents, n));
    if loadAnnotation then Filter(names, n => HasGroundTruth(contents, n)) else names
  }

  /**
   * Discovery returns the listed names that have `img1/` (and `gt/gt.txt` when
   * annotations load), each once, in Python's string order; a name without
   * ground truth is dropped exactly when annotations load.
   */
  lemma SequenceNamesCorrect(contents: SplitContents, loadAnnotation: bool)
    requires Distinct(contents.listing)
    ensures Sorted(SequenceNames(contents, loadAnnotation))
    ensures Distinct(SequenceNames(contents, loadAnnotation))
    ensures forall n :: n in SequenceNames(contents, loadAnnotation) <==>
      n in contents.listing && HasImages(contents, n) && (loadAnnotation ==> HasGroundTruth(contents, n))
  {
    var sorted := Sort(contents.listing);
    SortCorrect(contents.listing);
    SortDistinct(contents.listing);
    assert forall n :: n in sorted <==> n in contents.listing by {
      forall n ensures n in sorted <==> n in contents.listing {
        assert n in sorted <==> n in multiset(sorted);
      }
    }
    var p1 := (n: string) => HasImages(contents, n);
    var p2 := (n: string) => HasGroundTruth(contents, n);
    var names := Filter(sorted, p1);
    FilterMembers(sorted, p1);
    FilterSorted(sorted, p1);
    FilterDistinct(sorted, p1);
    FilterMembers(names, p2);
    FilterSorted(names, p2);
    FilterDistinct(names, p2);
  }
}
