/**
 * The on-disk layout the loader reads, as the answers its file-system,
 * ConfigParser and PIL calls give for one split directory
 * `<data_dir>/<split>/`.
 */
module Layout {

  /**
   * A `seqinfo.ini` as ConfigParser holds it after reading: the section names,
   * and the option values keyed by section and by option name as
   * ConfigParser stores it (lower case).
   */
  datatype Ini = Ini(sections: set<string>, options: map<(string, string), string>)

  /** `seqinfo.ini`: not a file, a file that `ini.read` raises on, or a parsed file. */
  datatype IniFile = NoIniFile | Unreadable | Parsed(ini: Ini)

  /** `img1/00000001.jpg`: not a file, a file PIL cannot open, or an image of that size. */
  datatype FirstImage = NoImage | Undecodable | Size(width: nat, height: nat)

  /** What the loader can learn about one entry `<split>/<name>` of the split directory. */
  datatype Entry = Entry(
    isDir: bool,           // os.path.isdir(<split>/<name>)
    hasImageDir: bool,     // os.path.isdir(<split>/<name>/img1)
    hasGroundTruth: bool,  // os.path.isfile(<split>/<name>/gt/gt.txt)
    seqinfo: IniFile,      // <split>/<name>/seqinfo.ini
    jpgCount: nat,         // len(glob(<split>/<name>/img1/*.jpg))
    firstImage: FirstImage,
    groundTruth: seq<string>  // the lines of gt/gt.txt, as iterating the open file yields them
  )

  /** The split directory: `os.listdir` (no name twice) and what each listed name is. */
  datatype SplitContents = SplitContents(listing: seq<string>, entries: map<string, Entry>)

  /** A name with nothing behind it: not a directory, no files. */
  const Nothing := Entry(false, false, false, NoIniFile, 0, NoImage, [])

  function EntryOf(contents: SplitContents, name: string): Entry {
    if name in contents.entries then contents.entries[name] else Nothing
  }

  /** The exceptions that escape the loader and abort the whole load. */
  datatype LoadError =
    | SeqInfoUnreadable   // ConfigParser.read raised on a seqinfo.ini
    | WrongFieldCount     // a ground-truth line does not unpack into nine fields
    | NotAnInteger        // int() raised on frame_id or obj_id
    | NotAFloat           // float() raised on x, y, w or h
    | FrameOutOfRange     // annotations[sequence_name][frame_id - 1] raised IndexError
}
