/**
 * An abstract filesystem, standing in for the operating-system calls the
 * program makes: `fs::read_dir` on a path, and `file_name`, `file_type`
 * and `metadata` on each directory entry it yields.
 *
 * Every answer the operating system could give is a value of these types,
 * including every failure, so the two traversals can be stated as pure
 * functions over a tree.  The answers of one entry are independent of each
 * other: `file_type` and `metadata` may disagree, and either may fail.
 */
module FileSystem {
  import opened Folds

  datatype Option<T> = None | Some(value: T)
  {
    function GetOr(default: T): T
    {
      match this
      case Some(v) => v
      case None => default
    }
  }

  /** What a successful `file_type()` says: only whether it is a directory matters. */
  datatype FileType = FileType(isDir: bool)

  /** What a successful `metadata()` says: whether it is a directory, and `file_size()`. */
  datatype Metadata = Metadata(isDir: bool, fileSize: nat)

  /** The result of `fs::read_dir` on a path. */
  datatype Listing =
    | Unreadable             // read_dir returned an error
    | Listed(items: seq<Item>)  // the items the directory iterator yields, in order

  /** One item of a directory iterator; `flatten` drops the failed ones. */
  datatype Item = Failed | Ok(entry: DirEntry)

  /** One directory entry and the answers the operating system gives about it. */
  datatype DirEntry = DirEntry(
    fileName: Option<string>,       // None: the name is not valid Unicode
    fileType: Option<FileType>,     // None: file_type() failed
    metadata: Option<Metadata>,     // None: metadata() failed
    contents: Listing)              // what read_dir yields on this entry's path

  /** `file_type()` succeeded and reports a directory. */
  predicate TypeSaysDir(e: DirEntry)
  {
    e.fileType.Some? && e.fileType.value.isDir
  }

  /** `metadata()` succeeded and reports a directory. */
  predicate MetadataSaysDir(e: DirEntry)
  {
    e.metadata.Some? && e.metadata.value.isDir
  }

  /** The size `metadata().map(|m| m.file_size()).unwrap_or(0)` gives. */
  function MetadataSize(e: DirEntry): nat
  {
    match e.metadata
    case Some(m) => m.fileSize
    case None => 0
  }

  /** The entries `read_dir(..).flatten()` gives to the later pipeline stages. */
  function OkEntries(it: Item): seq<DirEntry>
  {
    match it
    case Failed => []
    case Ok(e) => [e]
  }

  /** `read_dir(..).flatten()`: the entries the iterator yields successfully, in order. */
  function Flatten(items: seq<Item>): seq<DirEntry>
  {
    FlatMap(OkEntries, items)
  }
}
