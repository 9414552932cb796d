/**
 * The entry collector, `fetch_entries`: one `Entry` for every immediate
 * child of the root.
 *
 * The kind of a child is decided by `file_type()`; only a child that it
 * reports as a directory is sized recursively, every other child takes its
 * metadata size (0 when metadata cannot be read).  A name that is not valid
 * Unicode becomes the empty string.  Rayon's `collect` keeps the order of
 * the input, so the entries come in the order `read_dir` yields them.
 */
module EntryCollector {
  import opened Folds
  import opened FileSystem
  import opened SizeEngine

  /** One immediate child of the root, as the report shows it. */
  datatype Entry = Entry(name: string, size: nat, isDir: bool)

  /** The closure `fetch_entries` maps over the flattened entries of the root. */
  function CollectEntry(e: DirEntry): Entry
  {
    var isDir := TypeSaysDir(e);
    var size := if isDir then DirSize(e.contents) else MetadataSize(e);
    Entry(e.fileName.GetOr(""), size, isDir)
  }

  /** `.map(CollectEntry).collect()`: one entry per element, in order. */
  function CollectAll(es: seq<DirEntry>): seq<Entry>
  {
    seq(|es|, i requires 0 <= i < |es| => CollectEntry(es[i]))
  }

  /** `fetch_entries` on a root directory whose `read_dir` gives `root`. */
  function FetchEntries(root: Listing): seq<Entry>
  {
    match root
    case Unreadable => []
    case Listed(items) => CollectAll(Flatten(items))
  }

  function CollectOne(e: DirEntry): seq<Entry>
  {
    [CollectEntry(e)]
  }

  lemma {:induction false} CollectAllIsFlatMap(es: seq<DirEntry>)
    ensures CollectAll(es) == FlatMap(CollectOne, es)
  {
    if es != [] {
      CollectAllIsFlatMap(es[1..]);
      assert CollectAll(es) == [CollectEntry(es[0])] + CollectAll(es[1..]);
    }
  }

  lemma {:induction false} FlattenCount(items: seq<Item>)
    ensures |Flatten(items)| == |items| - multiset(items)[Failed]
  {
    if items != [] {
      FlattenCount(items[1..]);
      assert items == [items[0]] + items[1..];
      assert multiset(items) == multiset{items[0]} + multiset(items[1..]);
    }
  }

  /**
   * An unreadable root gives no entries; a readable one gives exactly one
   * entry per item of its listing that is not an iteration error, and the
   * i-th entry describes the i-th such item: a directory exactly when
   * `file_type()` says so, sized recursively if so and by its metadata
   * otherwise, named by its file name or the empty string.
   */
  lemma FetchEntriesSpec(root: Listing)
    ensures root.Unreadable? ==> FetchEntries(root) == []
    ensures root.Listed? ==> |FetchEntries(root)| == |root.items| - multiset(root.items)[Failed]
    ensures root.Listed? ==> forall i :: 0 <= i < |FetchEntries(root)| ==>
      var e := Flatten(root.items)[i];
      var r := FetchEntries(root)[i];
      && (r.isDir <==> TypeSaysDir(e))
      && r.name == (if e.fileName.Some? then e.fileName.value else "")
      && (r.isDir ==> r.size == DirSize(e.contents))
      && (!r.isDir ==> r.size == MetadataSize(e))
  {
    if root.Listed? {
      FlattenCount(root.items);
    }
  }

  /** The entries of a concatenated listing are the two lists of entries, in order. */
  lemma FetchEntriesAppend(a: seq<Item>, b: seq<Item>)
    ensures FetchEntries(Listed(a + b)) == FetchEntries(Listed(a)) + FetchEntries(Listed(b))
  {
    FlatMapAppend(OkEntries, a, b);
    CollectAllIsFlatMap(Flatten(a + b));
    CollectAllIsFlatMap(Flatten(a));
    CollectAllIsFlatMap(Flatten(b));
    FlatMapAppend(CollectOne, Flatten(a), Flatten(b));
  }

  /** The order in which `read_dir` yields the children does not change the multiset of entries. */
  lemma FetchEntriesOrderFree(a: seq<Item>, b: seq<Item>)
    requires multiset(a) == multiset(b)
    ensures multiset(FetchEntries(Listed(a))) == multiset(FetchEntries(Listed(b)))
  {
    FlatMapPermutation(OkEntries, a, b);
    CollectAllIsFlatMap(Flatten(a));
    CollectAllIsFlatMap(Flatten(b));
    FlatMapPermutation(CollectOne, Flatten(a), Flatten(b));
  }
}
