/**
 * The recursive directory sizer, `parallel_dir_size`.
 *
 * For a path whose `read_dir` fails the size is 0.  Otherwise every entry
 * the directory iterator yields successfully contributes: its own
 * recursive size when its metadata says it is a directory, its metadata
 * `file_size()` when its metadata says anything else, and 0 when its
 * metadata cannot be read.  The contributions are added up by a parallel
 * reduction; here they are added from the first entry to the last, and
 * `DirSizeOrderFree` shows the order does not matter.
 */
module SizeEngine {
  import opened Folds
  import opened FileSystem

  /** `parallel_dir_size` of a path whose `read_dir` gives `l`. */
  function DirSize(l: Listing): nat
    decreases l, 1
  {
    match l
    case Unreadable => 0
    case Listed(items) => SuffixSize(l, 0)
  }

  /** The sum of the contributions of the items of `l` from index `i` on. */
  function SuffixSize(l: Listing, i: nat): nat
    requires l.Listed? && i <= |l.items|
    decreases l, 0, |l.items| - i
  {
    if i == |l.items| then 0 else ItemSize(l.items[i]) + SuffixSize(l, i + 1)
  }

  /** What one item of the iterator contributes; `flatten` drops failed items. */
  function ItemSize(it: Item): nat
    decreases it, 2
  {
    match it
    case Failed => 0
    case Ok(e) => EntrySize(e)
  }

  /** The value the closure mapped over the entries gives for one entry. */
  function EntrySize(e: DirEntry): nat
    decreases e, 2
  {
    match e.metadata
    case None => 0
    case Some(m) => if m.isDir then DirSize(e.contents) else m.fileSize
  }

  lemma {:induction false} SuffixSizeIsSum(l: Listing, i: nat)
    requires l.Listed? && i <= |l.items|
    ensures SuffixSize(l, i) == SumOf(ItemSize, l.items[i..])
    decreases |l.items| - i
  {
    if i < |l.items| {
      SuffixSizeIsSum(l, i + 1);
      assert l.items[i..][1..] == l.items[i + 1..];
    }
  }

  lemma {:induction false} ItemSumIsEntrySum(items: seq<Item>)
    ensures SumOf(ItemSize, items) == SumOf(EntrySize, Flatten(items))
  {
    if items != [] {
      ItemSumIsEntrySum(items[1..]);
      SumOfAppend(EntrySize, OkEntries(items[0]), Flatten(items[1..]));
      match items[0]
      case Failed =>
      case Ok(e) =>
        assert SumOf(EntrySize, [e]) == EntrySize(e) by {
          assert [e][1..] == [];
        }
    }
  }

  /**
   * The size of an unreadable directory is 0; that of a readable one is the
   * sum of `EntrySize` over the entries `flatten` keeps, and equally the sum
   * of `ItemSize` over everything the iterator yields.
   */
  lemma DirSizeIsSum(l: Listing)
    ensures l.Unreadable? ==> DirSize(l) == 0
    ensures l.Listed? ==> DirSize(l) == SumOf(ItemSize, l.items)
    ensures l.Listed? ==> DirSize(l) == SumOf(EntrySize, Flatten(l.items))
  {
    if l.Listed? {
      SuffixSizeIsSum(l, 0);
      assert l.items[0..] == l.items;
      ItemSumIsEntrySum(l.items);
    }
  }

  /**
   * The entries the recursion sizes by their metadata: every entry reachable
   * from `l` through entries whose `metadata()` says directory, that is not
   * itself such a directory, in listing order.
   */
  function Leaves(l: Listing): (r: seq<DirEntry>)
    ensures forall e :: e in r ==> !MetadataSaysDir(e)
    decreases l, 1
  {
    match l
    case Unreadable => []
    case Listed(items) => SuffixLeaves(l, 0)
  }

  function SuffixLeaves(l: Listing, i: nat): (r: seq<DirEntry>)
    requires l.Listed? && i <= |l.items|
    ensures forall e :: e in r ==> !MetadataSaysDir(e)
    decreases l, 0, |l.items| - i
  {
    if i == |l.items| then [] else ItemLeaves(l.items[i]) + SuffixLeaves(l, i + 1)
  }

  function ItemLeaves(it: Item): (r: seq<DirEntry>)
    ensures forall e :: e in r ==> !MetadataSaysDir(e)
    decreases it, 2
  {
    match it
    case Failed => []
    case Ok(e) => EntryLeaves(e)
  }

  function EntryLeaves(e: DirEntry): (r: seq<DirEntry>)
    ensures forall x :: x in r ==> !MetadataSaysDir(x)
    decreases e, 2
  {
    if MetadataSaysDir(e) then Leaves(e.contents) else [e]
  }

  lemma {:induction false} SuffixIsLeafSum(l: Listing, i: nat)
    requires l.Listed? && i <= |l.items|
    ensures SuffixSize(l, i) == SumOf(MetadataSize, SuffixLeaves(l, i))
    decreases l, 0, |l.items| - i
  {
    if i < |l.items| {
      ItemIsLeafSum(l.items[i]);
      SuffixIsLeafSum(l, i + 1);
      SumOfAppend(MetadataSize, ItemLeaves(l.items[i]), SuffixLeaves(l, i + 1));
    }
  }

  lemma {:induction false} ItemIsLeafSum(it: Item)
    ensures ItemSize(it) == SumOf(MetadataSize, ItemLeaves(it))
    decreases it, 2
  {
    match it
    case Failed =>
    case Ok(e) =>
      if MetadataSaysDir(e) {
        DirSizeIsLeafSum(e.contents);
      } else {
        assert [e][1..] == [];
      }
  }

  /**
   * A directory's size is the sum of the metadata sizes of everything under
   * it, at any depth, that the recursion does not descend into.
   */
  lemma {:induction false} DirSizeIsLeafSum(l: Listing)
    ensures DirSize(l) == SumOf(MetadataSize, Leaves(l))
    decreases l, 1
  {
    if l.Listed? {
      SuffixIsLeafSum(l, 0);
    }
  }

  /** The size does not depend on the order in which `read_dir` yields the entries. */
  lemma DirSizeOrderFree(a: seq<Item>, b: seq<Item>)
    requires multiset(a) == multiset(b)
    ensures DirSize(Listed(a)) == DirSize(Listed(b))
  {
    DirSizeIsSum(Listed(a));
    DirSizeIsSum(Listed(b));
    SumOfPermutation(ItemSize, a, b);
  }

  /** Splitting a listing in two splits its size in two. */
  lemma DirSizeAppend(a: seq<Item>, b: seq<Item>)
    ensures DirSize(Listed(a + b)) == DirSize(Listed(a)) + DirSize(Listed(b))
  {
    DirSizeIsSum(Listed(a));
    DirSizeIsSum(Listed(b));
    DirSizeIsSum(Listed(a + b));
    SumOfAppend(ItemSize, a, b);
  }

  /**
   * Every entry contributes its own size in full: a sub-directory whose
   * metadata says directory is never bigger than its parent, nor is a
   * non-directory entry's metadata size.
   */
  lemma EntryAtMostDirSize(items: seq<Item>, k: nat)
    requires k < |items| && items[k].Ok?
    ensures MetadataSaysDir(items[k].entry) ==> DirSize(items[k].entry.contents) <= DirSize(Listed(items))
    ensures !MetadataSaysDir(items[k].entry) ==> MetadataSize(items[k].entry) <= DirSize(Listed(items))
  {
    assert items == items[..k] + [items[k]] + items[k + 1..];
    DirSizeAppend(items[..k] + [items[k]], items[k + 1..]);
    DirSizeAppend(items[..k], [items[k]]);
    DirSizeIsSum(Listed([items[k]]));
    assert [items[k]][1..] == [];
  }
}
