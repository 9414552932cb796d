/**
 * The pipeline of `main` between collecting the entries and writing them:
 * the entries are sorted in place by size, largest first, the header total
 * is the sum of their sizes, and the tree is rendered from the sorted
 * entries.  The path shown in the header, the colours and the writer are
 * not modelled.
 */
module Report {
  import opened Folds
  import opened FileSystem
  import opened SizeEngine
  import opened EntryCollector
  import opened SizeUnits
  import opened TreeRender

  /** Sizes never increase from one entry to the next. */
  ghost predicate SortedBySizeDesc(s: seq<Entry>)
  {
    forall i, j :: 0 <= i < j < |s| ==> s[i].size >= s[j].size
  }

  /** Exchanges the entries at `j - 1` and `j`. */
  method SwapDown(a: array<Entry>, j: nat)
    requires 0 < j < a.Length
    modifies a
    ensures a[..] == old(a[..])[j - 1 := old(a[j])][j := old(a[j - 1])]
    ensures multiset(a[..]) == old(multiset(a[..]))
  {
    a[j - 1], a[j] := a[j], a[j - 1];
  }

  /** `s[..i + 1]` is sorted, except that `s[j]` may be bigger than the entries before it. */
  ghost predicate SortedExceptAt(s: seq<Entry>, i: nat, j: nat)
  {
    forall p, q :: 0 <= p < q <= i && q < |s| && q != j ==> s[p].size >= s[q].size
  }

  /** Moving the out-of-place entry one step down keeps the rest sorted. */
  lemma SwapDownKeepsOrder(s: seq<Entry>, i: nat, j: nat)
    requires 0 < j <= i < |s| && SortedExceptAt(s, i, j) && s[j - 1].size < s[j].size
    ensures SortedExceptAt(s[j - 1 := s[j]][j := s[j - 1]], i, j - 1)
  {
  }

  /**
   * Moves `a[i]` down into the sorted prefix `a[..i]`, leaving `a[..i + 1]`
   * sorted and the rest of the array as it was.
   */
  method InsertIntoPrefix(a: array<Entry>, i: nat)
    requires i < a.Length
    requires SortedExceptAt(a[..], i, i)
    modifies a
    ensures SortedExceptAt(a[..], i, i + 1)
    ensures multiset(a[..]) == old(multiset(a[..]))
    ensures a[i + 1..] == old(a[i + 1..])
  {
    var j := i;
    while j > 0 && a[j - 1].size < a[j].size
      invariant 0 <= j <= i
      invariant SortedExceptAt(a[..], i, j)
      invariant multiset(a[..]) == old(multiset(a[..]))
      invariant a[i + 1..] == old(a[i + 1..])
    {
      SwapDownKeepsOrder(a[..], i, j);
      SwapDown(a, j);
      j := j - 1;
    }
  }

  /**
   * `entries.sort_unstable_by(|a, b| b.size.cmp(&a.size))`: the array ends
   * up a permutation of what it held, largest size first.  The source's
   * sort is unstable, so the order of equal sizes is not specified; this
   * insertion sort fixes one such order.
   */
  method SortBySizeDesc(a: array<Entry>)
    modifies a
    ensures SortedBySizeDesc(a[..])
    ensures multiset(a[..]) == old(multiset(a[..]))
  {
    var i := 0;
    while i < a.Length
      invariant i <= a.Length
      invariant SortedExceptAt(a[..], i, i)
      invariant multiset(a[..]) == old(multiset(a[..]))
    {
      InsertIntoPrefix(a, i);
      i := i + 1;
    }
  }

  function SizeOf(e: Entry): nat
  {
    e.size
  }

  /** `entries.iter().map(|e| e.size).sum()` */
  function TotalSize(entries: seq<Entry>): nat
  {
    SumOf(SizeOf, entries)
  }

  /** Sorting cannot change the total: it is the sum of the unsorted sizes. */
  lemma TotalSizeOrderFree(a: seq<Entry>, b: seq<Entry>)
    requires multiset(a) == multiset(b)
    ensures TotalSize(a) == TotalSize(b)
  {
    SumOfPermutation(SizeOf, a, b);
  }

  /** The kind `file_type()` reports agrees with the kind `metadata()` reports. */
  predicate KindsAgree(e: DirEntry)
  {
    TypeSaysDir(e) <==> MetadataSaysDir(e)
  }

  lemma {:induction false} CollectedSizesAreEntrySizes(es: seq<DirEntry>)
    requires forall k :: 0 <= k < |es| ==> KindsAgree(es[k])
    ensures TotalSize(CollectAll(es)) == SumOf(EntrySize, es)
  {
    if es != [] {
      CollectedSizesAreEntrySizes(es[1..]);
      assert CollectAll(es)[1..] == CollectAll(es[1..]);
    }
  }

  /**
   * The header total equals `parallel_dir_size` of the root whenever, for
   * every child of the root, `file_type()` and `metadata()` agree on
   * whether it is a directory; with an unreadable root both are 0.
   */
  lemma TotalIsRootSize(root: Listing)
    requires root.Listed? ==> forall k :: 0 <= k < |Flatten(root.items)| ==> KindsAgree(Flatten(root.items)[k])
    ensures TotalSize(FetchEntries(root)) == DirSize(root)
  {
    DirSizeIsSum(root);
    if root.Listed? {
      CollectedSizesAreEntrySizes(Flatten(root.items));
    }
  }

  /**
   * `main` after the current directory is known: collect the entries of
   * the root, sort them, sum their sizes, choose the unit of the total
   * for the header and render the tree.
   */
  method Run(root: Listing) returns (sorted: seq<Entry>, total: nat, totalUnit: string, lines: seq<Line>)
    ensures multiset(sorted) == multiset(FetchEntries(root))
    ensures SortedBySizeDesc(sorted)
    ensures total == TotalSize(FetchEntries(root))
    ensures totalUnit == Units[UnitOf(total)]
    ensures lines == Layout(sorted) && |lines| == |sorted|
  {
    var entries := FetchEntries(root);
    var a := new Entry[|entries|](k requires 0 <= k < |entries| => entries[k]);
    assert a[..] == entries;
    SortBySizeDesc(a);
    sorted := a[..];
    total := TotalSize(sorted);
    TotalSizeOrderFree(sorted, entries);
    var unit, whole;
    totalUnit, unit, whole := HumanSize(total);
    lines := RenderTree(sorted);
    LayoutLength(sorted);
  }
}
