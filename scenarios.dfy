/**
 * End-to-end examples on concrete trees: for each tree, the entries
 * collected from it, the header total and its unit, and the lines rendered
 * from any sorted order of the entries.
 */
module Scenarios {
  import opened FileSystem
  import opened SizeEngine
  import opened EntryCollector
  import opened SizeUnits
  import opened TreeRender
  import opened Report

  function File(name: string, size: nat): DirEntry
  {
    DirEntry(Some(name), Some(FileType(false)), Some(Metadata(false, size)), Unreadable)
  }

  function Directory(name: string, contents: Listing): DirEntry
  {
    DirEntry(Some(name), Some(FileType(true)), Some(Metadata(true, 0)), contents)
  }

  /** With two sizes that differ, only one order of two entries is sorted. */
  lemma SortedPair(s: seq<Entry>, x: Entry, y: Entry)
    requires multiset(s) == multiset([x, y]) && SortedBySizeDesc(s)
    requires x.size > y.size
    ensures s == [x, y]
  {
    assert |s| == |multiset(s)| == 2;
    assert s[0] in multiset(s) && s[1] in multiset(s);
    assert s == [s[0], s[1]];
    assert multiset(s) == multiset{s[0], s[1]};
  }

  /** An empty directory: no entries, total 0 in B, no lines. */
  lemma EmptyDirectory(sorted: seq<Entry>)
    requires multiset(sorted) == multiset(FetchEntries(Listed([])))
    ensures TotalSize(FetchEntries(Listed([]))) == 0 && Units[UnitOf(0)] == "B"
    ensures Layout(sorted) == []
  {
    assert |sorted| == |multiset(sorted)| == 0;
  }

  /** A single 2048-byte file: total 2048 in KB, and its only line is `└`. */
  lemma SingleFile(sorted: seq<Entry>)
    requires multiset(sorted) == multiset(FetchEntries(Listed([Ok(File("a.txt", 2048))])))
    ensures TotalSize(FetchEntries(Listed([Ok(File("a.txt", 2048))]))) == 2048 && Units[UnitOf(2048)] == "KB"
    ensures Layout(sorted) == [Line(FileLast, "a.txt", 2048)]
  {
    var a := Entry("a.txt", 2048, false);
    assert FetchEntries(Listed([Ok(File("a.txt", 2048))])) == [a];
    assert |sorted| == |multiset(sorted)| == 1;
    assert sorted[0] in multiset(sorted);
    assert sorted == [a];
    assert Files(sorted) == [a];
    assert Dirs(sorted) == [];
  }

  /** Two files of 3000 and 500 bytes: files only, so `├` then `└`. */
  lemma TwoFiles(sorted: seq<Entry>)
    requires var root := Listed([Ok(File("small", 500)), Ok(File("big", 3000))]);
      multiset(sorted) == multiset(FetchEntries(root)) && SortedBySizeDesc(sorted)
    ensures var root := Listed([Ok(File("small", 500)), Ok(File("big", 3000))]);
      TotalSize(FetchEntries(root)) == 3500 && Units[UnitOf(3500)] == "KB"
    ensures Layout(sorted) == [Line(FileBranch, "big", 3000), Line(FileLast, "small", 500)]
  {
    var root := Listed([Ok(File("small", 500)), Ok(File("big", 3000))]);
    var small, big := Entry("small", 500, false), Entry("big", 3000, false);
    assert FetchEntries(root) == [small, big];
    assert multiset([small, big]) == multiset([big, small]);
    SortedPair(sorted, big, small);
    assert Files(sorted) == [big, small];
    assert Dirs(sorted) == [];
  }

  /** A directory holding a 1024-byte file and a 2048-byte file at the root: the directory line is `├──` because a file follows. */
  lemma DirectoryThenFile(sorted: seq<Entry>)
    requires var root := Listed([Ok(Directory("d", Listed([Ok(File("inner", 1024))]))), Ok(File("f", 2048))]);
      multiset(sorted) == multiset(FetchEntries(root)) && SortedBySizeDesc(sorted)
    ensures var root := Listed([Ok(Directory("d", Listed([Ok(File("inner", 1024))]))), Ok(File("f", 2048))]);
      TotalSize(FetchEntries(root)) == 3072 && Units[UnitOf(3072)] == "KB"
    ensures Layout(sorted) == [Line(DirBranch, "d", 1024), Line(FileLast, "f", 2048)]
  {
    var inner := Listed([Ok(File("inner", 1024))]);
    var root := Listed([Ok(Directory("d", inner)), Ok(File("f", 2048))]);
    assert DirSize(inner) == 1024;
    var d, f := Entry("d", 1024, true), Entry("f", 2048, false);
    assert FetchEntries(root) == [d, f];
    assert multiset([d, f]) == multiset([f, d]);
    SortedPair(sorted, f, d);
    assert Dirs(sorted) == [d];
    assert Files(sorted) == [f];
  }

  /** Two directories and no files: the last directory line is `└──`. */
  lemma DirectoriesOnly(sorted: seq<Entry>)
    requires var root := Listed([Ok(Directory("y", Listed([]))), Ok(Directory("x", Listed([Ok(File("big", 10485760))])))]);
      multiset(sorted) == multiset(FetchEntries(root)) && SortedBySizeDesc(sorted)
    ensures var root := Listed([Ok(Directory("y", Listed([]))), Ok(Directory("x", Listed([Ok(File("big", 10485760))])))]);
      TotalSize(FetchEntries(root)) == 10485760 && Units[UnitOf(10485760)] == "MB"
    ensures Layout(sorted) == [Line(DirBranch, "x", 10485760), Line(DirLast, "y", 0)]
  {
    var xs := Listed([Ok(File("big", 10485760))]);
    var root := Listed([Ok(Directory("y", Listed([]))), Ok(Directory("x", xs))]);
    assert DirSize(xs) == 10485760;
    var x, y := Entry("x", 10485760, true), Entry("y", 0, true);
    assert FetchEntries(root) == [y, x];
    assert multiset([y, x]) == multiset([x, y]);
    SortedPair(sorted, x, y);
    assert Dirs(sorted) == [x, y];
    assert Files(sorted) == [];
  }

  /** A sub-directory that cannot be read counts 0 and does not stop the traversal. */
  lemma UnreadableSubdirectory(sorted: seq<Entry>)
    requires var root := Listed([Ok(Directory("locked", Unreadable)), Ok(File("ok", 100))]);
      multiset(sorted) == multiset(FetchEntries(root)) && SortedBySizeDesc(sorted)
    ensures var root := Listed([Ok(Directory("locked", Unreadable)), Ok(File("ok", 100))]);
      TotalSize(FetchEntries(root)) == 100 && Units[UnitOf(100)] == "B"
    ensures Layout(sorted) == [Line(DirBranch, "locked", 0), Line(FileLast, "ok", 100)]
  {
    var root := Listed([Ok(Directory("locked", Unreadable)), Ok(File("ok", 100))]);
    var locked, ok := Entry("locked", 0, true), Entry("ok", 100, false);
    assert FetchEntries(root) == [locked, ok];
    assert multiset([locked, ok]) == multiset([ok, locked]);
    SortedPair(sorted, ok, locked);
    assert Dirs(sorted) == [locked];
    assert Files(sorted) == [ok];
  }
}
