/**
 * `render_tree`: the lines written below the header.
 *
 * The entries are split into directories and files, each group in the
 * order of the input; the directories are written first, then the files.
 * A directory line is `├──`, except that the last one is `└──` when no file
 * follows; a file line is `├`, except that the last one is `└`.  A line is
 * modelled as its connector, the entry's name and the entry's size in
 * bytes; the human-readable size text and the colours are not modelled.
 */
module TreeRender {
  import opened EntryCollector

  datatype Connector =
    | DirBranch      // "├──"
    | DirLast        // "└──"
    | FileBranch     // "├"
    | FileLast       // "└"
  {
    function Glyph(): string
    {
      match this
      case DirBranch => "├──"
      case DirLast => "└──"
      case FileBranch => "├"
      case FileLast => "└"
    }

    /** The connector closes the tree: one of the `└` family. */
    predicate IsLast()
    {
      DirLast? || FileLast?
    }

    predicate IsDirConnector()
    {
      DirBranch? || DirLast?
    }
  }

  /** One line of the tree: `<connector> <name> <size>`. */
  datatype Line = Line(connector: Connector, name: string, size: nat)

  /** `entries.iter().filter(|e| e.is_dir).collect()` */
  function Dirs(es: seq<Entry>): (d: seq<Entry>)
    ensures |d| <= |es|
    ensures forall k :: 0 <= k < |d| ==> d[k].isDir
  {
    if es == [] then []
    else if es[0].isDir then [es[0]] + Dirs(es[1..])
    else Dirs(es[1..])
  }

  /** `entries.iter().filter(|e| !e.is_dir).collect()` */
  function Files(es: seq<Entry>): (f: seq<Entry>)
    ensures |f| <= |es|
    ensures forall k :: 0 <= k < |f| ==> !f[k].isDir
  {
    if es == [] then []
    else if !es[0].isDir then [es[0]] + Files(es[1..])
    else Files(es[1..])
  }

  /** The connector of the directory at index `i` among `dirCount` directories. */
  function DirConnector(i: nat, dirCount: nat, filesEmpty: bool): Connector
  {
    if i == dirCount - 1 && filesEmpty then DirLast else DirBranch
  }

  /** The connector of the file at index `j` among `fileCount` files. */
  function FileConnector(j: nat, fileCount: nat): Connector
  {
    if j == fileCount - 1 then FileLast else FileBranch
  }

  /** The lines `render_tree` writes for `entries`, in order. */
  function Layout(entries: seq<Entry>): seq<Line>
  {
    var dirs, files := Dirs(entries), Files(entries);
    seq(|dirs|, i requires 0 <= i < |dirs| =>
      Line(DirConnector(i, |dirs|, files == []), dirs[i].name, dirs[i].size))
    + seq(|files|, j requires 0 <= j < |files| =>
      Line(FileConnector(j, |files|), files[j].name, files[j].size))
  }

  /**
   * `usize` subtraction: the source's `len() - 1` would panic below zero,
   * so every use must show that the length is at least one.
   */
  function LenMinusOne(len: nat): nat
    requires len >= 1
  {
    len - 1
  }

  /** The two loops of `render_tree`, appending one line per entry to the output. */
  method RenderTree(entries: seq<Entry>) returns (out: seq<Line>)
    ensures out == Layout(entries)
  {
    var dirs := Dirs(entries);
    var files := Files(entries);
    out := [];
    for i := 0 to |dirs|
      invariant |out| == i
      invariant forall k :: 0 <= k < i ==>
        out[k] == Line(DirConnector(k, |dirs|, files == []), dirs[k].name, dirs[k].size)
    {
      var connector := if i == LenMinusOne(|dirs|) && files == [] then DirLast else DirBranch;
      out := out + [Line(connector, dirs[i].name, dirs[i].size)];
    }
    for j := 0 to |files|
      invariant |out| == |dirs| + j
      invariant forall k :: 0 <= k < |dirs| ==>
        out[k] == Line(DirConnector(k, |dirs|, files == []), dirs[k].name, dirs[k].size)
      invariant forall k :: 0 <= k < j ==>
        out[|dirs| + k] == Line(FileConnector(k, |files|), files[k].name, files[k].size)
    {
      var connector := if j == LenMinusOne(|files|) then FileLast else FileBranch;
      out := out + [Line(connector, files[j].name, files[j].size)];
    }
  }

  /** Each group keeps the order of the input: filtering a concatenation filters each part. */
  lemma {:induction false} PartitionSplits(a: seq<Entry>, b: seq<Entry>)
    ensures Dirs(a + b) == Dirs(a) + Dirs(b)
    ensures Files(a + b) == Files(a) + Files(b)
  {
    if a == [] {
      assert a + b == b;
    } else {
      assert (a + b)[0] == a[0];
      assert (a + b)[1..] == a[1..] + b;
      PartitionSplits(a[1..], b);
    }
  }

  /** The two groups together hold every entry exactly once. */
  lemma {:induction false} PartitionKeepsAll(es: seq<Entry>)
    ensures multiset(Dirs(es)) + multiset(Files(es)) == multiset(es)
  {
    if es != [] {
      PartitionKeepsAll(es[1..]);
      assert es == [es[0]] + es[1..];
      assert multiset(es) == multiset{es[0]} + multiset(es[1..]);
      if es[0].isDir {
        assert Dirs(es) == [es[0]] + Dirs(es[1..]);
        assert Files(es) == Files(es[1..]);
      } else {
        assert Dirs(es) == Dirs(es[1..]);
        assert Files(es) == [es[0]] + Files(es[1..]);
      }
    }
  }

  /** `render_tree` writes exactly one line per entry. */
  lemma LayoutLength(entries: seq<Entry>)
    ensures |Layout(entries)| == |Dirs(entries)| + |Files(entries)| == |entries|
  {
    PartitionKeepsAll(entries);
    calc {
      |entries|;
      |multiset(entries)|;
      |multiset(Dirs(entries)) + multiset(Files(entries))|;
      |Dirs(entries)| + |Files(entries)|;
    }
  }

  /**
   * Line `k` of the layout: the k-th directory while `k` is below the
   * number of directories, the file at `k` minus that number after it.
   */
  lemma LayoutAt(entries: seq<Entry>, k: nat)
    requires k < |entries|
    ensures var lines, dirs, files := Layout(entries), Dirs(entries), Files(entries);
      && |lines| == |entries|
      && (k < |dirs| ==>
            lines[k] == Line(DirConnector(k, |dirs|, files == []), dirs[k].name, dirs[k].size))
      && (k >= |dirs| ==>
            lines[k] == Line(FileConnector(k - |dirs|, |files|), files[k - |dirs|].name, files[k - |dirs|].size))
  {
    LayoutLength(entries);
  }

  /**
   * The first lines are the directories, in input order, and the remaining
   * lines the files, in input order: a directory line never follows a file
   * line.
   */
  lemma LayoutGroups(entries: seq<Entry>)
    ensures var lines, dirs, files := Layout(entries), Dirs(entries), Files(entries);
      && |lines| == |dirs| + |files|
      && (forall k :: 0 <= k < |lines| ==>
            (lines[k].connector.IsDirConnector() <==> k < |dirs|))
      && (forall k :: 0 <= k < |dirs| ==>
            lines[k].name == dirs[k].name && lines[k].size == dirs[k].size)
      && (forall k :: |dirs| <= k < |lines| ==>
            lines[k].name == files[k - |dirs|].name && lines[k].size == files[k - |dirs|].size)
  {
    LayoutLength(entries);
    forall k | 0 <= k < |entries| {
      LayoutAt(entries, k);
    }
  }

  /**
   * The connector rules: a directory line is `└──` exactly when it is the
   * last directory and there are no files, every other directory line is
   * `├──`; a file line is `└` exactly when it is the last file, every other
   * file line is `├`.
   */
  lemma LayoutConnectors(entries: seq<Entry>)
    ensures var lines, dirs, files := Layout(entries), Dirs(entries), Files(entries);
      && (forall k :: 0 <= k < |dirs| ==>
            lines[k].connector == (if k == |dirs| - 1 && files == [] then DirLast else DirBranch))
      && (forall k :: |dirs| <= k < |lines| ==>
            lines[k].connector == (if k == |lines| - 1 then FileLast else FileBranch))
  {
    LayoutLength(entries);
    forall k | 0 <= k < |entries| {
      LayoutAt(entries, k);
    }
  }

  /**
   * Exactly one line closes the tree, and it is the last line: the only
   * `└`-family connector is on the last line, whenever there is a line.
   */
  lemma LayoutClosesOnce(entries: seq<Entry>)
    ensures var lines := Layout(entries);
      forall k :: 0 <= k < |lines| ==> (lines[k].connector.IsLast() <==> k == |entries| - 1)
  {
    LayoutLength(entries);
    forall k | 0 <= k < |entries| {
      LayoutAt(entries, k);
    }
  }
}
