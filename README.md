# A verified model of a directory-size report

The program lists the immediate children of the current working directory,
with sub-directories sized by the recursive sum of everything under them,
sorted by size (largest first), under a header with the total, as a tree:
directory lines first, then file lines, with the tree's connectors chosen by
position. Sizes are shown in B, KB, MB, GB or TB, using a divisor of 1024.

This project models the program's logic in Dafny, without any I/O:

- `FileSystem` (filesystem.dfy): an abstract filesystem. Each directory
  entry carries what the operating system answers for it: its name (or that
  the name is not valid Unicode), the result of `file_type()`, the result of
  `metadata()`, and what `read_dir` yields on its path. Every answer can fail
  independently, and `file_type()` and `metadata()` may disagree.
- `SizeEngine` (size_engine.dfy): `parallel_dir_size` as a recursive function,
  with its parallel sum modelled as a sequential fold and proved order-free.
- `EntryCollector` (entry_collector.dfy): `fetch_entries` and the `Entry` record.
- `SizeUnits` (human_size.dfy): the unit-selection loop of `human_size`.
- `TreeRender` (tree_render.dfy): `render_tree` as a method whose two loops
  append lines, proved against the function `Layout`, with lemmas for the
  connector rules.
- `Report` (report.dfy): the part of `main` between collecting and writing:
  the in-place sort, the total, the header unit and the rendering.
- `Folds` (folds.dfy): sums and flat-maps over sequences, and the lemmas that
  they do not depend on the order of their operands (a permutation gives the
  same sum; a flat-map of a permutation is a permutation).
- `Scenarios` (scenarios.dfy): end-to-end examples on concrete trees.

Details of the code that the model follows:

- The code does not filter symbolic links or special files: any entry whose
  `metadata()` succeeds and does not say directory gives its `file_size()`.
  `EntrySize` does the same.
- In `fetch_entries`, an entry that `file_type()` does not report as a
  directory gets its metadata size, or 0 only when `metadata()` fails.
  `CollectEntry` does the same.
- `fetch_entries` decides "directory" by `file_type()`. The recursion decides
  it by `metadata().is_dir()`. The model keeps the two answers separate.
  `Report.TotalIsRootSize` shows that the header total equals the root's
  recursive size whenever they agree for every child.
- The code has no shared work queue and no termination protocol. It fans out
  by structured recursion (`into_par_iter` over each directory's entries),
  which the model follows by recursion.
- The `u64` `.sum()` panics in debug builds and wraps in release builds. The
  model uses unbounded naturals.

## Model

| member | source | states |
|---|---|---|
| `SizeEngine.DirSize` | src/main.rs:64-81 | `parallel_dir_size` of a path, given what `read_dir` yields on it; its contract is stated by `DirSizeIsSum`, `DirSizeIsLeafSum`, `DirSizeOrderFree`, `DirSizeAppend` and `EntryAtMostDirSize` |
| `SizeEngine.EntrySize` | src/main.rs:73-80 | the closure's value for one entry: the recursive size when metadata says directory, `file_size()` otherwise, 0 when metadata fails; see `DirSizeIsSum` |
| `FileSystem.Flatten` | src/main.rs:43 | `read_dir(..).flatten()` in `fetch_entries`, and equally `entries.flatten()` at line 70 of src/main.rs in `parallel_dir_size`: the entries the iterator yields successfully, in order; see `EntryCollector.FetchEntriesSpec` and `SizeEngine.DirSizeIsSum` |
| `SizeEngine.DirSizeIsSum` | src/main.rs:64-81 | an unreadable directory has size 0; a readable one has the sum, over the entries the iterator yields successfully, of the recursive size (metadata says directory), the metadata `file_size()` (metadata says anything else) or 0 (metadata fails); failed iterator items add nothing |
| `SizeEngine.Leaves` | src/main.rs:64-81 | the entries the recursion sizes by their metadata, at any depth; none of them is an entry whose `metadata()` says directory |
| `SizeEngine.DirSizeIsLeafSum` | src/main.rs:64-81 | a directory's size is the sum of the metadata sizes of every entry reachable from it through entries whose `metadata()` says directory, other than those directories themselves; unreadable directories and failed items add nothing |
| `SizeEngine.DirSizeOrderFree` | src/main.rs:69-81 | the size does not depend on the order in which the directory's items are listed, which justifies the sequential fold for rayon's parallel `sum` |
| `SizeEngine.DirSizeAppend` | src/main.rs:69-81 | the size of a listing split in two is the sum of the sizes of the two parts |
| `SizeEngine.EntryAtMostDirSize` | src/main.rs:73-80 | a sub-directory's recursive size, or a non-directory's metadata size, is never more than the size of the directory that lists it |
| `Folds.SumOfPermutation` | src/main.rs:72-81 | a sum over a permutation of a sequence equals the sum over the sequence |
| `Folds.FlatMapPermutation` | src/main.rs:46-61 | mapping and flattening a permutation gives a permutation of the result |
| `EntryCollector.FetchEntries` | src/main.rs:41-61 | `fetch_entries` of the working directory; its contract is stated by `FetchEntriesSpec`, `FetchEntriesAppend` and `FetchEntriesOrderFree` |
| `EntryCollector.CollectEntry` | src/main.rs:47-60 | the closure that builds one `Entry` from a directory entry; see `FetchEntriesSpec` |
| `EntryCollector.FetchEntriesSpec` | src/main.rs:41-61 | an unreadable root gives no entries; otherwise there is one entry per item that is not an iteration error, in order; an entry is a directory exactly when `file_type()` says so; a directory is sized by the recursive size, anything else by its metadata size or 0; an undecodable name becomes "" |
| `EntryCollector.FetchEntriesAppend` | src/main.rs:46-61 | the entries keep the order of the listing: a concatenated listing gives the concatenated entries |
| `EntryCollector.FetchEntriesOrderFree` | src/main.rs:46-61 | listing the children in another order gives the same multiset of entries |
| `SizeUnits.HumanSize` | src/main.rs:118-127 | the loop stops with unit index at most 4 (TB); it is the unit `UnitOf` chooses; unit k > 0 means size ≥ 1024^k, and k < 4 means size < 1024^(k+1); the suffix is `UNITS[k]`, so the index is in bounds; `whole` is the integer part of size / 1024^k |
| `SizeUnits.UnitOfIsOnlyUnit` | src/main.rs:122-125 | the unit `UnitOf` picks satisfies both bounds, and no other unit index does |
| `SizeUnits.UnitOfMonotone` | src/main.rs:122-125 | a bigger size never gets a smaller unit |
| `SizeUnits.UnitOfSaturates` | src/main.rs:119-125 | a size of 1 TB or more (so 1024 TB and `u64::MAX` too) stays in TB |
| `TreeRender.RenderTree` | src/main.rs:84-115 | the two loops write exactly the lines of `Layout`, with `len() - 1` never taken of an empty group |
| `TreeRender.Dirs` | src/main.rs:85 | the directory group holds only directories and is no longer than the input |
| `TreeRender.Files` | src/main.rs:86 | the file group holds only non-directories and is no longer than the input |
| `TreeRender.PartitionSplits` | src/main.rs:85-86 | each group keeps the input order: filtering a concatenation filters each part |
| `TreeRender.PartitionKeepsAll` | src/main.rs:85-86 | the two groups together hold every entry exactly once (as multisets) |
| `TreeRender.Layout` | src/main.rs:84-112 | the lines `render_tree` writes, directory lines then file lines; its contract is stated by `LayoutLength`, `LayoutGroups`, `LayoutConnectors` and `LayoutClosesOnce`, and `RenderTree` is proved to write exactly these lines |
| `TreeRender.LayoutLength` | src/main.rs:84-112 | exactly one line per entry |
| `TreeRender.LayoutGroups` | src/main.rs:88-112 | a line has a directory connector exactly when it is one of the first lines, one per directory; those lines show the directories in input order, and the remaining lines show the files in input order |
| `TreeRender.LayoutConnectors` | src/main.rs:89-104 | a directory line is `└──` exactly when it is the last directory and there are no files, and `├──` otherwise; a file line is `└` exactly when it is the last file, and `├` otherwise |
| `TreeRender.LayoutClosesOnce` | src/main.rs:88-104 | a `└`-family connector is on the last line and on no other line |
| `Report.SortBySizeDesc` | src/main.rs:26 | the array ends up a permutation of its old contents, with sizes non-increasing |
| `Report.TotalSize` | src/main.rs:27 | the header total, the sum of the entries' sizes; see `TotalSizeOrderFree` and `TotalIsRootSize` |
| `Report.TotalSizeOrderFree` | src/main.rs:26-27 | the total computed after sorting equals the sum of the unsorted sizes |
| `Report.TotalIsRootSize` | src/main.rs:41-81 | the header total equals `parallel_dir_size` of the root when `file_type()` and `metadata()` agree about every child being a directory |
| `Report.Run` | src/main.rs:25-36 | the rendered entries are a permutation of the collected entries, sorted by size descending; the total is the sum of the collected sizes; the header unit is the unit of that total; the lines are the `Layout` of the sorted entries, one per entry |
| `Scenarios.EmptyDirectory` | src/main.rs:25-36 | an empty directory gives total 0 in B and no lines |
| `Scenarios.SingleFile` | src/main.rs:25-36 | a single 2048-byte file `a.txt` gives total 2048 in KB and the one line `└ a.txt` |
| `Scenarios.TwoFiles` | src/main.rs:25-36 | files of 3000 and 500 bytes give total 3500 in KB and lines `├ big`, `└ small` |
| `Scenarios.DirectoryThenFile` | src/main.rs:25-36 | a directory holding 1024 bytes and a 2048-byte file give total 3072 in KB and lines `├── d`, `└ f` |
| `Scenarios.DirectoriesOnly` | src/main.rs:25-36 | directories of 10 MiB and 0 bytes give total 10 MiB in MB and lines `├── x`, `└── y` |
| `Scenarios.UnreadableSubdirectory` | src/main.rs:25-36 | an unreadable sub-directory counts 0 and the 100-byte file beside it still counts: total 100 in B, lines `├── locked`, `└ ok` |

## Left out

- Filesystem calls (`fs::read_dir`, `DirEntry::file_name`, `file_type`, `metadata`, the Windows `MetadataExt::file_size`): they are replaced by the `FileSystem` datatypes. What the operating system answers cannot be verified here.
- Rayon parallelism (`into_par_iter`): it is modelled as a sequential fold. `DirSizeOrderFree` and `FetchEntriesOrderFree` show that the order does not matter.
- The one-decimal text of `human_size` (`format!("{:.1}{}", ..)`): this is float division and decimal rounding. For example, a value just under a unit boundary can print as `1024.0KB`.
- HumanSize: `whole` is the integer part of the exact quotient size / 1024^unit. The source divides a float. For sizes of 2^53 and more, `size as f64` can be rounded, and its integer part can differ. The unit index is exact for every size.
- The header's path display, ANSI colours, the `BufWriter` and stdout lock, `eprintln!` with `exit(1)` for an unreachable working directory, and the `mimalloc` allocator: these are I/O, presentation or runtime plumbing.
- RenderTree: write errors, which `?` would propagate, are not modelled. The writer is modelled as the sequence of lines it receives.
- SortBySizeDesc: `sort_unstable_by` leaves the order of equal sizes unspecified. The model's insertion sort fixes one such order. The contract states only what holds for every order.
- The `u64` overflow of `.sum()`: sizes and totals are unbounded naturals.
- The filesystem is modelled as a finite tree, so a directory cannot be reachable from itself. On a real filesystem where `metadata().is_dir()` led into a cycle, `parallel_dir_size` would recurse without bound (src/main.rs:75-76).
