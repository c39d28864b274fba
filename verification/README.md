# Models of the core of vifm

A model of five parts of a file manager that replace something simple by something in-place, incremental or concurrent,
with proofs that each of them still does the simple thing. Sources are C files of the repository, paths below are relative
to its root.

- **Trees stored in arrays** (`Forests`, `Edits`, `Links`, `Pruning`, `Lineages`, `Zapping`, `Folding`, `Siblings`,
  `Rebuilding`, `Loading`, `Showing`, `Sorting`, `Places`, `Uncompressing`, `Orders`, `Filtering`). A view keeps a forest
  of files as a pre-order array with distances to parents and numbers of descendants. `Flatten` is this encoding. Every
  operation is a method over an array (or over a list that grows) whose contract says which operation on the forest it
  performs. In the middle of an in-place compaction entries before the gap are in new coordinates, entries after it are in
  old ones; `Links.Holds` and `Zapping.Compacted` say what is true then. `Lineages` says what the operations on forests mean for
  paths of files, `Showing` tells which of existing files get loaded, and `Filtering` follows a tree from a listing of a
  directory through loading, sorting and filtering to what is displayed.
- **Comparison of panes** (`ContentIds`, `Differ`, `Panes`, `IdLists`, `Duplicates`, `ContentsOfLists`, `Alignment`,
  `SideBySide`, `Comparing`, `DiffFilter`). Ids of files are computed lazily through an index of fingerprints with linked
  lists of conflicts and agree with a linear search over sizes and contents. Lists are merged by ids, aligned by a table
  with two rows of costs, and one pane can be filtered afterwards with both staying aligned. `Comparing` puts these parts
  together.
- **Conditional commands** (`Scopes`, `Conditionals`, `Reports`). A flat stream of commands is run by a stack of frames
  and a counter of skipped statements; `Conditionals` gives the structured meaning of nested blocks and proves that they
  agree, and `Reports` says which errors are reported for statements that are not well-nested.
- **Background jobs** (`Jobs`, `Histories`, `Checks`). Threads take atomic steps, one for each region under a lock or for
  each access to data of a single thread. An inductive invariant holds over all interleavings, and facts about whole runs
  follow. `Histories` derives the state of a job from steps that have been made.
- **Viewers and key notation** (`Viewers`, `Notation`, `KeyTable`). Moves of viewers of a file rotate its viewers.
  Printing of key sequences is inverted by parsing, which uses a binary search by prefix.

Operations that change state step by step are methods with loops over arrays, fields or linked records. Each is tied to
a function on values, and properties are lemmas about that function. In `Scopes` the interpreter is a class whose methods
are tied to functions on its state. Jobs are modelled as a transition system, since what matters there is interleaving.

Assumptions that are parameters or preconditions:

- Filters, matchers, existence of programs, conditions of commands, contents of files and the hash function are arbitrary
  functions. In `Panes` and `Differ` files do not change during a comparison.
- Clients of jobs run on their own, while errors of a check are displayed and inside of exit callbacks, and can start
  jobs at any of these times. They use only jobs they have references to, jobs that have just been created, or the job
  whose callback is being run. `Jobs.Careful` additionally asks callbacks not to keep their own job when it is about to be
  removed, and `Jobs.KeptInCallbackIsFreed` shows that this is needed.
- `Notation` takes the table as a parameter. `IsKeyTable` lists what is needed of it: it is sorted, notations are in lower
  case and contain ">" only as their last character, keys are not longer than notations, and notations of ASCII keys are
  there. `KeyTable` shows that sorting makes such a table and that notations of the source meet the requirements. The
  table is that of a build with extended keys.
- Paths of files are sequences of components: a listing of a directory has files that are right inside of it, all
  different (`Filtering.IsListingOf`).

What the code does not do although one could expect it to:

- Links to parents are wrong after loading of a tree that has ".." entries of empty directories (`Loading.LoadedIsExact`,
  `Loading.EmptyDirIsNotExact`). Sorting computes links anew (`Sorting.SortTreeSlice`), so this can be noticed only while
  the view has no sorting keys.
- Comparison by contents does not mean equality of contents for symbolic links. Size of an entry is that of the link
  itself (src/filelist.c:940 and src/filelist.c:957), while reading follows the link (src/compare.c:1107 and
  src/compare.c:980). The exact condition is `Panes.IdsMeanContentsIff`, and `Panes.LinkHasOtherId` is about such a link.
- The counter of skipped statements can be above zero at the end of a scope (`Conditionals.CounterIsLeft`), and
  `Conditionals.CounterIsZeroIff` tells which scripts always leave it at zero.
- The loop that leaves only duplicates does not terminate on some lists (`Duplicates.FinishesIff`); lists that a comparison
  makes are not among them.
- A job can be freed although its callback has just taken a reference (`Jobs.KeptInCallbackIsFreed`).
- The assertion in src/background.c:279 can fail. A check displays errors of jobs by a nested event loop
  (src/modes/dialogs/msg_dialog.c:434) followed by a redraw (src/modes/dialogs/msg_dialog.c:351), and drawing of a preview
  can start a job (src/vcache.c:740). The end of the check drops that job from the list and nothing frees it afterwards:
  `Jobs.ForgottenIsReachable` is such a run, `Jobs.JobsAreSafe` tells exactly which jobs are lost.

Where the code and its comments disagree the code is followed. `split_assoc()` returns records before the index as the
prefix although its comment describes a different split. `add_file_to_diff()` checks the fingerprint of the wrong file
when the other file can not be opened; files that fail to be opened are not a part of this model, so this does not matter
here.

## Model

| member | source | states |
|---|---|---|
| Forests.FlattenIsValid | src/ui/ui.h:253-256 | Relative parent links and descendant counts are a lossless encoding: the recognizer accepts the array of any forest and decoding it gives that forest back. |
| Forests.FlattenIsInjective | src/ui/ui.h:253-256 | Two forests with the same links and counts are the same forest, so a statement that two arrays are equal says everything about both trees. |
| Forests.FlattenLinkedAt | src/ui/ui.h:253-256 | In the array of a forest the link of every entry leads to the entry whose contents it is in, or is zero at the top level, and no tree sticks out of the array. |
| Edits.FlattenReplace | src/filelist.c:3045-3063 | Replacing one tree of a forest by other trees changes, entry by entry, only counts of its ancestors and links of their later children; everything else is shifted. |
| Links.FixSiblings | src/filelist.c:2253-2262 | The walk over later siblings of one level corrects exactly links of roots of that level, although the removed entries it starts on are no longer a part of the list. |
| Links.FixLevel | src/filelist.c:2251-2265 | A step to the parent leaves its whole contents corrected, together with its count. |
| Links.FixTreeLinks | src/filelist.c:2241-2266 | After the call, counts of all ancestors and links of all their later children account for the correction, with entries before the gap in new coordinates and entries after it in old ones. |
| Zapping.ReassignChildren | src/filelist.c:2166-2182 | Exactly immediate children of the rejected entry are moved to its parent; deeper descendants and the rest of the array are untouched. |
| Zapping.AddLeaf | src/filelist.c:2186-2210 | Putting a ".." entry in place of the last removed child keeps the list exact even when that overwrites the entry which is still used to walk over the removed subtree. |
| Zapping.Drop | src/filelist.c:2160-2214 | An iteration that rejects an entry turns a half-compacted array of a forest into a half-compacted array of the forest without that entry. |
| Zapping.Compact | src/filelist.c:2147-2226 | The whole loop turns the array of a forest into the array of the pruned (or spliced) forest: all links and counts are exact in the end. |
| Zapping.FileList.ZapEntries | src/filelist.c:2138-2234 | The list becomes the pruned forest with subtree removal or the spliced forest without it, or just the parent directory when nothing is left and that is not allowed; the result is how many entries have gone. Unless ".." entries are added, this is also said in terms of files and their directories. |
| Zapping.FileList.AddParentDir | src/filelist.c:2631-2634 | An empty list becomes a list of a single entry. |
| Lineages.PruneKeepsLines | src/filelist.c:2137-2142 | Pruning in terms of paths, ".." entries set aside: files that remain are exactly those that are not rejected and are not in a rejected directory, in the same order and in the same directories. |
| Lineages.PruneKeepsExactLines | src/filelist.c:2137-2142 | There is nothing to set aside when ".." entries of empty directories are disabled. |
| Lineages.LeafsAppear | src/filelist.c:2186-2210 | A ".." entry appears in exactly those remaining directories which had something in them and have lost all of it. |
| Lineages.SpliceKeepsLines | src/filelist.c:2166-2182 | Splicing in terms of paths: all files that are not rejected remain in the same order, and each of them is in exactly those of its directories that remain. |
| Folding.RemoveChildEntries | src/filelist.c:3045-3063 | The node loses all of its children and nothing else changes in the forest, counts of all ancestors and links of later siblings are exact. |
| Folding.ReApplyFolds | src/filelist.c:1916-1950 | Walking over a shrinking array empties directories, outermost first: exactly files which are not inside of a directory that is folded or has to be folded remain, in the same order and directories, and a directory that has to be folded is marked. |
| Folding.FoldAllLines | src/filelist.c:1916-1950 | In terms of paths: a file remains if and only if none of the directories above it is marked as folded or has to be folded, and a remaining entry is marked exactly when it was or when it is a directory that has to be folded. |
| Folding.FoldAllTwice | src/filelist.c:1916-1950 | Folds can be applied any number of times with the same result. |
| Siblings.FirstSibling | src/flist_pos.c:652-656 | The result has the same parent as the cursor and nothing before it does. |
| Siblings.LastSibling | src/flist_pos.c:659-683 | The result has the same parent as the cursor and nothing after it does; the walk stays inside of the array. |
| Siblings.NextDirSibling | src/flist_pos.c:686-707 | The result is the nearest following directory with the same parent, or the cursor exactly when there are none. |
| Siblings.PrevDirSibling | src/flist_pos.c:710-738 | The result is the nearest preceding directory with the same parent, or the cursor exactly when there are none. |
| Siblings.ValidIsNested | src/flist_pos.c:659-738 | Any array accepted by the tree recognizer meets what the sibling functions need. |
| Rebuilding.CountDescendant | src/filtering.c:658-668 | The new entry is counted by each of its ancestors once and by nothing else. |
| Rebuilding.ReparentTreeNode | src/filtering.c:639-669 | A copied entry gets attached to the closest ancestor that has been copied, and links and counts of the growing list stay exact. |
| Rebuilding.DropTemporaries | src/filtering.c:362-398 | The rebuild by tags makes the same list as in-place removal without subtrees: the forest in which temporary files are replaced by their children. |
| Rebuilding.CopyMatching | src/filtering.c:560-608 | The loop copies the spliced forest, treating ".." of the whole list and ".." of empty directories differently. |
| Rebuilding.UpdateFilteringLists | src/filtering.c:550-704 | The list becomes the spliced forest of files that match the local filter, or a single parent directory if nothing matches, which is also added to the unfiltered list unless it was there; also returns how many files are hidden and whether all are. A cleared filter brings the whole list back, a filter that is not empty leaves no ".." entries of directories. |
| Rebuilding.ClearedKeepsAll | src/filtering.c:560-608 | Without a local filter nothing is removed, ".." entries of empty directories included, except for ".." of the whole list when it is not to be visible. |
| Rebuilding.FilteredHasOnlyTop | src/filtering.c:563-584 | Under a local filter the only ".." entry that can be displayed is that of the whole list. |
| Loading.CustomList.AddDirectoryLeaf | src/filelist.c:4475-4513 | The link of the new ".." entry leads one entry past its parent; for a directory that has just been added, where the exact link would be 1, it is 0 as if the entry were at the top level. A local filter disables such entries. |
| Loading.CustomList.AddFilesRecursively | src/filelist.c:4282-4417 | Traversal appends the array of the visible tree, contents of locally filtered directories being attached to the closest visible ancestor, and returns how many files are hidden. |
| Loading.CustomList.AddItems | src/filelist.c:4302-4395 | The loop over a directory appends the array of what is visible in it. |
| Loading.RawIsExact | src/filelist.c:4475-4513 | Links of a loaded tree are exact if and only if there are no ".." entries below the top level. |
| Loading.LoadedHasLeaf | src/filelist.c:4397-4417 | Such entries appear if and only if they are enabled, there is no local filter and some visible directory has nothing to show. |
| Loading.LoadedIsExact | src/filelist.c:4282-4417 | Loading leaves wrong links if and only if ".." entries are enabled, there is no local filter and some visible directory has nothing to show. |
| Loading.EmptyDirIsNotExact | src/filelist.c:4397-4417 | An example: the listing of one empty directory is loaded with link 0 where 1 is right. |
| Loading.FilterWhileLoading | src/filelist.c:4282-4417 | Loading under a local filter gives the same tree as splicing the tree that is loaded without the filter. |
| Loading.HiddenAreCounted | src/filelist.c:4282-4417 | For every listing, files that a local filter hides are exactly those it adds to the returned number. |
| Showing.LoadedIsPruned | src/filelist.c:4282-4417 | Skipping files during traversal gives the tree that is left of all existing files after removing excluded and invisible ones along with everything inside of them. |
| Showing.LoadedLines | src/filelist.c:4282-4417 | For any listing and configuration: the tree has exactly those existing files that are visible and not excluded along with all of their directories, each in its directories and in the order of the listing; under a local filter, those of them that match in those of their directories that do; ".." entries are the only addition. |
| Showing.FilteredAreHidden | src/filelist.c:4302-4330 | Without a local filter the returned number is that of invisible files right inside of directories that are shown, excluded files do not count. |
| Sorting.SortTreeSlice | src/sort.c:215-247 | For any array with right counts, whatever its links are, and for any order of files, the result is the exact array of the tree in which every level is put in that order. |
| Sorting.CopyHeads | src/sort.c:218-229 | Skipping trees by their counts finds exactly roots of the level, each is copied along with the place of its tree. |
| Sorting.PlaceTree | src/sort.c:236-246 | Going from the end of the level, a root moves to the place of its tree without overwriting roots that are still to be moved. |
| Sorting.SortedKeepsLines | src/sort.c:215-247 | Sorting neither loses files nor moves them to other directories. |
| Sorting.SortedInOrder | src/sort.c:215-247 | A tree each of whose levels is already in order does not change. |
| Sorting.SortedIsOrdered | src/sort.c:215-247 | For any relation by which levels are put in order, on every level of the result each file precedes those that follow it. |
| Sorting.SpliceSorted | src/sort.c:160-185 | Removing files from a sorted tree leaves the same files in the same directories as removing them from the original one. |
| Filtering.LoadTree | src/filelist.c:4060-4110 | Without a local filter: loading followed by sorting makes the exact array of the sorted tree of visible files, so wrong links that loading leaves are never seen by other operations on a sorted view. |
| Places.SameFilesSameLines | src/filelist.c:1436-1482 | Trees that follow the file system and have the same files left in them show these files in the same of these directories, wherever the trees start and whatever else has been removed. |
| Uncompressing.PutKeepsPlaces | src/utils/fsdata.c:203-276 | Although the search among names stops at the first larger one, no directory gets two nodes. |
| Uncompressing.PutAddsFile | src/utils/fsdata.c:203-276 | Putting a path adds exactly one file that is not temporary, and replaces a temporary directory with the real one. |
| Uncompressing.CompleteTree | src/filelist.c:4160-4243 | The traversal, during which each new entry is counted by all of its ancestors, makes the exact array of the tree of paths. |
| Uncompressing.UncompressTree | src/filelist.c:1436-1482 | All directories on the way from the root to listed files are in the list as temporary ones, other files are the same as before, and the list is exact. |
| Uncompressing.UncompressedHasSameLines | src/filelist.c:1436-1482 | Removing temporary directories gives back the same files in the same directories. |
| Uncompressing.SortUnderFilter | src/sort.c:170-209 | Sorting under a local filter makes the exact array of what is left of the sorted tree of paths without temporary directories: no file is lost and each is in the same directories as before. |
| Filtering.DisplayedIsExact | src/filelist.c:4397-4417 | Links of a tree that is loaded under a local filter are exact before sorting. |
| Filtering.LoadFilteredTree | src/filelist.c:4060-4110 | Under a local filter: loading, uncompressing, sorting and compressing display exactly visible files that match, each in those of its directories that do, and files of the same directory come in the order of sorting even when that directory is not displayed. |
| Orders.OrderedAreInOrder | src/sort.c:215-247 | In a tree that has each directory once and is in order on every level, any two files of the same directory come in order in the array. |
| Orders.DisplayedInOrder | src/sort.c:177-209 | The same for what is left of the sorted tree of paths after removal of temporary directories, wherever ".." ends up. |
| Filtering.LoadAndFilter | src/filtering.c:550-633 | From loading to display: a local filter that is applied to a loaded and sorted tree shows the same files in the same directories as loading with that filter, in exactly the same order if sorting keeps it; the number of hidden files differs only by entries which are not files. |
| SideBySide.FillCell | src/compare.c:426-452 | A cell of the table gets the optimal cost of its sub-problem and a direction which is consistent with it. |
| SideBySide.FillPaths | src/compare.c:418-454 | Although only two rows of costs are kept, every cell of the table of directions is a right step of an optimal path. |
| Alignment.DistanceIsLeast | src/compare.c:409-478 | No order-preserving way of pairing entries of equal ids has fewer one-sided rows than the cost computed by the recurrence. |
| Comparing.AlignedAreSame | src/compare.c:409-478 | Files that an alignment puts in one row have the same size and contents. |
| Alignment.RowsHaveFiles | src/compare.c:409-478 | Every row of an alignment of lists of files has a file. |
| SideBySide.DiffViews.PutSideBySidePair | src/compare.c:482-540 | Entries of equal ids count as identical, other pairs as different and a missing entry makes the other one unique to its side; exactly one counter grows, and the row is added to both panes, with a separator in place of a missing file, if and only if its kind is shown. |
| SideBySide.DiffViews.FillSideBySideByIds | src/compare.c:409-478 | The panes are filled with an alignment that has every entry of both lists once and in order, pairs only equal ids and has the fewest one-sided rows of all such alignments. Each pair counts as identical, nothing as different, and numbers of unique files follow; the panes show exactly rows of the kinds that are asked for, files of each list in its pane, and are in the state that filtering of panes needs. |
| Alignment.ShownRowsAreInSync | src/compare.c:482-540 | For rows each of which has a file, and for any set of shown kinds, both panes have the same number of rows, ids of each row agree and no row is fake on both sides. |
| Alignment.AlignedPanesAreInSync | src/compare.c:482-540 | Whatever kinds of rows of an alignment are shown, both panes have the same number of rows, ids of each row agree, no row is fake on both sides and nothing is marked for removal. |
| Alignment.EntriesAreCounted | src/compare.c:482-540 | Statistics are conserved: twice the pairs plus one-sided rows is the total number of entries, and the same for one pane. |
| Alignment.RowsAreCounted | src/compare.c:482-520 | If ids of pairs are equal, then all pairs are identical and none is different, and numbers of unique files are lengths of the lists less the number of pairs. |
| Alignment.PanesHaveFiles | src/compare.c:482-540 | Files of each pane are those which rows have from its list, in order. |
| Alignment.PairsAreOnLines | src/compare.c:482-540 | If pairs are shown, two files of every pair are on the same line of the panes, otherwise no line has two files. |
| Alignment.NoneIsApart | src/compare.c:165-176 | On lists that are sorted by ids no alignment with the fewest one-sided rows leaves entries of the same id in one-sided rows of both sides. |
| Alignment.PairsAreMost | src/compare.c:409-478 | Hence for each id the number of its pairs is the smaller one of numbers of its entries in the two lists. |
| DiffFilter.FindSeparator | src/filelist.c:2030-2050 | The result is the closest separator of the same id, first behind and then ahead, or -1 exactly when neither direction has one within the run of equal ids. |
| DiffFilter.ZapCompareView | src/filelist.c:1984-2025 | For panes of the same length one pane loses exactly rejected files and keeps their order, the other one loses none, and lengths agree once marked entries are gone; rows which agreed on ids still do, even when separators before or after the removed row are consumed. |
| DiffFilter.ExcludeTemporaryEntries | src/filelist.c:1343-1354 | Exactly entries that are not marked remain, in the same order. |
| DiffFilter.FilterInCompare | src/filelist.c:1953-1969 | For panes of the same length filtering of one pane by any predicate keeps lengths equal and leaves no marks; if ids of rows agreed and no row was fake on both sides (as they are for panes grouped by ids), this is still so. It fails exactly when nothing is left. |
| ContentIds.KeysAreDistinct | src/compare.c:948-996 | Lazy and full fingerprints are never equal, and equal ones come from files of the same size, whatever the hash function is. |
| ContentIds.UnknownSizeIsNew | src/compare.c:1009-1024 | If nothing is stored for the size of a file, then no known file is the same, and storing it by its size keeps the index right. |
| ContentIds.UpgradeAgrees | src/compare.c:1041-1064 | Storing a size-only file by its full fingerprint as well keeps the index right. |
| ContentIds.FoundIsSame | src/compare.c:1070-1082 | A file with identical contents found among those of the same full fingerprint is the one with the right id. |
| ContentIds.NoneIsUnlike | src/compare.c:1066-1082 | If no such file is found, then no known file has the same contents, even though it could have been stored only by its size. |
| ContentIds.FirstIsDifferent | src/compare.c:1066-1082 | A failed lookup leaves the record found by size in place; comparing with it does no harm because its contents always differ then. |
| ContentIds.AddingAgrees | src/compare.c:1092-1097 | Storing of a new file by its full fingerprint keeps the index right. |
| Differ.GetContentsFingerprint | src/compare.c:972-997 | The fingerprint consists of the size and of the digest of the first 4096 bytes, unreadable kinds of files count as empty. |
| Differ.FilesAreIdentical | src/compare.c:1113-1169 | Block by block comparison holds if and only if the contents are equal, unreadable kinds of files count as empty. |
| Differ.Comparison.PutFileId | src/compare.c:1183-1218 | The record becomes the second one in the list of its fingerprint or starts a new list, other lists are intact. |
| Differ.Comparison.Insert | src/compare.c:1205-1210 | Linking a record after the head of a list inserts its data there and affects no other list. |
| Differ.Comparison.Upgrade | src/compare.c:1041-1064 | The file known by its size gets its full fingerprint stored, its record is not partial anymore. |
| Differ.Comparison.FindIdentical | src/compare.c:1070-1082 | The walk over a list of conflicts finds a file with identical contents if and only if there is one. |
| Differ.Comparison.Lookup | src/compare.c:1066-1082 | The lookup by contents finds the id of a file with the same contents exactly when such a file has been met. |
| Differ.Comparison.AddFileToDiff | src/compare.c:1002-1098 | The lazily computed id equals the one of a linear search over all files met before: an existing id, the next one, or -1 for inaccessible files and for unmatched ones when only duplicates are of interest. |
| Panes.MakeDiffList | src/compare.c:725-792 | Skips empty files on request and files without an id, tags the rest with their positions; ids are those of the linear search. |
| Panes.ItemsAreOfReps | src/compare.c:725-792 | Each id stands for contents of one file, different ids for different contents. |
| Panes.NewIdsAreListed | src/compare.c:1094-1097 | Every id that is handed out belongs to a listed file. |
| Panes.ListIsExact | src/compare.c:725-792 | Which files are listed depends only on their accessibility, on being empty and, for duplicates, on having a match in the other pane. |
| Panes.AssignIds | src/compare.c:148-153 | For any hash function and any order of files, two files of either pane have the same id if and only if their sizes are equal and so is their data, unreadable files having none; ids are positive; with duplicates only, every id of the second pane occurs in the first one. |
| Panes.IdsMeanContentsIff | src/compare.c:148-153 | Ids tell contents apart if and only if files with equal contents have equal recorded sizes, and nothing else is needed. |
| Panes.ExactSizesAgree | src/compare.c:968-997 | This is so when the recorded size of each file is the number of bytes that are read from it. |
| Panes.LinkHasOtherId | src/filelist.c:936-957 | Symbolic links break it: the recorded size is that of the link itself while contents are those of its target, so a link and a file with the same bytes get different ids. |
| IdLists.MakeUniqueLists | src/compare.c:243-300 | On sorted lists each pane keeps exactly files whose id is absent from the other one, and exactly the rest of files are freed. |
| IdLists.SelectSplits | src/compare.c:243-290 | What is kept and what is freed make up the original list, so each entry is either kept or freed exactly once. |
| ContentsOfLists.SelectedByContents | src/compare.c:243-290 | What the loop over sorted lists keeps in a pane are exactly files without a match (or with a match) in the other pane. |
| ContentsOfLists.SortedIdsAreRight | src/compare.c:148-182 | Sorting of lists by ids in between changes nothing about this. |
| IdLists.GroupOnePane | src/compare.c:638-667 | Keeps exactly files whose id occurs at least twice (or exactly once) and numbers groups of duplicates in order; the rest is freed. |
| ContentsOfLists.RepeatedByContents | src/compare.c:638-667 | Duplicates within one pane are files for which there is another one with the same size and contents. |
| IdLists.RanksAreRight | src/compare.c:306-340 | Numbering of ids keeps equality and order and uses all numbers from one on. |
| Duplicates.LeaveOnlyDups | src/compare.c:305-354 | In both lists files whose id occurs in the second one get consecutive numbers of these ids, other files get -1. |
| Duplicates.DupsAreLeft | src/compare.c:353-368 | After removal of marked files exactly those whose id occurs in both lists remain, in the same order and consistently renumbered. |
| ContentsOfLists.DupsByContents | src/compare.c:305-368 | In each pane exactly files that have a match in the other pane are left. |
| Comparing.DupsAreDisplayed | src/compare.c:305-368 | After renumbering and removal each pane has exactly files with a twin in the other one, once each, and the new ids still tell contents. |
| Comparing.CompareTwoPanes | src/compare.c:130-232 | From files to panes: unique files are those without a twin of equal size and contents in the other pane, duplicates are those with one, every such file is there once. The rows pair only twins, are the fewest possible, and no two twins are left on their own on different sides; all pairs count as identical, and the panes show what is asked for and are in sync. |
| Comparing.AlignedAreTogether | src/compare.c:165-190 | If one-sided rows are the fewest possible and lists are sorted by ids, then a file is on its own only when all files with the same contents on the other side are in pairs. |
| Comparing.CompareOnePane | src/compare.c:603-705 | From files to the pane: duplicates are files with another twin in the same pane, the rest are without, each file is either shown or freed; files come in the order of ids, so duplicates of each file are next to each other. |
| Duplicates.FinishesIff | src/compare.c:317-346 | The loop terminates if and only if every id of the second list, except for -1, occurs in the first one. |
| Duplicates.StaysBefore | src/compare.c:317-346 | After any number of iterations the loop is still at or before an id which only the second list has. |
| Duplicates.ComparedListsFinish | src/compare.c:148-182 | Sorted lists produced by a comparison that looks only for duplicates always let the loop terminate. |
| Scopes.Interpreter.CmdShouldBeProcessed | src/cmd_core.c:663-702 | Updates the counter of skipped statements and decides on the command exactly as the state function does; its consequences are the results of Conditionals. |
| Scopes.Interpreter.CmdsScopeEscape | src/cmd_core.c:1260-1266 | Removes frames of the current scope and nothing below its guard. |
| Scopes.Interpreter.CmdsScopeFinish | src/cmd_core.c:1269-1280 | Removes the guard; frames that are left above it are reported as a missing :endif and removed with it. |
| Scopes.Interpreter.CmdsScopedError | src/cmd_core.c:1283-1300 | A failed condition makes the rest of the statement be skipped. |
| Scopes.Interpreter.CmdsScopedIf | src/cmd_core.c:1320-1329 | Pushes a frame for the statement and one for its branch when it is to be executed. |
| Scopes.Interpreter.CmdsScopedElseIf | src/cmd_core.c:1332-1360 | Moves on to the next branch, or reports a misplaced command. |
| Scopes.Interpreter.CmdsScopedElse | src/cmd_core.c:1363-1390 | Moves on to the last branch, or reports a misplaced command. |
| Scopes.Interpreter.CmdsScopedEndIf | src/cmd_core.c:1393-1407 | Removes frames of the statement, or reports a misplaced command. |
| Scopes.Interpreter.EvalIfCondition | src/cmd_handlers.c:3446-3452 | A condition is evaluated only if its value can matter. |
| Scopes.Interpreter.Handle | src/cmd_handlers.c:2369-2419 | Handlers of commands act on the state as one step of the interpreter. |
| Scopes.Interpreter.SourceScript | src/cfg/config.c:778-846 | Commands of a script are run in a scope of their own, up to the end or to :finish. |
| Reports.OpenIfIsReported | src/cmd_core.c:1269-1280 | A script that ends inside of a statement has the effect of what it has executed followed by the report of a missing :endif, whatever the condition turns out to be; there is no report only if the script is ended by :finish. |
| Reports.LoneIsReported | src/cmd_core.c:1332-1407 | :elseif, :else and :endif outside of a statement are reported as misplaced and change nothing else; condition of :elseif is evaluated. |
| Reports.SecondElseIsReported | src/cmd_core.c:1332-1407 | A statement with one more :else or :elseif after :else has exactly the effect of the statement without that branch plus the report, for any outcome of its condition. |
| Conditionals.SkipBlock | src/cmd_core.c:663-702 | A block that is not executed changes nothing: not the frames, not the log, and the counter returns to its value. |
| Conditionals.RunBlock | src/cmd_core.c:1254-1431 | Running the flat stream of commands of any well-nested block executes exactly what structured semantics selects and restores the frames and the counter. |
| Conditionals.RunBranches | src/cmd_core.c:1332-1407 | While nothing has matched, exactly conditions up to the first true one are evaluated, and a failed one means that no remaining branch runs. |
| Conditionals.RunTaken | src/cmd_core.c:1332-1407 | After a match no condition is evaluated and no other branch runs. |
| Conditionals.SourceBlock | src/cmd_core.c:300-312 | A well-nested script run in its own scope has exactly its structured effect and leaves the stack and the counter as they were. |
| Conditionals.ScriptIsIsolated | src/cmd_core.c:1254-1280 | Whatever a script is, malformed ones included, it does not affect frames of scopes around it. |
| Conditionals.CounterOfScript | src/cmd_core.c:663-702 | Scripts that leave at most one statement open, sourced ones included, leave the counter at zero in any world. |
| Conditionals.FailingRun | src/cmd_core.c:663-702 | When every condition fails to evaluate, the counter ends at the number of open statements less one. |
| Conditionals.LeavesZeroIff | src/cmd_core.c:663-702 | A script leaves the counter at zero for all outcomes of conditions if and only if it leaves at most one statement open; a misplaced :elseif counts as an opening, because its failed condition starts a statement that is skipped. |
| Conditionals.CounterIsZeroIff | src/cmd_core.c:663-702 | The same for all scripts: the counter is zero at the end of the script and of every script it sources, in all worlds, if and only if none of them leaves more than one statement open. |
| Conditionals.LeftCounterIsReported | src/cmd_core.c:1269-1280 | If a script whose sourced scripts are fine leaves the counter above zero, a missing :endif is the last thing that is reported. |
| Conditionals.CounterIsLeft | src/cmd_core.c:663-667 | Examples: two open :if commands leave the counter above zero for some outcomes, so does a misplaced :elseif followed by :if, while one open :if never does. |
| Jobs.NextKeepsInv | src/background.c:191-285 | Every step of every thread keeps the invariant: counts, flags and membership in lists agree for each job, also while errors of a check are displayed and clients go on using and starting jobs. What the steps do to fields of a job is determined by Histories. |
| Jobs.EndingKeepsInv | src/background.c:276-281 | The end of a check overwrites the list, which loses jobs that were started meanwhile and nothing else. |
| Jobs.DropKeepsInv | src/background.c:556-576 | The error thread drops a drained job together with its count and flag. |
| Jobs.ImportKeepsInv | src/background.c:580-616 | Jobs taken from the shared list stay accounted for until they are in the list of the error thread. |
| Jobs.RemovingKeepsInv | src/background.c:251-268 | A job that is unlinked and freed was linked once, is finished and unreferenced. |
| Jobs.AccessedAreLive | src/background.c:191-285 | No step of any thread reads or writes a freed job, so none is freed twice. |
| Jobs.LinkedExist | src/background.c:450-616 | Whatever a list or a thread refers to has not been freed, hence no thread gets stuck. |
| Jobs.RunKeepsInv | src/background.c:191-285 | The invariant holds after any interleaving of steps of all threads, with clients running on their own, inside of callbacks and while errors are displayed. |
| Jobs.JobsAreSafe | src/background.c:1891-1910 | After any run, the count of a job is its references plus one if the error thread still has it, the flag is set exactly in that case, and a live job is outside of the main list if and only if it was started during a check that has ended since then; a job is at most once in each list. |
| Jobs.LostAreForgotten | src/background.c:276-281 | Jobs that the list has lost are exactly those that were started during a check which has ended. |
| Jobs.ForgottenIsNotFreed | src/background.c:191-285 | Such a job stays in memory in every longer run: nothing frees it. |
| Jobs.ForgottenIsReachable | src/background.c:304-329 | Such jobs exist: a run in which a command is started while errors of another one are displayed ends with that command finished, unused and in none of the lists. |
| Jobs.JobsStayListed | src/background.c:191-285 | If jobs are started only between checks, then a job is in the main list exactly until it is freed. |
| Jobs.HistoryIsRecorded | src/background.c:305-329 | Fields of a job are sums over the whole run: text, references, callbacks and frees. |
| Histories.StateIsRecorded | src/background.c:1448-1612 | After any run a job is running if and only if its thread has neither ended nor failed to start, no client has marked it as finished and no check has found its process to have exited; it has a thread from its start until its end; it is handled by the error thread until its stream has been read to the end and that was noticed. |
| Histories.OutputIsRecorded | src/background.c:213-249 | Text that has been shown is what had been written by the time it was last taken, and the function to call on exit is the last one that was set unless a call of one has returned since then. |
| Histories.UsesAreRecorded | src/background.c:1891-1910 | The count of uses is the number of references that were taken and not dropped, plus one until the error thread is done with the job. |
| Histories.FreedHasEnded | src/background.c:234-268 | A job is freed only after it has ended, all references to it were dropped and the error thread was done with it. |
| Histories.CalledHasEnded | src/background.c:234-249 | Callbacks are called only for jobs that have ended and have not been freed. |
| Jobs.TextIsKept | src/background.c:687-695 | At any moment, text taken for display followed by pending text is everything that has been written by or about the job. |
| Jobs.CallbacksAreCalled | src/background.c:244-249 | Each function set as exit callback is called at most once, and by the time the job is freed all of those that were not replaced or cleared have been called. |
| Jobs.CalledAfterExit | src/background.c:238-249 | Callbacks are called only for jobs that are not running and are not freed. |
| Jobs.FreedOnce | src/background.c:251-268 | A job is freed at most once, only after it has finished and all references have been dropped. |
| Jobs.KeptInCallbackIsFreed | src/background.c:226-268 | The decision to free is made before the callback: a reference taken inside of the callback of a job that is about to be removed does not prevent its removal. |
| Jobs.CarelessIsReachable | src/background.c:226-268 | Such a callback is possible: some run leads to a state in which the callback can take the reference. |
| Checks.CheckIsExact | src/background.c:209-279 | A check without interruptions frees exactly finished unused jobs, calls callbacks of finished ones once and keeps the order of the rest. |
| Checks.CheckFreesUnused | src/background.c:191-285 | The same after any run, forgotten jobs being left alone. |
| Checks.UnusedIsFreed | src/background.c:191-285 | Whatever all threads do in the meantime, a check frees each of its jobs that was finished and unused when it began. |
| Checks.DoneIsFreed | src/background.c:191-285 | From history alone: a job that has ended, whose references were dropped and which the error thread was done with, if it had an error stream, before a check began is freed by the end of that check, unless it had been forgotten by an earlier one. |
| Viewers.SplitAssoc | src/filetype.c:501-527 | The two parts have the pattern of the association and together exactly its records, the first part ends at the requested place. |
| Viewers.ViewerList.PickOutUntilFirst | src/filetype.c:445-496 | Finds the first suitable viewer in the order of use and separates associations before it. |
| Viewers.ViewerList.PickOutUntilLast | src/filetype.c:268-331 | Finds the last installed viewer in the order of use and separates associations before it. |
| Viewers.ViewerList.MakePivotFirst | src/filetype.c:337-370 | The new list consists of non-matching predecessors, the pivot with the rest of the list and matching predecessors. |
| Viewers.ViewerList.MakePivotLast | src/filetype.c:397-438 | The same with the pivot being the last one. |
| Viewers.PivotedIsRotated | src/filetype.c:337-438 | The flattened sequence of viewers of the file is rotated around the pivot. |
| Viewers.PivotedKeepsOthers | src/filetype.c:243-438 | Associations that do not match the file keep their relative order. |
| Viewers.PivotedKeepsRecords | src/filetype.c:337-438 | For every other file the multiset of its viewers is the same, whatever association is split. |
| Viewers.NewIndexIsRight | src/filetype.c:337-438 | Where each association ends up. |
| Viewers.NoneIsOvertaken | src/filetype.c:243-438 | In terms of places: an association that does not participate in the move is never overtaken by one that was after it. |
| Viewers.MovedKeepsPriorities | src/filetype.c:243-438 | After any of the moves each association, and each part of the one that is split, has a place in the new list such that those which do not participate stay before everything they were before of, the second part of the split one included. |
| Viewers.MovedIsRotated | src/filetype.c:337-438 | Any of the moves rotates the flattened sequence of viewers of the file. |
| Viewers.LastIs | src/filetype.c:268-331 | The place the list is rotated to is that of a suitable record without suitable ones after it. |
| Viewers.RotatedPastFirst | src/filetype.c:373-391 | Rotating past the first installed viewer rotates installed viewers left by one. |
| Viewers.RotatedToLast | src/filetype.c:244-262 | Rotating to the last installed viewer rotates installed viewers right by one. |
| Viewers.ViewerList.MoveToTop | src/filetype.c:222-241 | The first record of the file with the command becomes the first one, everything before it is moved to the end, and nothing changes without such a record; the rest of the list is as in any move. |
| Viewers.ViewerList.CycleNext | src/filetype.c:373-391 | All viewers of the file are rotated so that the first of them whose program exists becomes the last one, which rotates installed ones left by one; the rest of the list is as in any move. |
| Viewers.ViewerList.CyclePrev | src/filetype.c:244-262 | All viewers of the file are rotated so that the last of them whose program exists becomes the first one, which rotates installed ones right by one; the rest of the list is as in any move. |
| Viewers.ViewerList.CycleNextAndPrev | src/filetype.c:244-391 | Cycling forward and back restores the order of installed viewers. |
| Notation.FindNotation | src/bracket_notation.c:742-767 | Binary search by prefix over a sorted table gives what a linear search does: an entry whose notation, with any of its letters in upper case, starts the text, and nothing exactly when there are no such entries. |
| Notation.SamePrefix | src/bracket_notation.c:742-767 | At most one notation starts a text, because of where ">" can be. |
| Notation.SubstituteSpecs | src/bracket_notation.c:682-713 | A notation written in whatever case is replaced with its key, a character that does not start one is kept, and the output fits a buffer of the size of the input. |
| Notation.WrittenIsParsed | src/bracket_notation.c:742-767 | If the table has a notation and a text differs from it only in letters being upper case, then the text followed by anything is parsed into the key followed by what the rest is parsed into. |
| Notation.OtherIsKept | src/bracket_notation.c:697-702 | A character, "<" included, that does not start a notation is parsed into itself. |
| Notation.WstrToSpec | src/bracket_notation.c:770-792 | Printing goes over the sequence combination by combination and never starts or ends with a space. |
| Notation.SpacesArePrinted | src/bracket_notation.c:779-789 | A space is spelled out exactly when it is the first or the last character. |
| Notation.NamesArePrinted | src/bracket_notation.c:798-875 | Which of several notations of a key is the one that is printed. |
| Notation.PrintableIsParsed | src/bracket_notation.c:798-932 | What is printed for a printable combination of ASCII keys is parsed back into it whatever follows. |
| Notation.UnprintableIsChanged | src/bracket_notation.c:831-864 | What is printed for any other combination is parsed into something else. |
| Notation.RoundTrip | src/bracket_notation.c:682-932 | For ASCII key sequences printing and then parsing is the identity if and only if the sequence does not start with a backspace and each Escape is followed by nothing, by another Escape, by a letter, a digit, "." or ",". |
| KeyTable.SortMakesKeyTable | src/bracket_notation.c:641-662 | Sorting any list of pairs with distinct notations that has all ASCII keys makes a table on which the search is exact and the round trip holds. |
| KeyTable.InsertSorts | src/bracket_notation.c:653-662 | The order of notations is total and transitive, so inserting a new notation into its place keeps a list sorted. |
| KeyTable.KeysAreThere | src/bracket_notation.c:54-510 | The requirements are met by the table: notations of ASCII keys with all of their aliases together with any other notations that are distinct and do not look like combinations with modifiers. |
| KeyTable.ControlAliases | src/bracket_notation.c:54-148 | A letter or one of five other characters together with Control stands for the control character, however Shift is added. |
| KeyTable.AltControlAliases | src/bracket_notation.c:236-339 | A letter together with Control and with Alt or Meta in any order stands for Escape and the control character. |
| KeyTable.AltShiftAliases | src/bracket_notation.c:340-443 | A letter together with Shift and with Alt or Meta in any order stands for Escape and the capital letter. |
| KeyTable.MetaIsAlt | src/bracket_notation.c:160-235 | Meta is the same as Alt for letters, digits, "." and ",": both stand for Escape before the character. |
| KeyTable.NamedKeys | src/bracket_notation.c:54-158 | Keys of "<tab>", "<nop>" and of other names of ASCII keys. |

## Left out

- Input and output, curses, dialogs, watchers and all failures of memory allocation or locking.
- Cursor position and the number of selected files in zap_entries(), tags of entries are a parallel sequence in
  `Rebuilding`.
- Duplicate checks of flist_custom_put(), and moving of folds and of excluded paths between views.
- Sorting keys: sort_sequence() is any function that puts files of a level in some order.
- Uncompressing: the tree of paths is a value rather than nodes with pointers, and errors of fsdata_set() are not modelled.
- Fold states and depth limits during loading.
- Rebuilding.UpdateFilteringLists: without the clear mode, which only frees names of files that are not shown.
- fill_side_by_side_by_paths() and the order of paths it relies on; filtering of its panes is covered by `DiffFilter`.
- Comparison by names and by sizes: add_file_to_diff() is modelled for comparison by contents, where its index is not trivial.
- The trie is a map from fingerprints to heads of lists; records whose files fail to open are not modelled.
- Reading of files by blocks assumes that reads are full until the end of a file.
- The list after leave_only_dups() is compacted by zap_entries(), which for lists without trees is `Duplicates.Present`.
- Splitting of command lines into commands and positions of arguments; :finish is assumed to be the last command of its
  line; commands other than conditional ones are opaque events.
- Scopes.Interpreter.SourceScript: scripts are started with any value of the counter, but agreement with structured
  meaning is stated for the counter at zero, which is what all previous scripts have to leave it at
  (`Conditionals.CounterIsZeroIff`).
- Jobs: job bar, progress of operations, cancellation, exit codes, skipping of further errors after a dialog, waiting with
  a timeout; memory of a freed job is never reused for a new one (each job has its own identifier).
- Checks.CheckIsExact: is about a check without displaying of errors and without steps of other threads in between, any
  interleaving is covered by `Jobs` and `Checks.UnusedIsFreed`.
- Viewers: failures to allocate a list or to clone matchers.
- Notation: case of letters outside of ASCII, printing of characters outside of ASCII and of function keys, and builds
  without extended keys; `KeyTable` spells out notations of ASCII keys, those of cursor and function keys are its
  parameter.
- Windows branches.
