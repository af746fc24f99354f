# PuzzleFS in Dafny

PuzzleFS turns a host directory tree into content-addressed data chunks plus stacked layers of inodes, and
serves paths, directory listings and byte ranges back out of them. This project models that pipeline end to
end (building, deltas, reading, walking, mounting, extracting) and proves what it guarantees over every tree,
every chunking and compression choice, and every history of builds.

Main results:

- `Runs.RunDisplaysIffClean`: a history is any number of builds in one blob directory, each from nothing or on
  any image built before, each with or without compression, with anything else stored in between. Over every
  history, every image displays exactly the tree it was built from (kinds, metadata, contents, hard links,
  nothing else) **if and only if** every delta either is of the tree its base was built from or adds a layer
  and splits no hard-link group of its base. `Runs.DisplaysIffCleanUpTo` says it for one image and those it
  goes back to; `Runs.RunDisplays` says which tree any image displays while no new layer splits links.
  `Splits.NoSplitIffLinksKept` turns the condition on links into one on the two trees alone, and
  `FreshTrees.FreshTreesAreDisplayed` gives a condition on the trees alone that is enough.
- What the choice of compression does to layers is exact (`Choices.SameAssembleIff`). `Examples` has concrete
  histories: an edit that is undone and lost, links that are split, a deleted name that cannot come back, and
  a tree built raw, compressed and raw again, where a buried layer is rendered and the tree still displayed.
- `RoundTrip.BuildThenExtract`, `RoundTrip.ExtractBuilt`: extracting an image succeeds **if and only if** the
  build it shows dropped nothing and every path can be restored by the user who extracts: kinds (devices need
  privileges), attributes, link targets (a privileged user changes the owner of what a link leads to, so it
  must be there) and directory modes (an unprivileged user cannot add to a directory that bars its owner).
  Then every node is what `Outcomes.Outcome` says, hard links included; `RoundTrip.RestoresAllIff` says
  exactly when that is the tree again. Ownership of links, set-user-ID bits and file capabilities do not
  survive (`ExtractionExamples.SetUserIdIsLost`).
- Confinement: whatever the entries, names, numbers, link targets and blobs of an image, cyclic or listing
  names twice, an extraction changes what lies outside the extract directory at most by owner, and without
  privileges not at all (`Extractor.ExtractEntries`, `Extractor.ExtractUpTo`). A privileged one changes owners
  through links: `RoundTrip.HitsInsideIff` says when only nodes under the directory are reached,
  `Confinement.ConfinedIff` and `Confinement.SparesIff` when everything outside ends up as before, and
  `ExtractionExamples.LinkOutsideIsHit` is an image for which it does not.
- `Listings.ListShown`, `Listings.ListInRun`: listing a directory of an image, page by page, gives every child of
  that directory in the tree once, with its kind and number, in byte order; it fails **if and only if** the
  build dropped an entry there or a child is of unknown kind.
- What a build writes is exact, without reference to its loops: the number of every path
  (`FreshNumbers.NumberExactly`), every directory and whiteout of a layer (`LayerContents`), the order of the
  file stream (`StreamOrder`), every descriptor of a manifest (`Images.ManifestDescribed`).
- `Reading.ReadPath`: looking a path up and reading at any offset and size returns that slice of the host
  file, whatever the chunk boundaries and the compression.
- `Histories.NeverReused`, `Histories.RunKeepsNumberIff`, `Histories.RunRefsClosed`, `Histories.RunSorted`,
  `Verity.RunOpensUnderVerity`, `Drops.DeletedStaysDeleted`, `SameImages.SameHistory`: numbers, references,
  verity, deletions and reproducibility over whole histories.

How it is modelled:

- A host tree maps every path to a directory, a file with its bytes, or another node; two paths with one host
  inode number are hard links. Names come out of a directory in any order (`Paths.ListSorted`), and
  lexicographic order of paths is the walker's pre-order (`Paths.DescendantsContiguous`).
- The reference for a build is a plan: the number of every host inode and the entries every directory drops
  (`Plans`). The builder's loops are proved to render exactly that plan (`Builder`, `Visiting`, `Walking`,
  `Collect`), and what a plan shows is proved without the loops (`View`, `Deltas`, `Numbers`).
- The reference for chunk assignment is geometry: a file's pieces are the intersections of its window of the
  stream with the chunks (`Chunks.Window`).
- SHA-256, the fs-verity measurement, Zstd, and FastCDC are functions in `Store.Env`. Assumptions on them
  are premises of the results that need them: `LosslessCodec`, `CollisionFree`, `GoodChunker` (non-empty
  pieces that concatenate to the input). Serialization of the metadata is an arbitrary function `ser`.
- The extraction target is a Linux file system at the level of its calls (`Target.Host`): a name table over
  inodes, permission checks, chown that follows links (at most 40) and clears set-user-ID, chmod that may
  clear set-group-ID, mknod that needs privileges. What else the host decides (the group of a new node, which
  extended attributes it accepts) is a parameter (`Target.User`).
- The comment on the builder's walker says breadth first; the code walks in pre-order, and the model follows
  the code. The reader's walk is breadth first.

## Model

| member | source | states |
|---|---|---|
| `Layers.FindInodeInVector` | puzzlefs-lib/src/format/types.rs:779-804 | the binary search terminates, never underflows, and computes the search that `FindInLayerCorrect` is about |
| `Layers.FindInLayerCorrect` | puzzlefs-lib/src/format/types.rs:779-804 | in a sorted layer the search finds a number exactly when some inode has it |
| `Layers.FindInodeInLayers` | puzzlefs-lib/src/format/types.rs:134-149 | newest layer first; a whiteout found ends the search with ENOENT |
| `Layers.FindInodeIsMerged` | puzzlefs-lib/src/format/types.rs:134-149 | the layered search is lookup in one merged map in which upper layers override and whiteouts remove |
| `Layers.MaxInode` | puzzlefs-lib/src/format/types.rs:151-160 | the largest of the layers' last numbers, at least 1 |
| `Layers.MaxInoIsMaximum` | puzzlefs-lib/src/format/types.rs:806-810 | on sorted layers that is the maximum over all inodes of all layers, whiteouts included |
| `Resolution.LookupPath` | puzzlefs-lib/src/reader/puzzlefs.rs:111-140 | a path must start at "/"; plain names resolve one by one; another component is EINVAL unless resolution ended before it |
| `Resolution.LookupPrefix` | puzzlefs-lib/src/reader/puzzlefs.rs:120-137 | once resolution ends early, every longer path ends the same way |
| `Store.Image.PutBlob` | puzzlefs-lib/src/oci.rs:54-136 | stores the smaller form, never replaces a blob, fails exactly on a name whose content hashes otherwise; rootfs descriptor first, chunk descriptors last; in a content-addressed, collision-free store the descriptor names a blob that is there and states its length, and under the flag returned the blob decodes to what was put |
| `Store.PutEachKeeps` | puzzlefs-lib/src/oci.rs:84-124 | from any store and for any sequence of puts, compressed or not: every written payload is intact if and only if no two of them collide and none collides with a blob that was there |
| `Store.PutEachReadsBack` | puzzlefs-lib/src/oci.rs:54-136 | then every digest and flag ever returned leads back to what was put |
| `Store.PutAllGrows` | puzzlefs-lib/src/oci.rs:108-124 | puts only add blobs, keep the store content-addressed, and leave every chunk's digest present |
| `Store.KeptReadsBack` | puzzlefs-lib/src/oci.rs:76-82 | whatever was put, with either choice, decodes to itself under the flag returned for it, even where a raw chunk and another's compressed form share a blob |
| `Store.VerityMatchesStored` | puzzlefs-lib/src/oci.rs:77-90 | the verity digest measures the stored bytes exactly when nothing was compressed, compression paid, or changed nothing |
| `Verity.OpensUnderVerity` | puzzlefs-lib/src/builder.rs:113-118 | with verity enforced a blob opens if and only if the last write to it was measured as stored |
| `Verity.RunMeasures` | puzzlefs-lib/src/builder.rs:404-452 | over every history the verity map of an image holds, for every blob, the measurement of the last write by the builds it goes back to |
| `Verity.RunOpensUnderVerity` | puzzlefs-lib/src/builder.rs:404-452 | so over every history, and in every later blob directory, a chunk opens under it if and only if that last write was measured as stored |
| `Store.Image.FillFromChunk` | puzzlefs-lib/src/oci.rs:230-259 | succeeds exactly when the blob opens (with verity: has a matching entry) and, if compressed, does not end before the position; fills as much as there is, touches nothing else |
| `Store.BlobReader.Seek` | puzzlefs-lib/src/compression/zstd_seekable_wrapper.rs:76-98 | goes to the position asked for from start, end or current; fails exactly for one before the start and, with Zstd, for one given as behind the end |
| `Store.BlobReader.Read` | puzzlefs-lib/src/compression/zstd_seekable_wrapper.rs:100-113 | returns min(buffer, remaining) bytes of the data at the offset; fails exactly where the remaining-length subtraction would underflow |
| `Store.ReadLast` | puzzlefs-lib/src/compression/zstd_seekable_wrapper.rs:76-113 | seeking from the end and reading gives exactly the last bytes |
| `Store.ReadAgain` | puzzlefs-lib/src/compression/zstd_seekable_wrapper.rs:76-113 | seeking back by what was read gives the same bytes again; fails exactly for a Zstd reader past the end |
| `Streams.FilesystemStream.Push` | puzzlefs-lib/src/builder/filesystem.rs:26-31 | appends the file to what is still to come |
| `Streams.FilesystemStream.Read` | puzzlefs-lib/src/builder/filesystem.rs:35-55 | any buffer, short file reads: returns the next bytes of the concatenation; zero into a non-empty buffer only at the end; done flags stay a prefix |
| `Streams.FilesystemStream.ReadToEnd` | puzzlefs-lib/src/builder/filesystem.rs:34-56 | repeated reads return the concatenation of all files |
| `ChunkAssignment.HandOut` | puzzlefs-lib/src/builder.rs:120-157 | the inner loop hands a chunk to the files so that each has exactly the pieces due to it so far |
| `ChunkAssignment.Advance` | puzzlefs-lib/src/builder.rs:141-156 | moves to the next non-empty file exactly when the current one is full |
| `ChunkAssignment.ProcessChunks` | puzzlefs-lib/src/builder.rs:92-164 | every file ends up with the pieces of its window, every chunk is stored in order, and no chunk is left |
| `ChunkAssignment.StoreAllRecords` | puzzlefs-lib/src/builder.rs:113-118 | every chunk has a blob, a verity entry and one descriptor in stream order |
| `Chunks.WindowReads` | puzzlefs-lib/src/builder.rs:120-139 | a window's pieces stay inside their blobs and read back, in order, as that slice of the stream |
| `Chunks.WindowPositive` | puzzlefs-lib/src/builder.rs:121-136 | no piece is empty |
| `Chunks.PieceCountBound` | puzzlefs-lib/src/builder.rs:109-158 | at most chunks plus non-empty files minus one pieces; empty files get none |
| `ChunkAssignment.PiecesBounded` | puzzlefs-lib/src/builder.rs:109-158 | that many pieces at most are in the lists the files end up with |
| `Chunks.ContentStable` | puzzlefs-lib/src/oci.rs:108-124 | a stored file reads the same after any blobs are added |
| `Paths.ListSorted` | puzzlefs-lib/src/builder.rs:235-237 | whatever order names arrive in, the listing is the one enumeration in the order that `NameLeIff` and `PathLeIff` spell out |
| `Paths.NameLeIff` | puzzlefs-lib/src/builder.rs:236-237 | names are ordered by bytes: a prefix first, otherwise the first byte that differs decides |
| `Paths.PathLeIff` | puzzlefs-lib/src/builder.rs:38-47 | paths are ordered by component: a parent first, otherwise the first component that differs decides |
| `Paths.DescendantsContiguous` | puzzlefs-lib/src/builder.rs:38-47 | lexicographic order of paths is pre-order |
| `HostTree.ParentFirst` | puzzlefs-lib/src/builder.rs:195-197 | a directory is visited after its parent |
| `Builder.LookupBase` | puzzlefs-lib/src/builder.rs:187-193 | no base offers nothing; otherwise path lookup in it |
| `Builder.FirstFreeIno` | puzzlefs-lib/src/builder.rs:182-185 | fresh numbers start at 2, or after the largest number of the base |
| `Builder.AddWhiteouts` | puzzlefs-lib/src/builder.rs:239-252 | exactly the base entries whose names are gone become whiteouts and stay listed |
| `Builder.NumberEntry` | puzzlefs-lib/src/builder.rs:257-306 | an entry is offered its old number or the next fresh one, and takes it unless it is a known hard link; one that is offered 1 is not listed and always rendered; which number that is over a whole build is `FreshNumbers.NumberExactly` |
| `Builder.CollectNew` | puzzlefs-lib/src/builder.rs:300-347 | a first path becomes a directory, file or other record; a hard link nothing |
| `Builder.VisitDir` | puzzlefs-lib/src/builder.rs:222-349 | one directory: what is collected follows the plan, or the base lookup fails |
| `Builder.WalkTree` | puzzlefs-lib/src/builder.rs:195-349 | the whole walk collects the plan, failing exactly on a path through a whited-out entry |
| `Builder.ReadFiles` | puzzlefs-lib/src/builder.rs:328-357 | all files as one stream |
| `Builder.DrainDirs` | puzzlefs-lib/src/builder.rs:359-368 | in whatever order the hash map is drained, the same directory inodes come out |
| `Builder.BuildDelta` | puzzlefs-lib/src/builder.rs:166-395 | succeeds exactly when no path runs through a whiteout (store untouched otherwise); the result is the sorted rendering of the plan, lists the number 1 nowhere, and every chunk is stored; what the rendering holds is spelled out in `LayerContents`, `FreshNumbers` and `Listings.KindShown` |
| `RootNumber.ResolvedNumber` | puzzlefs-lib/src/reader/puzzlefs.rs:111-140 | in layers that list the number 1 nowhere a path resolves to number 1 if and only if it is "/" |
| `RootNumber.RenderingUnlisted` | puzzlefs-lib/src/builder.rs:272-298 | a layer rendered over such layers, whether or not links were split, lists the number 1 nowhere |
| `Sorting.SortedUnique` | puzzlefs-lib/src/builder.rs:392 | without number clashes the final sort has one possible result |
| `Numbers.PlanShape` | puzzlefs-lib/src/builder.rs:203-306 | every host inode gets a number, "/" gets 1, only vanished names are dropped |
| `Numbers.AllocOf` | puzzlefs-lib/src/builder.rs:266-306 | the first path of a group passes on its old number, or a fresh one above all old ones |
| `Numbers.FreshIncrease` | puzzlefs-lib/src/builder.rs:266-270 | fresh numbers are given out in visiting order, each once |
| `FreshNumbers.NextCounts` | puzzlefs-lib/src/builder.rs:266-270 | the next free number counts exactly the paths visited so far that the base does not resolve |
| `FreshNumbers.NumberExactly` | puzzlefs-lib/src/builder.rs:168-306 | a first path keeps the number the base has for it; a new one gets F plus the number of paths visited before it that the base does not resolve, where F is 2 without a base and one more than the largest number of any inode in any layer with one |
| `FreshNumbers.ShownNumber` | puzzlefs-lib/src/builder.rs:168-306 | the image that was built resolves every first path under exactly that number |
| `FreshNumbers.RunNumber` | puzzlefs-lib/src/builder.rs:168-464 | so it is for the image of every build of every history that splits nothing |
| `FreshNumbers.FirstBuildCounts` | puzzlefs-lib/src/builder.rs:168-306 | a first build without hard links numbers the visited paths 2, 3, .. without a gap |
| `StreamOrder.StreamInOrder` | puzzlefs-lib/src/builder.rs:325-357 | the stream that is cut into chunks is the files in the order in which they are first visited, each host inode once |
| `StreamOrder.FileStarts` | puzzlefs-lib/src/builder.rs:325-357 | a file starts in the stream right after those visited before it |
| `StreamOrder.PiecesInOrder` | puzzlefs-lib/src/builder.rs:92-164 | in the image that was built a file's pieces are those of the chunked stream in that place |
| `LayerContents.WhiteoutsExactly` | puzzlefs-lib/src/builder.rs:244-251 | the whiteouts of a layer are exactly one kind of inode for every entry of the base that is gone: its number, owner 0:0, mode 0644, nothing else |
| `LayerContents.DirectoriesExactly` | puzzlefs-lib/src/builder.rs:235-306 | every directory of a layer lists first the entries of the base that are gone, then one entry per child, and these ascend strictly by the bytes of their names; every directory of the tree is there |
| `LayerContents.RunLayers` | puzzlefs-lib/src/builder.rs:166-464 | so it is in every layer of every image of every history, whatever was split |
| `Numbers.DistinctImpliesNoSplit` | puzzlefs-lib/src/builder.rs:266-306 | distinct numbers mean that no hard-link group of the base was split |
| `Numbers.NoSplitImpliesDistinct` | puzzlefs-lib/src/builder.rs:266-306 | and conversely: no live number is repeated or also whited out |
| `Numbers.InitialDistinct` | puzzlefs-lib/src/builder.rs:182-306 | a first build never clashes and whites nothing out |
| `View.AssembleFunctional` | puzzlefs-lib/src/builder.rs:359-392 | distinct numbers give each number one inode in the layer |
| `LiveNumbers.AssembleLiveOnce` | puzzlefs-lib/src/builder.rs:359-392 | by position: a number that stands twice in such a layer stands for whiteouts only |
| `View.FindRendered` | puzzlefs-lib/src/format/types.rs:134-149 | the search finds, under the number of a path, its rendering, whatever older layers hold |
| `View.EntryFound` | puzzlefs-lib/src/builder.rs:244-298 | a name of the tree leads to the number of its path, although dropped names are listed before it |
| `View.LookupLive` | puzzlefs-lib/src/reader/puzzlefs.rs:111-140 | every path of the tree resolves to its rendering |
| `View.LookupGone` | puzzlefs-lib/src/reader/puzzlefs.rs:111-140 | no other path resolves: ENOENT through a whited-out entry, otherwise nothing |
| `Deltas.RenderingUnique` | puzzlefs-lib/src/builder.rs:359-394 | the order of collection does not matter |
| `Deltas.RenderingClosed` | puzzlefs-lib/src/builder.rs:244-252 | a layer holds "/" and an inode for every entry of every directory in it |
| `Deltas.OlderLayersDoNotMatter` | puzzlefs-lib/src/format/types.rs:134-149 | under such a layer no path resolves differently with other older layers |
| `Deltas.BaseShows` | puzzlefs-lib/src/builder.rs:187-264 | the base offers every path of its tree its number and no other path one |
| `Deltas.DistinctIffNoSplit` | puzzlefs-lib/src/builder.rs:249-306 | over a shown base, numbers are distinct if and only if no group is split |
| `Deltas.NewLayerShows` | puzzlefs-lib/src/builder.rs:448-450 | a layer without clashes, put on top, shows its tree |
| `Deltas.PlanRepeats` | puzzlefs-lib/src/builder.rs:244-306 | planning a tree with the same paths and links reproduces numbers and whiteouts |
| `Deltas.RebuildIsTop` | puzzlefs-lib/src/builder.rs:392-450 | rebuilding the shown tree with its choice of compression renders the newest layer again, inode for inode |
| `Choices.SameAssembleIff` | puzzlefs-lib/src/builder.rs:109-139 | two choices of compression give one layer if and only if they store every chunk in the same form |
| `Choices.StoredAlikeIff` | puzzlefs-lib/src/oci.rs:76-82 | that is, if they are the same choice or no chunk shrinks |
| `Choices.RebuildIsTopIff` | puzzlefs-lib/src/builder.rs:440-450 | rebuilding the shown tree with any choice renders the newest layer again if and only if every chunk is stored in the same form; the tree stays shown |
| `Reproducible.SameRendering` | puzzlefs-lib/src/builder.rs:235-237 | trees equal up to host inode numbers render the same inodes over the same base |
| `Reproducible.SameLayer` | puzzlefs-lib/src/builder.rs:359-392 | and hence the same layer, whatever order the inodes were collected in |
| `SameImages.SameEffects` | puzzlefs-lib/src/builder.rs:92-164 | they are cut, stored, measured and described alike |
| `SameImages.SameInitialImage` | puzzlefs-lib/src/builder.rs:397-423 | a first build of either gives one image: metadata, verity map and blobs |
| `SameImages.SameHistory` | puzzlefs-lib/src/builder.rs:397-464 | two histories given the same choices, bases, blob directories and, up to host inode numbers, trees go through the same images as long as no links are split |
| `SameImages.CleanNeverSplits` | puzzlefs-lib/src/builder.rs:397-464 | which is so for every history of clean builds |
| `Images.PutRootfs` | puzzlefs-lib/src/builder.rs:412-418 | the metadata is stored raw and described first in the manifest |
| `Images.BuildInitialRootfs` | puzzlefs-lib/src/builder.rs:397-423 | a first build is an initial step of a history; the number 1 is listed nowhere; its manifest has the metadata first, then every chunk, and each descriptor names a blob that is there with its length, media type and, for the metadata, the verity digest of the stored blob |
| `Images.AddRootfsDelta` | puzzlefs-lib/src/builder.rs:427-464 | a delta is a step: the layer is added unless it equals any layer; the verity map only grows; a failed build leaves the store alone; the number 1 stays unlisted; the manifest is as for a first build |
| `Images.ManifestDescribed` | puzzlefs-lib/src/oci.rs:74-133 | after a build every descriptor names a blob that is there, its size is that blob's length, and the blob is the metadata itself, the chunk, or its compressed form if and only if that is shorter |
| `Display.StartHolds` | puzzlefs-lib/src/builder.rs:327-339 | a file's window of the stream holds its content |
| `Display.FileReadsBack` | puzzlefs-lib/src/builder.rs:92-164 | the pieces rendered for a file read back as that file |
| `Display.ShowsDisplays` | puzzlefs-lib/src/builder.rs:92-395 | an image showing a tree displays exactly it: kinds (spelled out in `Listings.KindShown`), metadata, contents, links, no other path |
| `Drops.InitialAbsent` | puzzlefs-lib/src/reader/puzzlefs.rs:111-140 | after a first build any other path is simply not found; no whiteout is met |
| `Display.DisplaysDetermines` | puzzlefs-lib/src/reader/puzzlefs.rs:16-140 | what is displayed determines the tree up to host inode numbers |
| `Steps.BuildStores` | puzzlefs-lib/src/builder.rs:109-118 | after a build its chunks read back and the store is content-addressed and only grew |
| `Steps.GoodInMore` | puzzlefs-lib/src/builder.rs:427-438 | an image stays good while its blob directory grows |
| `Steps.DeltaGood` | puzzlefs-lib/src/builder.rs:440-450 | a delta that adds a layer and splits nothing shows its tree, whatever was there before and whichever of the two was compressed |
| `Steps.StaleKeepsOldView` | puzzlefs-lib/src/builder.rs:448-450 | a delta whose layer is there already changes nothing that is shown |
| `Choices.RebuildAddsNothing` | puzzlefs-lib/src/builder.rs:448-450 | so with one choice a delta of the shown tree adds no layer |
| `Splits.TwiceAddsOne` | puzzlefs-lib/src/builder.rs:440-450 | the same delta twice with one choice, over an image built with any, renders the same layer and adds at most one, even where the first is lost |
| `Runs.StoreGrows` | puzzlefs-lib/src/builder.rs:397-464 | over every history nothing that is stored goes away |
| `Runs.RunShows` | exe/src/main.rs:195-214 | over any history an image whose layers split nothing shows, by its plan, the tree of the last build on the way to it whose layer was new; every layer is sorted with one inode per number, and every chunk can be read |
| `Runs.RunDisplays` | puzzlefs-lib/src/builder.rs:397-464 | and displays that tree and no other, in every later blob directory |
| `Runs.CleanDisplays` | puzzlefs-lib/src/builder.rs:397-464 | an image of clean builds displays the tree it was built from |
| `Runs.EarlierStillDisplays` | puzzlefs-lib/src/builder.rs:440-464 | and still does whatever has been built since |
| `Histories.LayerOrigin` | puzzlefs-lib/src/builder.rs:448-450 | every layer of an image was rendered by a build it goes back to, and was new then |
| `Histories.RunSorted` | puzzlefs-lib/src/builder.rs:392-450 | over every history, whatever was split, every layer is sorted and not empty |
| `Histories.RunDescribed` | puzzlefs-lib/src/oci.rs:74-133 | over every history, whatever was split: every descriptor of every build's manifest names a blob that is there, of the length it says, then and in every later blob directory |
| `Histories.RunLiveOnce` | puzzlefs-lib/src/builder.rs:359-392 | where no new layer split anything, by position: a number that stands twice in a layer stands for whiteouts only |
| `Histories.RunSearchIsMerged` | puzzlefs-lib/src/format/types.rs:134-149 | there the search is lookup in the merged map |
| `Splits.SameChoiceCleanIff` | puzzlefs-lib/src/builder.rs:448-450 | with the choice the image was built with, the condition reads: the delta splits nothing and its layer is new or the newest one |
| `Splits.EditIsSeen` | puzzlefs-lib/src/builder.rs:440-450 | on any image and with any choice an edit of contents or metadata never renders the newest layer; it is displayed if and only if its layer is not buried either |
| `Splits.RevertIsLost` | puzzlefs-lib/src/builder.rs:448-450 | on any image undoing a displayed edit with the old choice is lost: the rendering is the layer just buried, and the edited tree stays displayed |
| `Histories.RunReserved` | puzzlefs-lib/src/builder.rs:272-298 | over every history, whatever was split, no directory of any layer lists the number 1 |
| `Histories.RunRootAlone` | puzzlefs-lib/src/builder.rs:272-274 | so whatever tree is built next, number 1 is offered to "/" alone |
| `Splits.DirResolves` | puzzlefs-lib/src/reader/puzzlefs.rs:111-140 | directories that stay resolve correctly however the delta splits links |
| `Splits.SplitPair` | puzzlefs-lib/src/builder.rs:266-306 | two links that became separate files get one number and cannot both be right |
| `Splits.SplitWhite` | puzzlefs-lib/src/builder.rs:244-252 | deleting some but not all links leaves a number live and whited out, and some name is wrong |
| `Splits.NoSplitIffLinksKept` | puzzlefs-lib/src/builder.rs:249-306 | whether links are split can be told from the two trees |
| `Splits.SplitNotDisplayed` | puzzlefs-lib/src/builder.rs:249-306 | a delta that adds its layer and splits a hard-link group is not displayed, whichever of the two was compressed |
| `Splits.DisplaysIffClean` | puzzlefs-lib/src/builder.rs:427-464 | one delta with any choice: displayed if and only if it is of the tree shown before, or adds a layer and splits nothing |
| `Runs.BuildDisplaysIff` | puzzlefs-lib/src/builder.rs:427-464 | over any base whose layers split nothing a build is displayed if and only if it is clean with respect to the tree the base shows |
| `Runs.DisplaysIffCleanUpTo` | puzzlefs-lib/src/builder.rs:397-464 | an image and all those it goes back to display their own trees if and only if every build on the way was clean |
| `Runs.RunDisplaysIffClean` | exe/src/main.rs:195-214 | whole histories, with any bases and choices: every image displays its own tree if and only if every build was clean |
| `FreshTrees.SameLayerIso` | puzzlefs-lib/src/builder.rs:359-450 | a layer that renders two trees, under any choices, does so because they are one up to host inode numbers |
| `FreshTrees.FreshTreesAreDisplayed` | puzzlefs-lib/src/builder.rs:427-464 | if every build on the way keeps the links of the tree before and no tree repeats one older than the last, the image displays its tree |
| `Examples.UndoneEditStays` | puzzlefs-lib/src/builder.rs:448-450 | a concrete three-build history whose last tree is not displayed |
| `Examples.SplitIsNotDisplayed` | puzzlefs-lib/src/builder.rs:249-306 | concrete two-build histories: separating or deleting one of two links is not displayed |
| `Examples.UndoneEditIsLost` | puzzlefs-lib/src/builder.rs:448-450 | the same for any edit of contents or metadata, whatever choice it is built with |
| `Examples.ChoiceAndBack` | exe/src/main.rs:195-214 | one tree built three times with another choice in the middle: if a chunk shrinks the second build adds a layer, the third renders the buried first layer, and the tree is displayed throughout |
| `Examples.RawCompressedRaw` | exe/src/main.rs:195-214 | such a history exists |
| `Examples.DeletedNameIsBarred` | puzzlefs-lib/src/builder.rs:225-264 | a concrete deletion: displayed, but the image cannot be walked and the tree that had the name cannot be built |
| `Existence.NextExists` | puzzlefs-lib/src/builder.rs:427-464 | any history can go on from any image with any choice and any tree that no whiteout bars |
| `Existence.TwoBuildsExist` | puzzlefs-lib/src/builder.rs:397-464 | any two trees have a history, with any choices |
| `Existence.RetouchExists` | puzzlefs-lib/src/builder.rs:397-464 | so has any edit of contents or metadata, or none, followed by any tree |
| `Examples.SimpleIsTrusted` | puzzlefs-lib/src/oci.rs:54-136 | the assumptions on hash, codec and chunker can be met together without compression |
| `Examples.SqueezingIsTrusted` | puzzlefs-lib/src/oci.rs:54-136 | and with a codec that shrinks one chunk and no other |
| `Examples.RawChunkFailsVerity` | puzzlefs-lib/src/oci.rs:76-90 | of two chunks stored together that way, the one that shrinks opens under verity and the other does not |
| `Histories.PlannedAreOldOrFresh` | puzzlefs-lib/src/builder.rs:266-270 | a delta gives out only numbers in use and numbers above every inode of every sorted layer |
| `Histories.NeverReused` | puzzlefs-lib/src/builder.rs:182-185 | along any line of builds whose new layers split nothing a number given up is never used again |
| `Histories.LeaderKeepsNumber` | puzzlefs-lib/src/builder.rs:266-277 | a path that leads its link group keeps its number, or exceeds every number in every layer if new |
| `Histories.KeepsNumberIff` | puzzlefs-lib/src/builder.rs:266-306 | every path has the number of its leader; one that was there keeps its own number if and only if it was linked to that leader before |
| `Histories.RunKeepsNumberIff` | puzzlefs-lib/src/builder.rs:266-306 | at every step of such a line a path keeps its number if and only if it stays linked |
| `Histories.KeepsNumberThroughout` | puzzlefs-lib/src/builder.rs:266-306 | and over any stretch for as long as it does |
| `Histories.RunRefsClosed` | puzzlefs-lib/src/builder.rs:113-118 | over every history no inode of any layer names a chunk without a verity digest |
| `Reading.FileRead` | puzzlefs-lib/src/reader/puzzlefs.rs:16-68 | never more than asked for, the rest of the buffer untouched, whatever the blobs; where opened blobs hold what their chunks promise: min(length, rest of file) bytes equal to the content there, failing exactly when a chunk ending at or after the offset cannot be opened, chunks behind the range included |
| `Reading.ReadChunk` | puzzlefs-lib/src/reader/puzzlefs.rs:45-63 | one fill, possibly of zero bytes, stays within its blob and keeps both offsets right |
| `Reading.FileReader.Open` | puzzlefs-lib/src/reader/puzzlefs.rs:155-163 | only files open |
| `Reading.FileReader.Read` | puzzlefs-lib/src/reader/puzzlefs.rs:166-184 | the next bytes of the file; the offset never passes the length |
| `Reading.CopyOut` | puzzlefs-lib/src/reader/puzzlefs.rs:166-184 | repeated reads with buffers of any sizes terminate, whatever the blobs, and return the rest of a file whose blobs are not short |
| `Reading.ReadInode` | puzzlefs-lib/src/reader/fuse.rs:113-125 | a mounted read returns the slice, or the lookup's or reader's error |
| `Reading.ReadPath` | puzzlefs-lib/src/reader/puzzlefs.rs:16-140 | end to end: lookup and read give that slice of the host file |
| `Walk.Walker.Start` | puzzlefs-lib/src/reader/walk.rs:21-32 | the queue starts with "/" |
| `Walk.Walker.AddDirEntries` | puzzlefs-lib/src/reader/walk.rs:34-48 | queues every entry with its inode, or fails on one that cannot be found |
| `Walk.Walker.Next` | puzzlefs-lib/src/reader/walk.rs:54-57 | yields the oldest entry and queues what is in it |
| `Walk.Advance` | puzzlefs-lib/src/reader/walk.rs:51-58 | one step of a walk over an image with finitely many paths keeps the walk's invariant; it ends only when every path has been yielded |
| `Walk.WalkAll` | puzzlefs-lib/src/reader/walk.rs:20-58 | terminates; fails exactly on a whiteout; otherwise every resolvable path once, with lookup's inode, parents first, depth never decreasing |
| `Unfolding.WalkAcyclic` | puzzlefs-lib/src/reader/walk.rs:20-58 | any image without cycles, names repeated or not: terminates, fails exactly on a whiteout, and otherwise yields the entries of the depth-first unfolding, each as often as it is there |
| `ShownWalk.ShownIsFinite` | puzzlefs-lib/src/reader/walk.rs:34-48 | for a shown tree these are its paths, and no whiteout is met if and only if the build dropped nothing |
| `Breadth.WalkInOrder` | puzzlefs-lib/src/reader/walk.rs:20-58 | the walk over a shown tree yields its paths by depth and then by path |
| `Target.SafePath` | puzzlefs-lib/src/extractor.rs:19-67 | any components: exactly what the first component that does not lead on decides (a link, a problem, a way out of the directory, or a name that is not there yet), otherwise where they lead by name; the result is under the extract directory, through existing names that are no links; a path whose parents are extracted gives the directory joined with it, exactly when every directory on the way may be searched |
| `Links.PlainComponents` | puzzlefs-lib/src/extractor.rs:29-64 | only plain names make a path that is taken apart into those names again |
| `Links.ResolveStable` | puzzlefs-lib/src/extractor.rs:136-142 | where a path leads does not change when nodes are added |
| `Links.DotsLead` | puzzlefs-lib/src/extractor.rs:136-142 | as link targets "/" leads to the root, "." nowhere else, ".." one up, and the root is its own parent |
| `Links.NameLeads` | puzzlefs-lib/src/extractor.rs:136-142 | a name leads to its node, or, if that is a link, to where its target leads from the same directory, within the budget |
| `Target.MayByDigit` | puzzlefs-lib/src/extractor.rs:97-134 | a directory can be searched and added to by the octal digit of its mode that applies to the user |
| `Target.ClearedExactly` | puzzlefs-lib/src/extractor.rs:127-142 | a change of owner leaves 01777 of the mode, 03777 where the group may not execute |
| `Target.SetXattrsSet` | puzzlefs-lib/src/extractor.rs:121-125 | of the attributes set the last one of a key counts, other keys keep their value |
| `Target.Host.Make` | puzzlefs-lib/src/extractor.rs:97-109 | a node is made exactly where nothing is and the parent is a directory one may add to |
| `Target.Host.HardLink` | puzzlefs-lib/src/extractor.rs:83-86 | a second name for the same inode |
| `Target.Host.Chmod` | puzzlefs-lib/src/extractor.rs:127-134 | permissions are set by the owner or a privileged user; set-group-ID may be dropped |
| `Target.Host.Chown` | puzzlefs-lib/src/extractor.rs:136-142 | a link is followed: the node it leads to changes owner, and the call fails exactly when it leads nowhere; set-user-ID and capabilities are dropped |
| `Nodes.ReadWhole` | puzzlefs-lib/src/extractor.rs:90-94 | copies a file out exactly when its chunks are there |
| `Nodes.CreateNode` | puzzlefs-lib/src/extractor.rs:89-120 | a bare node of the inode's kind and content, exactly when the user may make that kind there |
| `Nodes.SetAttributes` | puzzlefs-lib/src/extractor.rs:121-125 | all attributes, exactly when the host accepts each |
| `Nodes.SetModeAndOwner` | puzzlefs-lib/src/extractor.rs:127-142 | permissions, then owner, with what the second drops of the first |
| `Nodes.MakeNode` | puzzlefs-lib/src/extractor.rs:89-142 | the whole node; succeeds exactly when kind, contents, attributes, parent and, for a privileged user, the link target allow it |
| `Extraction.LinkedAsNumbered` | puzzlefs-lib/src/extractor.rs:83-87 | extracted paths are hard links of each other exactly when they have one number |
| `Extractor.ExtractEntry` | puzzlefs-lib/src/extractor.rs:78-145 | one entry: what lies outside changes at most by owner through links; it succeeds exactly when the entry fits, and then joins what is extracted, linked if its number was seen |
| `Extractor.ExtractEntries` | puzzlefs-lib/src/extractor.rs:69-147 | any entries in any order with any names, numbers, targets and blobs: what lies outside changes at most by owner, and without privileges not at all |
| `Extractor.ExtractUpTo` | puzzlefs-lib/src/extractor.rs:69-147 | the same for any image, up to any point of its walk |
| `Extractor.ExtractRootfs` | puzzlefs-lib/src/extractor.rs:69-147 | terminates for an image with finitely many paths; with plain names and no short blobs it succeeds exactly when every entry of the walk fits, and then holds the image |
| `Confinement.ConfinedIff` | puzzlefs-lib/src/extractor.rs:136-142 | everything outside is as before if and only if the last change of owner that reaches each node outside leaves it as it was |
| `Confinement.UnchangedIff` | puzzlefs-lib/src/extractor.rs:136-142 | a change of owner leaves a node alone if and only if it has that owner and no set-user-ID, no set-group-ID with group execution and no capability |
| `Confinement.SparesIff` | puzzlefs-lib/src/extractor.rs:136-142 | so everything outside is as before if and only if each node there that links led to was like that all along |
| `Confinement.LinksInsideSpare` | puzzlefs-lib/src/extractor.rs:136-142 | if every link followed leads under the directory, nothing outside changes |
| `Confinement.LastLinkOutsideHits` | puzzlefs-lib/src/extractor.rs:136-142 | if the last one leads to a node outside with another owner, something does |
| `TreeExtraction.RestorableKinds` | puzzlefs-lib/src/extractor.rs:89-120 | kind by kind: no socket and nothing unknown is restored, devices take privileges, links a target; everything else can be |
| `TreeExtraction.ShownCanExtract` | puzzlefs-lib/src/extractor.rs:69-147 | an image showing a tree can be extracted if and only if the newest build dropped nothing and every path of the tree can be restored (`CanRestore`) |
| `Outcomes.ExtractedRemakes` | puzzlefs-lib/src/extractor.rs:76-142 | the extracted directory has the paths and hard links of the tree, and at every first path the outcome of its node |
| `Outcomes.FollowedOnce` | puzzlefs-lib/src/extractor.rs:136-142 | tree, user and disk fix which owners are changed through links, and in which order |
| `RoundTrip.RestoresAllIff` | puzzlefs-lib/src/extractor.rs:121-142 | the tree comes back if and only if the metadata of every node survives |
| `RoundTrip.NaturalKept` | puzzlefs-lib/src/extractor.rs:121-142 | for metadata as Linux reports it: links must be one's own; with privileges no other node may be reached by a link with another owner, nor have set-user-ID, set-group-ID with group execution, or a capability; without, every owner must be one's own |
| `RoundTrip.HitsInsideIff` | puzzlefs-lib/src/extractor.rs:136-142 | owners are changed only under the directory if and only if the user is not privileged or every link leads there |
| `RoundTrip.ExtractShown` | puzzlefs-lib/src/extractor.rs:69-147 | succeeds if and only if the newest build dropped nothing and every path can be restored; then the outcome, the log of links followed, and when everything outside is as before; without privileges it always is |
| `RoundTrip.BuildThenExtract` | puzzlefs-lib/src/extractor.rs:69-147 | build then extract: succeeds if and only if every path can be restored |
| `RoundTrip.ExtractBuilt` | puzzlefs-lib/src/extractor.rs:69-147 | any image of any history whose new layers split nothing: succeeds if and only if the build it shows dropped nothing and every path of that tree can be restored |
| `ExtractionExamples.LinkOutsideIsHit` | puzzlefs-lib/src/extractor.rs:136-142 | a concrete link whose extraction gives a file outside another owner |
| `ExtractionExamples.DanglingLinkFails` | puzzlefs-lib/src/extractor.rs:136-142 | a link that leads nowhere fails for a privileged user and for no other |
| `ExtractionExamples.SetUserIdIsLost` | puzzlefs-lib/src/extractor.rs:129-142 | a set-user-ID file does not come back as it was |
| `ExtractionExamples.PrivilegeNeeded` | puzzlefs-lib/src/extractor.rs:100-134 | a device, and an entry of a directory that bars its owner, need privileges |
| `Drops.BuildableIff` | puzzlefs-lib/src/builder.rs:225-264 | a delta gets through if and only if no path runs through an entry whited out before, so a deleted name cannot come back |
| `Drops.DropsNothingIff` | puzzlefs-lib/src/builder.rs:239-252 | a delta drops nothing if and only if every directory that stays keeps all its entries |
| `Drops.GoneCannotReturn` | puzzlefs-lib/src/builder.rs:225-264 | no tree that has a deleted path can be built on an image that lists it as deleted |
| `Drops.DeletedStaysDeleted` | puzzlefs-lib/src/builder.rs:225-264 | along any line of builds whose new layers split nothing a deleted path never comes back while its directory stays |
| `Drops.GrowingDropsNothing` | puzzlefs-lib/src/builder.rs:239-252 | along such a line on which no path disappears nothing is dropped |
| `Drops.GrowingIsWalked` | puzzlefs-lib/src/reader/walk.rs:34-48 | and the walk of the image meets no whiteout |
| `Mount.ReadDir` | puzzlefs-lib/src/reader/fuse.rs:127-143 | one page: consecutive entries from the offset until none is left or the next does not fit; fails if and only if the first entry that cannot be served is reached before the page is full; what the records say of the tree is `Listings.ListShown` |
| `Mount.ListDir` | puzzlefs-lib/src/reader/fuse.rs:127-143 | any page sizes with room for one record: every entry once, in order, exactly when all can be served; what the records say of the tree is `Listings.ListShown` |
| `Listings.KindShown` | puzzlefs-lib/src/format/types.rs:429-464 | in an image that displays a tree a path resolves to a directory, file, fifo, link, socket, unknown or device inode (with those numbers) if and only if the tree has that kind there, with the same metadata |
| `Listings.ListShown` | puzzlefs-lib/src/reader/fuse.rs:41-51 | listing a directory of an image that displays a tree gives every child once, with the kind of the node in the tree and the number of its inode; fails if and only if an entry is whited out or a child is of unknown kind |
| `Listings.ListBuilt` | puzzlefs-lib/src/reader/fuse.rs:127-143 | in an image just built it fails if and only if the build dropped an entry of that directory or a child is of unknown kind; otherwise the names come in byte order |
| `Listings.ListInRun` | puzzlefs-lib/src/reader/fuse.rs:127-143 | so it is for every image of every history that splits nothing, in every later blob directory |

## Left out

- The Cap'n Proto layout, its round trip and the memory map: the metadata is an arbitrary function of its value.
- FastCDC, SHA-256, fs-verity ioctls and Zstd frame coding, and the `ZstdCompressor` and `Noop` wrappers: functions with stated laws.
- Machine integer widths: sizes, offsets and numbers are unbounded; overflow of 64-bit counters is not modelled.
- Mounting, daemonizing, `_lookup`, `_getattr`, `_open`, xattr requests and the operations that only return EROFS: one-branch behaviour.
- The OCI index, tags and manifest JSON beyond the ordered list of layer descriptors.
- The host file system: nothing changes during a build, there is one file system, metadata is carried as a value.
- Errors of the host during a build (unreadable files, vanished directories) and the branches that guard against them.
- The order of a directory's entries on the host: the model starts from the set of names and sorts it, as the code does.
- Builder.BuildDelta: requires that the base lists the number 1 in no directory (`cur_ino != 1` in the code); `Histories.RunReserved` shows that this holds over every history, so only a base that no build made is left out.
- Images.AddRootfsDelta: the same requirement on its base.
- Builder.WalkTree: the collected state is passed as a value from method to method instead of being updated in place through references into the hash maps.
- Store.BlobReader.Seek: a position before the start, and Store.BlobReader.Read past the end of a Zstd blob, are errors; the code subtracts without a check there.
- Reading.FileRead: how many bytes come back from a blob shorter than its chunks promise is bounded, not told.
- Extractor.ExtractRootfs: the target directory exists and is empty; the `todo!` branches for sockets and whiteouts are errors. It is for images with finitely many paths, since the walk of a cyclic one never ends, and its success condition for images whose names are plain (no slash, not empty, "." or "..", as the names of a host are) and whose blobs are not short; confinement is stated for all images by `Extractor.ExtractUpTo`.
- Target.Host: access control lists, capabilities other than being root, quotas, name lengths and read-only mounts do not occur; a directory is searched and added to by its permission bits; a file entry over a device or pipe that is already there is an error, while the code opens the device and writes into it, which a privileged extraction can do when a directory lists a name twice.
- Nodes.CreateNode: a new node has mode 0700 until its permissions are set; the file creation mask is not modelled, since the next call overrides it.
- Confinement.ConfinedIff: compares the disk before and after; times and the contents of device nodes are not part of a node.
- Walk.WalkAll: for images with finitely many resolvable paths that list no name twice; `Unfolding.WalkAcyclic` covers repeated names, and a cyclic image would be walked forever.
- Runs.RunShows: the metadata of a base is read back as it was stored; blobs are never deleted.
- Mount.ListDir: the room a record takes is an arbitrary function of its name.
