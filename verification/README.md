# VaultBox storage model

A Dafny model of the storage contract that VaultBox's web portal talks to, and of the clients
that drive it, with proofs of what the contract and the clients keep together.

The server side is the in-memory implementation of `/api/v1` in `tool/portal_mock_server.js`.
It stores a directory tree as one flat map from path to node; folders own nothing, and rename,
move, copy and delete are loops over a snapshot of the keys that re-key whatever passes a string
prefix test. The client side is the portal page (`assets/portal/portal.js`), the page of public
links (`assets/portal/public.js`) and the hand-off between a coroutine and Android's picker
Activity (`SafStorageHostApi.kt`).

## How the model is laid out

| files | what they hold |
|---|---|
| `Options`, `Sequences`, `Paths`, `RawPaths`, `Naming` | sequences without duplicates, path strings, segments, what becomes of any raw path, decimal numbers, keep-both names |
| `FileTree`, `Requests`, `RequestFacts` | the flat map, and each request as a function from the tree before to the tree after and the reply |
| `Snapshots`, `Stores`, `Storage`, `InsertionOrder` | the loops over a copy of the keys and exactly when their order matters; the requests on the map with its insertion order; the class `Server` whose methods run them in place; and that order told of the history alone |
| `NestedTree`, `Refinement`, `Subtrees` | a nested tree, independent of the flat map, and the proof that a well-formed map denotes exactly one such tree |
| `Effects`, `Replacing`, `TreeAnswers`, `Replies` | what each request does to the nested tree and exactly when; which reply stands for which state of the tree, and what a batch reply reports |
| `TreeServer`, `TreeRefinement` | the server as a file system on the nested tree, without keys or loops, and the proof that whole runs of the real one refine it, reply by reply |
| `Seeds`, `Conservation`, `Runs`, `Accounting` | the tree the server starts with, the multiset of file contents, whole runs of requests, and what every request loses and adds |
| `BatchOrder` | whether the order of the sources of a move matters |
| `Paging`, `ListingOrder`, `PagedListing` | cursor paging while other requests change the tree |
| `Directory`, `Navigation` | the page's folder view under late and lost responses: which folder it is in, and when all of it is shown |
| `Uploads`, `UploadQueue`, `UploadReplies`, `UploadChoices` | the upload queue as an event machine and as the object it is, and what replies and answers do to an item |
| `UploadSafety`, `UploadOutcomes` | the queue composed with the server's two-step PUT: what is never replaced, and what "done" means for the tree |
| `PublicLink`, `LinkUploads` | the use-limited upload handler under overlapping uploads, and one visitor's queue |
| `HashRoute`, `HashReading`, `Ranges` | percent-encoded routes, what any fragment names, byte ranges |
| `PickerProtocol`, `Pickers` | the picker hand-off |
| `FailingInputs` | inputs at which the findings below happen |

Where the source changes fields step by step the model has a class whose methods do the same and
whose `ensures` equate the new state with a function of the old one; the theorems are lemmas about
those functions. Where the source only computes there is a function.

## Terms

- A map is *well-formed* if every key is a canonical path whose parent is the root or a folder key, and
  *sound* if it also has the bin's folder. The server never states this; its code relies on it.
- A request is *guarded* if it does not rename an item to its own name, does not move it into itself or
  its own folder, with `replace` writes over another item only if the loop is untangled and nothing left
  over there loses its folder, and, for a deletion, draws fresh identifiers. It is *tidy* if, besides,
  nothing of an item that is replaced is left over.
- A loop is *untangled* if it writes no key of the source over another key of the source or, when it
  copies, at least over none that holds something else. That is exactly when the order of the keys does
  not matter to it. Source and target may contain one another.
- A source *reveals* another one if moving it puts something at the other's path, where nothing was.
- A request *lingers* if the page has seen it fail while the server goes on with it.
- A step *clobbers* if the server stores the body of a request that must not overwrite over a file with
  other content.

## Findings

These are places where the code does not do what its documentation, its tests or its evident
purpose say. Each is stated as an exact condition, so that the good cases are covered by the same
lemma.

- Renaming an item to the name it has removes it and everything in it (`Effects.RenameExact`).
- Moving an item into the folder it is already in removes it; moving it into itself cuts it off from
  the root (`Effects.MoveExact`). Copying with "keep both" into the item's own folder changes
  nothing. `test/domain/file_operations_test.dart:412-508` shows the intended behaviour: no loss,
  and a duplicate for the copy.
- `replace` writes over the old target and removes nothing: it replaces exactly if the old target has
  nothing the new one lacks and no item moves into itself, and it keeps the tree intact exactly if
  nothing left over loses its folder to a file and no item moves into itself
  (`Replacing.ReplacesExactly`, `Replacing.OverlayKeepsExactly`, `FailingInputs.ReplacingBreaksHere`).
- An item may be moved over the folder it is in, which `test/domain/file_operations_test.dart:473-493`
  wants refused; a folder can so become a file (`FailingInputs.FolderBecomesFileHere`).
- What a rename, move or copy leaves depends on the order in which the keys were first set exactly if its
  loop is tangled (`Snapshots.OneOutcomeExactly`, `Stores.StoresAgreeExactly`). Two uploads in one order
  or the other then decide whether a file survives a move (`FailingInputs.SnapshotOrderMattersHere`).
- A move or copy to the root does not look whether the item has the hidden name there, as a rename does.
  Exactly then no request reaches it any more (`Effects.ReachableExactly`,
  `FailingInputs.HiddenByMoveHere`).
- The order of the sources of a move matters exactly if one source, by being moved, brings another,
  missing one into being (`BatchOrder.OrderMattersExactly`, `FailingInputs.OrderMattersHere`).
- "Keep both" answers with an uncaught exception for a name that has a line terminator before its
  extension; the other place that numbers names does not (`Naming.TwoFormsAgree`,
  `TreeAnswers.PlaceExact`). What the batch did before stays done (`FailingInputs.CrashesHalfWayHere`).
- An upload may replace a file without a question if an earlier request, which the page has given up
  as failed, is still being processed by the server. A run is safe exactly if none of its steps
  clobbers, and none does without such a request (`UploadSafety.SafeRunExactly`,
  `UploadSafety.RunIsSafe`, `UploadSafety.LingeringReplaces`).
- Files that wait when the session ends stay waiting after the next sign-in, until more files are
  added (`Uploads.StrandedExactly`, `FailingInputs.StrandedHere`).
- A public upload never looks whether its folder is still there (`PublicLink.PlacedProperlyExactly`,
  `FailingInputs.UploadAfterDeleteHere`).
- A page cursor whose name has gone ends the listing without an error. Nothing that is there
  throughout is missed exactly if no request lost its place before such an item
  (`PagedListing.NothingMissedExactly`, `Paging.RemovedCursorMisses`).
- A reversed range that starts inside the file is answered with status 206, an empty body and a length
  that is not its length, and a suffix of an empty file is refused (`Ranges.MeetsExactly`,
  `Ranges.ReversedMisstates`).
- A picker caller hangs exactly if an earlier one is cancelled between having its value and being
  dispatched (`PickerProtocol.NobodyHangsExactly`, `PickerProtocol.LateCancelHangs`).

## Model

| member | source | states |
|---|---|---|
| Paths.ParsePathLoop | tool/portal_mock_server.js:146-156 | the loop over the parts of a path, leaving at the first "..", gives null, "reserved" or the canonical path |
| Paths.ParsedIsCanonical | tool/portal_mock_server.js:146-156 | whatever is sent, an accepted path is canonical, outside the hidden folder, and parses to itself |
| Paths.CanonicalParses | tool/portal_mock_server.js:146-156 | the accepted paths are exactly the canonical ones outside the hidden folder |
| RawPaths.ReadsExactly | tool/portal_mock_server.js:146-156 | of any string whatever: slashes and backslashes alike separate, and the parts between them that are not empty are the segments |
| RawPaths.ReadsOnce | tool/portal_mock_server.js:146-156 | every string is read in exactly one way |
| RawPaths.HiddenNameExactly | tool/portal_mock_server.js:154 | a first part is the hidden name exactly if it is ".vaultbox" letter by letter, in capitals or not |
| RawPaths.ParsedExactly | tool/portal_mock_server.js:146-156 | null exactly if a part is "..", "reserved" exactly if else the first part is the hidden name, and otherwise exactly the slash and the parts joined by slashes |
| Paths.SegmentsOfRender | assets/portal/portal.js:170-172 | splitting a path written from segments gives those segments back |
| Paths.ParentAndNameOfJoin | tool/portal_mock_server.js:157-158 | parent and name of a joined path are what was joined |
| Paths.JoinOfParentAndName | assets/portal/portal.js:161-168 | joining a path's parent and name gives the path; the other inverse |
| Paths.UnderIsSegmentPrefix | tool/portal_mock_server.js:321 | on stored paths the string test of the loops is exactly the segment-prefix relation |
| Paths.UnderLinear | tool/portal_mock_server.js:321 | two places above one path lie one above the other |
| Paths.WithinStaysInside | tool/portal_mock_server.js:62-67 | no visitor's path leaves the folder of the link, and only those that `parsePath` refuses are refused |
| Paths.WithinReachesAll | tool/portal_mock_server.js:62-67 | every path of that folder outside a hidden name can be reached |
| Naming.NumberOfDecimal | tool/portal_mock_server.js:356-357 | reading a number's decimal form gives the number; one half of `Naming.DecimalExactly` |
| Naming.DecimalExactly | tool/portal_mock_server.js:356-357 | a string is the decimal form of a number exactly if it is digits, reads as the number and has no zero to spare in front |
| Naming.LazyGroupFrom | tool/portal_mock_server.js:353 | what the lazy expression matches, from any position |
| Naming.TwoFormsAgree | tool/portal_mock_server.js:103 | the two regular expressions split a name alike exactly if no line terminator precedes the extension; else the second has no match |
| Naming.ExtensionStartsAtLastDot | tool/portal_mock_server.js:353 | base and extension make up the name, and the extension starts at its last dot |
| Naming.NumberedIsInjective | tool/portal_mock_server.js:356-357 | different numbers give different names |
| Naming.KeptNameIsRead | tool/portal_mock_server.js:353-357 | a parser that knows nothing of how names are numbered reads a kept name as the old base and the number; the name is the base, a space, the number in parentheses, and the old extension |
| Naming.FirstFree | tool/portal_mock_server.js:356 | the search ends, at a free name, and every smaller number is taken |
| Naming.FirstFreeIsBounded | tool/portal_mock_server.js:356 | it ends within one more step than there are keys |
| Naming.FindFreeNumber | tool/portal_mock_server.js:354-357 | the counting loop finds that number |
| FileTree.AncestorsAreFolders | tool/portal_mock_server.js:159 | in a well-formed map every ancestor of a key is a folder |
| FileTree.AbsentIsFree | tool/portal_mock_server.js:319 | one test for the target's key stands for a whole free subtree |
| FileTree.Rekeyed | tool/portal_mock_server.js:320-322 | the re-keyed subtree has exactly the keys below the target whose counterparts are below the source, with their nodes |
| FileTree.SwapBack | tool/portal_mock_server.js:321 | replacing a path's prefix and replacing it back gives the path |
| NestedTree.NodeAtDetach | tool/portal_mock_server.js:320-322 | the reference operation: taking a subtree out removes what was seen there and nothing else |
| NestedTree.NodeAtGraft | tool/portal_mock_server.js:360-366 | the reference operation: a grafted subtree is seen at its place and nothing else changes |
| NestedTree.SameNodesSameTree | tool/portal_mock_server.js:25-26 | a nested tree is determined by what is seen at its paths |
| Refinement.NestedRepresents | tool/portal_mock_server.js:25-26 | every well-formed flat map denotes a nested tree |
| Refinement.RepresentsIsWellFormed | tool/portal_mock_server.js:25-26 | only well-formed maps do |
| Refinement.RepresentedIsNested | tool/portal_mock_server.js:25-26 | a map denotes at most one tree |
| Refinement.SameTreeSameMap | tool/portal_mock_server.js:25-26 | and a tree is denoted by at most one map |
| Subtrees.SubtreeIsLookup | tool/portal_mock_server.js:320-322 | the keys below a path stand for the subtree found at it |
| Subtrees.CopyGrafts | tool/portal_mock_server.js:349-366 | copying to a free place grafts the subtree as it was, even into its own descendant |
| Subtrees.MoveGrafts | tool/portal_mock_server.js:360-366 | moving to a free place outside the item detaches one subtree and grafts it, all else unchanged |
| Subtrees.OwnTargetDetaches | tool/portal_mock_server.js:360-366 | moved onto itself, an item is only taken out |
| Subtrees.InnerTargetOrphans | tool/portal_mock_server.js:360-366 | moved into itself, it is no longer below any folder |
| Subtrees.InsertGrafts | tool/portal_mock_server.js:289 | a new node below a folder is grafted there |
| Storage.Server.Seed | tool/portal_mock_server.js:27-34 | the missing folders above a path are made, then the node is put there; new keys come last |
| Snapshots.OneOutcomeExactly | tool/portal_mock_server.js:320-322 | every order of the keys leaves the same map exactly if the loop is untangled, and then it is the relocated map |
| Snapshots.OneOutcome | tool/portal_mock_server.js:360-366 | which map that is |
| Stores.StoresAgreeExactly | tool/portal_mock_server.js:320-322 | so for the map with its insertion order: two histories of the same tree give the same result exactly if the loop is untangled |
| Stores.RekeyIs | tool/portal_mock_server.js:320-322 | the loop, writing and deleting keys while it runs over a copy of them, keeps the order a list of all keys, never touches anything outside source and target, and untangled relocates |
| InsertionOrder.ThereExactly | tool/portal_mock_server.js:25-34 | after any history of changes a key is in the map exactly if it was set and not deleted since |
| InsertionOrder.HoldsLastGiven | tool/portal_mock_server.js:25-34 | and holds what it was last given |
| InsertionOrder.KeysInOrderOfArrival | tool/portal_mock_server.js:320 | the keys stand in the order of the changes with which they came: setting a key that is there does not move it, and one that comes again goes last |
| InsertionOrder.CameOnce | tool/portal_mock_server.js:320 | each key has exactly one such change, so the order is determined |
| Stores.BatchIs | tool/portal_mock_server.js:341-370 | an untangled batch gives the tree and the reports of `Requests`, whatever the order of the keys |
| Stores.RequestIs | tool/portal_mock_server.js:235-374 | so does any untangled request; tangled or not it leaves a map and the order of exactly its keys |
| Stores.RunIs | tool/portal_mock_server.js:282-371 | so does any run of untangled requests |
| Stores.GuardedIsUntangled | tool/portal_mock_server.js:282-371 | every guarded run is untangled |
| Storage.Server.Rekey | tool/portal_mock_server.js:320-322 | the loop runs over a copy of the keys in the order in which they were first set, and leaves nodes and order as `Stores.RekeyIs` characterises them, overlapping or not |
| Storage.Server.Mkdir | tool/portal_mock_server.js:301-309 | run in place, tree and reply are the ones that `TreeAnswers.MkdirExact` characterises |
| Storage.Server.Rename | tool/portal_mock_server.js:311-324 | run in place; by `Stores.RequestIs`, tree and reply are the ones that `Effects.RenameExact` and `TreeAnswers.RenameAnsweredExactly` characterise |
| Storage.Server.PutBegin | tool/portal_mock_server.js:282-287 | everything a PUT looks at before it waits for the body; with `PutEnd` the answer that `TreeAnswers.PutExact` characterises |
| Storage.Server.PutEnd | tool/portal_mock_server.js:288-290 | what it stores afterwards, without another look |
| Storage.Server.PlaceOf | tool/portal_mock_server.js:349-359 | where a source is put under each conflict policy, as `TreeAnswers.PlaceExact` characterises it |
| Storage.Server.Transfer | tool/portal_mock_server.js:341-370 | a batch of moves or copies run in place, each source in turn over the keys in their order, overlapping or not; untangled it is, by `Stores.BatchIs`, the batch of `Runs`, `BatchOrder` and `TreeRefinement` |
| Storage.Server.Delete | tool/portal_mock_server.js:341-348 | so for a batch of deletions |
| Storage.Server.Api | tool/portal_mock_server.js:235-374 | one authorised request, from the root check to the reply, with the order of the keys before and after; untangled it is the request that `TreeRefinement.RequestRefines` holds against the nested tree |
| RequestFacts.CrashStays | tool/portal_mock_server.js:353-355 | an exception ends a batch; what was done before stays done |
| RequestFacts.IdsStayFresh | tool/portal_mock_server.js:344 | deleting earlier items leaves the identifiers of later ones fresh |
| RequestFacts.BinStaysFree | tool/portal_mock_server.js:344-345 | the place in the bin for the next item is free |
| Replies.CountsAre | tool/portal_mock_server.js:369 | each of the three totals is the number of results with that outcome |
| Replies.RepliesReport | tool/portal_mock_server.js:341-370 | of every request of either kind: a batch reply reports each source as it was parsed, in order, and its totals count those reports |
| Replies.RefusedSourcesExactly | tool/portal_mock_server.js:333-337 | which list of sources is refused and how: none or more than 500, an unusable path or the root, the hidden folder, in this order |
| Replies.RefusedDestinationExactly | tool/portal_mock_server.js:340-345 | with usable sources: which refusal stands for which destination |
| Replies.Utf16LengthIs | tool/portal_mock_server.js:317 | the length of a name is one for each character, and one more for each beyond U+FFFF |
| Replies.AllowedExactly | tool/portal_mock_server.js:317 | a new name is allowed exactly if it is a segment other than ".", of at most 255 UTF-16 units, under which a request can name the item |
| RequestFacts.TotalsAddUp | tool/portal_mock_server.js:369-370 | completed, skipped and failed add up to the number of results; what each counts is said by `Replies.CountsAre` |
| Effects.PlaceIsInDestination | tool/portal_mock_server.js:349-359 | a source lands directly in the destination, and on itself only if it is there already |
| Effects.RenameExact | tool/portal_mock_server.js:311-324 | an accepted rename moves one subtree exactly if the new name differs; else it removes it |
| Effects.MoveExact | tool/portal_mock_server.js:341-368 | a move to a place that is free, whatever the policy, does what it is for exactly if the destination is neither the item's folder nor inside it; what happens otherwise |
| Effects.CopyExact | tool/portal_mock_server.js:341-368 | a copy to a place that is free grafts the subtree as it was; into the item's own folder it changes nothing |
| Effects.ReachableExactly | tool/portal_mock_server.js:349-359 | where a move or copy puts an item a request can name it, except under the hidden name at the root |
| Effects.DeleteExact | tool/portal_mock_server.js:343-348 | a deletion moves the whole item into the bin exactly if the bin's folder exists |
| Effects.BinIsApart | tool/portal_mock_server.js:344 | the bin is never below an item that a request can name |
| Replacing.ReplacesExactly | tool/portal_mock_server.js:350-366 | with replace, a moved or copied item takes the place of another, wherever the two lie, exactly if it is not moved into itself and nothing of the other one is left over |
| Replacing.OverFileNothingIsLeft | tool/portal_mock_server.js:350-366 | over a file nothing is ever left over |
| Replacing.OverlayKeepsExactly | tool/portal_mock_server.js:350-366 | the tree stays well-formed exactly if the item is not moved into itself and nothing left over loses its folder to a file |
| Replacing.BesideIsUntangled | tool/portal_mock_server.js:360-366 | items of which neither contains the other are never tangled |
| Replacing.ReplacedInPlace | tool/portal_mock_server.js:349-351 | with replace a taken name is the target itself, and it lies inside the item exactly if the destination does |
| TreeAnswers.MkdirExact | tool/portal_mock_server.js:301-309 | which reply stands for which state of the tree; a folder is made exactly where there is nothing yet and a folder above |
| TreeAnswers.PutExact | tool/portal_mock_server.js:282-291 | the same for PUT, with and without overwriting; afterwards exactly that file differs |
| TreeAnswers.RenameAnsweredExactly | tool/portal_mock_server.js:311-324 | a rename is accepted exactly if the item is there and nothing else has the name |
| TreeAnswers.PlaceExact | tool/portal_mock_server.js:349-359 | skipped, numbered with the least free number, or uncaught exception, by what the destination folder holds |
| TreeRefinement.RelocationRefinesExactly | tool/portal_mock_server.js:360-366 | one relocation does to the nested tree what it should exactly if it is tidy, wherever source and target lie |
| TreeRefinement.PlaceRefines | tool/portal_mock_server.js:349-359 | where an item goes, or that it is skipped or fails, is decided by the names in the destination folder |
| TreeRefinement.BatchRefines | tool/portal_mock_server.js:341-370 | a tidy batch is a fold of detach and graft over the nested tree, with the same reports |
| TreeRefinement.DeletionsRefine | tool/portal_mock_server.js:341-348 | so is a batch of deletions |
| TreeRefinement.RequestRefines | tool/portal_mock_server.js:235-374 | every tidy request does to the nested tree, and answers, what the file system of `TreeServer` does and answers |
| TreeRefinement.RunRefines | tool/portal_mock_server.js:282-371 | so over every tidy run, reply by reply |
| TreeRefinement.ServerRefines | tool/portal_mock_server.js:25-374 | and so for the server's own map with its insertion order |
| Seeds.SeedKeepsExactly | tool/portal_mock_server.js:27-34 | a seed keeps the tree well-formed exactly if no file stands above it and a file does not cover anything |
| Seeds.PlantedIsWellFormed | tool/portal_mock_server.js:27-44 | seeds of which no file stands above another give a well-formed tree, in any order |
| Seeds.StartIsSound | tool/portal_mock_server.js:35-44 | the tree at start-up is well-formed and has the bin |
| Seeds.ManyFileIs | tool/portal_mock_server.js:43 | the names of the 260 files have twelve characters: "file-", the number in three digits, ".txt" |
| Seeds.Start | tool/portal_mock_server.js:35-44 | the calls of seed, with their loop over 260 files, build that tree, and the order of its keys |
| Seeds.SoundFromTheStart | tool/portal_mock_server.js:25-44 | after any guarded run from start-up, over the keys in their order, the tree is well-formed, and whatever was in the bin at any time of the run is there as it was |
| Conservation.ContentsRemove | tool/portal_mock_server.js:322 | the multiset of file contents does not depend on the order of the keys |
| Conservation.ContentsCount | tool/portal_mock_server.js:25-26 | each content is counted once for every place where a file holds it, and folders count for nothing |
| Conservation.ContentsRekeyed | tool/portal_mock_server.js:320-322 | re-keying a subtree keeps its contents |
| Conservation.MoveConserves | tool/portal_mock_server.js:360-366 | moving to a free place keeps the multiset of all contents exactly |
| Conservation.CopyAdds | tool/portal_mock_server.js:360-366 | copying adds exactly the contents of the subtree |
| Conservation.OwnTargetLoses | tool/portal_mock_server.js:360-366 | moved onto itself, exactly the contents of the subtree are lost |
| Accounting.RelocationBalances | tool/portal_mock_server.js:320-322 | wherever an item goes, exactly the contents that are written over and not taken along are lost, and a copy adds its own once more |
| Accounting.RekeyBalances | tool/portal_mock_server.js:320-322 | so for the loop over the keys in their order; tangled, what each turn writes over is lost |
| Accounting.NothingLostExactly | tool/portal_mock_server.js:360-366 | nothing is lost exactly if what is written over, and not taken along, are folders; only then does a move keep all contents |
| Accounting.BatchBalances | tool/portal_mock_server.js:341-370 | so for whole batches under each policy, `replace` included |
| Accounting.RequestBalances | tool/portal_mock_server.js:235-374 | so for every request, guarded or not, tangled or not |
| Accounting.RunBalances | tool/portal_mock_server.js:282-371 | over every run of the server, whatever is asked for: what there is at the end and what was written over on the way make up what there was and what was added |
| Runs.TransferKeeps | tool/portal_mock_server.js:341-368 | a guarded batch that skips or keeps both keeps the tree sound, the bin and all contents, and none of its loops is tangled |
| Runs.ReplaceAllKeeps | tool/portal_mock_server.js:341-368 | a guarded batch that replaces, also where one item contains the other, keeps the tree sound and the bin, and none of its loops is tangled |
| Runs.DeleteKeeps | tool/portal_mock_server.js:343-348 | so does a batch of deletions, keeping contents exactly |
| Runs.RenameKeeps | tool/portal_mock_server.js:311-324 | so does a rename to another name |
| Runs.PutKeeps | tool/portal_mock_server.js:282-291 | so does a PUT, except for the contents it overwrites when asked to |
| Runs.ApplyKeeps | tool/portal_mock_server.js:235-374 | any one guarded request keeps the tree sound and the bin unchanged, loses nothing unless it overwrites, and its loops have one outcome |
| Runs.RunKeeps | tool/portal_mock_server.js:282-371 | over every run of guarded requests: the tree stays sound, whatever is put into the bin at any time stays there unchanged, no content is lost from where nothing more is overwritten, and the multiset of contents is exactly kept from where things only move |
| BatchOrder.BatchAsExpected | tool/portal_mock_server.js:341-370 | without a revealing pair, result and reports of a batch can be read off the tree before it |
| BatchOrder.OrderMattersExactly | tool/portal_mock_server.js:341-370 | any two orders of the sources give the same tree and the same reports exactly if no source reveals another, missing one |
| BatchOrder.RevealMatters | tool/portal_mock_server.js:342 | with such a pair two orders report differently |
| BatchOrder.EverySourceReported | tool/portal_mock_server.js:367-370 | every source is reported once, in order, and the totals add up to the number of sources |
| Paging.ListedExactly | tool/portal_mock_server.js:166-169 | a folder lists exactly the items whose parent it is |
| Paging.Sorted | tool/portal_mock_server.js:168 | the listing is increasing and has exactly the names of the folder |
| ListingOrder.BeforeExactly | tool/portal_mock_server.js:168 | the order of names: at the first UTF-16 unit in which they differ the smaller comes first, and a name before what it begins |
| Paging.PageIsNext | tool/portal_mock_server.js:250-257 | a page is what comes next after the cursor, and the rest comes after the next cursor |
| Paging.FollowFindsAll | tool/portal_mock_server.js:250-258 | while names are only added, the followed pages increase strictly and miss nothing that was there at first |
| Paging.VisibleNamesComeOnce | tool/portal_mock_server.js:253-258 | so for what the client is shown: the hidden folder is filtered out after slicing, and every visible name comes exactly once |
| Paging.RequestsNeeded | tool/portal_mock_server.js:253-257 | an unchanged listing of n names takes exactly floor(n / limit) + 1 requests |
| Paging.RestIsCompleteExactly | tool/portal_mock_server.js:252 | what is listed after a cursor is all there is after it exactly if its name is still listed or nothing comes after it anyway |
| Paging.FollowIncreases | tool/portal_mock_server.js:250-258 | whatever is added and removed between requests, the names increase strictly and each was listed |
| Paging.LastingNameComesExactly | tool/portal_mock_server.js:250-258 | a name listed at every request comes exactly if no cursor before it had gone when it was sent back |
| Paging.RemovedCursorMisses | tool/portal_mock_server.js:252 | two requests at which a name that is there throughout is never shown |
| PagedListing.RequestsFollowListings | tool/portal_mock_server.js:243-259 | a client that sends back each cursor follows the folder's listings of the moment, with the hidden folder taken out |
| PagedListing.EveryItemShownOnce | tool/portal_mock_server.js:243-259 | while a folder's items are only added to, whatever else happens to the tree, names come in strictly increasing order, and when there is no further cursor every visible item of the beginning came exactly once |
| PagedListing.LastingItemShownExactly | tool/portal_mock_server.js:243-259 | for any changes to the tree between requests: names increase strictly, each was an item, and an item there throughout is shown once exactly if no request before it lost its place, else never |
| PagedListing.NothingMissedExactly | tool/portal_mock_server.js:243-259 | a finished listing misses nothing that was there throughout exactly if no request lost its place before such an item |
| PagedListing.FrozenRequestsNeeded | tool/portal_mock_server.js:248-257 | a folder of n items in an unchanged tree takes exactly floor(n / limit) + 1 requests |
| PagedListing.EntriesRefusedExactly | tool/portal_mock_server.js:243-249 | which refusal stands for which state of the tree and which limit |
| Directory.PageIsServerPage | tool/portal_mock_server.js:250-257 | the pages the view receives are those of the server's listing |
| Directory.LatestKeeps | assets/portal/portal.js:656-665 | the answer to the latest request adds exactly the next page |
| Directory.NextKeeps | assets/portal/portal.js:641-674 | every event keeps what is shown a number of leading pages of the current folder |
| Directory.RunShowsPrefix | assets/portal/portal.js:448-470 | so over every interleaving of routes, refreshes, further pages, late and failed responses |
| Directory.SortedInOrder | assets/portal/portal.js:634-639 | the same entries, no file before a folder, and two of one kind as the collator has them |
| Directory.FolderView.LoadDirectory | assets/portal/portal.js:641-656 | the counter, the reset and the query of one request |
| Directory.FolderView.OnResponse | assets/portal/portal.js:657-672 | what a response or a failure changes, and that only the latest may |
| Directory.FolderView.RouteTo | assets/portal/portal.js:448-470 | run in place, the step that `Navigation.RouteExactly` characterises; a known root and its path are selected and asked for |
| Directory.FolderView.EnterApp | assets/portal/portal.js:398-420 | the roots become known and the hash is followed |
| Navigation.RouteExactly | assets/portal/portal.js:448-470 | a hash with a known root leads to its root and its path, any other to the top of the first default root, else of the first root, else nowhere; there the first page is asked for and nothing is shown yet |
| Navigation.OtherStepsExactly | assets/portal/portal.js:641-674 | a refresh begins the same folder anew, the button asks for what follows the cursor, a late answer is dropped, a failure of the latest is reported over what is shown |
| Navigation.LiveExactly | assets/portal/portal.js:398-420 | over every run: the page is live exactly if it was entered and the session not ended since, with the roots it was last given |
| Navigation.RunIsWhereItWasLed | assets/portal/portal.js:448-470 | over every interleaving: the page is where the last hash it followed leads, whatever was answered, refreshed or loaded since |
| Navigation.GoToShows | assets/portal/portal.js:442-470 | from `goTo(r, p)` until another hash is followed, the page is in that folder and shows nothing but leading pages of it |
| Navigation.BarNamesThePlace | assets/portal/portal.js:448-470 | whatever stood in the address bar, afterwards it names the place the page is at, so that loading it anew leads there again |
| Navigation.SettledShowsWhole | assets/portal/portal.js:641-674 | over every interleaving: a page that is neither loading nor failed and has no further cursor shows the whole folder; it is loading exactly while its latest request is unanswered |
| Navigation.PagesCome | assets/portal/portal.js:641-674 | from any state of any run, a folder gone to is shown page after page, and wholly after as many further pages as 200 goes into its size |
| Navigation.RunInOrder | assets/portal/portal.js:634-639 | what is shown is in order at every moment of every run |
| Navigation.ShownExactly | tool/portal_mock_server.js:253-256 | every entry of a page is shown as often as it is there, and the hidden folder not at all |
| Uploads.NextKeeps | assets/portal/portal.js:1103-1285 | every callback keeps the queue's invariant |
| Uploads.RunKeeps | assets/portal/portal.js:1232-1285 | over every interleaving at most one item is in flight, items start in order, each is sent at most once plain and then at most once to overwrite, to the folder and root it was queued for |
| Uploads.NextMoves | assets/portal/portal.js:1265-1285 | statuses only move forward, requests are only added, and the queue never rests by itself while something waits |
| Uploads.StrandedExactly | assets/portal/portal.js:1271-1277 | the one event that leaves items waiting with a session and nobody sending |
| Uploads.NextSends | assets/portal/portal.js:1232-1247 | a callback makes at most one request |
| Uploads.UserWaits | assets/portal/portal.js:1266 | while the server is waited for, the user's events make none |
| UploadQueue.PortalUploads.QueueUploads | assets/portal/portal.js:1103-1121 | the loop that puts files in, and the start of the pump |
| UploadQueue.PortalUploads.SendNext | assets/portal/portal.js:1271-1283 | the first waiting item is sent, or the pump rests |
| UploadQueue.PortalUploads.OnReply | assets/portal/portal.js:1235-1262 | run in place, the step that `UploadReplies.ReplyExactly` and `UploadReplies.ConflictExactly` characterise |
| UploadQueue.PortalUploads.OnAnswer | assets/portal/portal.js:1225-1229 | run in place, the step that `UploadReplies.AnswerExactly` characterises; a closed dialog means skip |
| UploadReplies.ReplyExactly | assets/portal/portal.js:1248-1260 | an item is done exactly for a 2xx and failed for any other reply, only a 401 ends the session, and the queue goes on with the first waiting item |
| UploadReplies.ConflictExactly | assets/portal/portal.js:1235-1247 | a conflict asks the user exactly if no answer is remembered; a remembered Replace sends the item to overwrite at once, a remembered Skip skips it |
| UploadReplies.AnswerExactly | assets/portal/portal.js:1219-1247 | Replace sends the item again, to overwrite; Skip or a closed dialog skips it; with the box ticked the answer is remembered |
| UploadReplies.QueueExactly | assets/portal/portal.js:1103-1121 | new items come last with the next numbers; a queue at rest forgets the remembered answer and begins, a running one goes on |
| UploadReplies.OtherEventsExactly | assets/portal/portal.js:1266-1275 | the list is emptied exactly if nothing waits or is sent, sessions leave it alone, and replies nobody waits for change nothing |
| UploadReplies.NoSecondQuestion | assets/portal/portal.js:1228-1236 | over every run: once answered for the rest, the answer holds and no question is asked until the queue comes to rest |
| UploadChoices.PolicyIsFromThisRun | assets/portal/portal.js:1228-1268 | an answer in memory was given in the present run of the queue |
| UploadChoices.ReplacedOnlyByChoice | assets/portal/portal.js:1236-1247 | a file is sent to overwrite only after the server said that it is there and the user answered Replace, for it or for the rest of this run |
| UploadSafety.SafeStepExactly | tool/portal_mock_server.js:282-291 | a step changes an existing file only for the very item for which Replace was chosen, exactly if it does not clobber |
| UploadSafety.SafeRunExactly | tool/portal_mock_server.js:282-291 | so over every run of the page and the server together, whatever requests linger |
| UploadSafety.StepIsSafe | tool/portal_mock_server.js:284-289 | with the server's check before and write after the body, no step short of a lingering request clobbers |
| UploadSafety.RunIsSafe | tool/portal_mock_server.js:282-291 | so every run in which no request lingers is safe |
| UploadSafety.PageIsRun | assets/portal/portal.js:1232-1285 | the page of the composed system is the upload queue, run on what the server answered and the user did |
| UploadSafety.OriginalsSurvive | assets/portal/portal.js:1219-1263 | over a safe run every file of the start is still there, and one that changed was stored for an item for which the user had answered Replace, for it or for the rest of that run of the queue |
| UploadSafety.LingeringReplaces | tool/portal_mock_server.js:284-289 | a run in which a request given up as failed goes on, and a file is replaced unasked |
| UploadOutcomes.DoneStep | assets/portal/portal.js:1248-1260 | of every event: a 2xx for an item makes that item done, and nothing else makes any item done |
| UploadOutcomes.ToldExactly | tool/portal_mock_server.js:282-291 | the page hears a 2xx for an item exactly when the server has just stored its body |
| UploadOutcomes.DoneExactly | assets/portal/portal.js:1232-1285 | over every run of page and server, whatever lingers or fails: an item is shown as done exactly if the server stored it, with its own bytes, at the path it was queued for, and said so |
| UploadOutcomes.AwaitedIsOpen | assets/portal/portal.js:1193-1217 | over every run the page never waits in vain: the request it waits for is on its way or with the server |
| UploadOutcomes.UndisturbedIsDone | tool/portal_mock_server.js:282-291 | a request that the server would take, and that nothing disturbs, is stored there and shown as done |
| PublicLink.UsesAreAccounted | tool/portal_mock_server.js:96-106 | however uploads overlap, uses given are uses left plus files stored, none is overdrawn, no existing file changes |
| PublicLink.UsableExactly | tool/portal_mock_server.js:97-98 | the name a file may have is the one sent without the spaces around it, if that is a segment not beginning with a dot |
| PublicLink.SpacesAre | tool/portal_mock_server.js:97 | what `trim` removes, character by character (sections 12.2 and 12.3 of ECMA-262) |
| PublicLink.PlacedProperlyExactly | tool/portal_mock_server.js:97-104 | whatever name is sent, a stored file is properly placed exactly if the shared folder is still there |
| PublicLink.FinishedExactly | tool/portal_mock_server.js:99-105 | 413 exactly if the body is too large, 410 exactly if else no use is left, 201 otherwise; then, and only then, the file is stored under the plain name or the least free numbered one, with base and extension kept, and a use is counted |
| PublicLink.FreeTargetIs | tool/portal_mock_server.js:102-103 | which place that is |
| PublicLink.OverlapIsInTurn | tool/portal_mock_server.js:96-106 | however uploads overlap, the server ends as if the files had been sent one by one in the order in which their bodies came in, so the first acceptable ones are stored |
| PublicLink.FirstAcceptableStored | tool/portal_mock_server.js:96-106 | handled one after another, exactly the first acceptable files are stored, as many as there are uses |
| PublicLink.VisitInTurn | assets/portal/public.js:344-365 | items are sent first in, first out, each once, one at a time, and the queue rests only when all are sent |
| PublicLink.VisitorStoresFirst | assets/portal/public.js:344-399 | of the files that reached the server exactly the first acceptable ones are stored |
| PublicLink.UnbrokenVisitStoresFirst | assets/portal/public.js:344-399 | if no request breaks, so of all files picked |
| LinkUploads.UploadLink.Begin | tool/portal_mock_server.js:97-98 | an accepted name is a segment, does not begin with a dot, and is the sent one without the spaces around it; a name is refused only if there is no such segment |
| LinkUploads.UploadLink.FindTarget | tool/portal_mock_server.js:102-103 | the loop that counts up to a free name, and that it ends |
| LinkUploads.UploadLink.End | tool/portal_mock_server.js:99-105 | run in place, the step that `PublicLink.FinishedExactly` characterises |
| LinkUploads.VisitorPage.Queue | assets/portal/public.js:344-351 | a picked file is queued and the queue set going |
| LinkUploads.VisitorPage.SendNext | assets/portal/public.js:355-365 | the first file not yet started is sent, unless one is being sent |
| LinkUploads.VisitorPage.OnSettled | assets/portal/public.js:361-364 | what follows a request, answered or broken |
| HashRoute.Utf8RoundTrip | assets/portal/portal.js:109-111 | the UTF-8 form of a character (section 3 of RFC 3629) reads back as the character |
| HashRoute.DecodeEncode | assets/portal/portal.js:434 | percent-decoding (section 2.1 of RFC 3986) undoes encoding, for every string |
| HashRoute.EncodedIsPlain | assets/portal/portal.js:423-425 | an encoded segment holds nothing that separates parts of a hash |
| HashRoute.HashRoundTrip | assets/portal/portal.js:423-440 | parsing a built hash gives back root and path |
| HashRoute.HashIsInjective | assets/portal/portal.js:442-446 | different places have different hashes, so an equal hash is the same place |
| HashReading.Utf8Table | assets/portal/portal.js:109-111 | the octets of a character are those of the table in section 3 of RFC 3629 |
| HashReading.FromUtf8Exactly | assets/portal/portal.js:434 | octets are read as a character exactly if they are its octets, so overlong forms and surrogates are refused |
| HashReading.HexDigitsAre | assets/portal/portal.js:109-111 | hexadecimal digits are written as capitals and read in both cases |
| HashReading.EncodedExactly | assets/portal/portal.js:109-111 | letters, digits and nine marks are left as they are, every other character is escaped octet by octet |
| HashReading.DecodeExactly | assets/portal/portal.js:434 | any string, also one the page did not write, is read exactly if it is made up of characters and escapes of their octets, as what these spell |
| HashReading.ReadExactly | assets/portal/portal.js:427-440 | any fragment names a place exactly if it is "#/", a spelled root and, after a slash, spelled segments; without that slash the place is the top; `parseHash` returns null exactly for the others |
| Ranges.RecogniseNumbers | tool/portal_mock_server.js:195-198 | two strings of digits around a dash are read as their numbers |
| Ranges.RecognisedExactly | tool/portal_mock_server.js:195-196 | a header is acted on exactly if it has the form of the expression |
| Ranges.ServeFile | tool/portal_mock_server.js:192-205 | start, end and status, settled step by step, give the response that `Ranges.MeetsExactly` holds against RFC 9110 |
| Ranges.MeetsExactly | tool/portal_mock_server.js:195-205 | the response is what section 14 of RFC 9110 asks for, except for a reversed range that starts inside the file and a suffix of an empty file |
| Ranges.RefusedExactly | tool/portal_mock_server.js:199 | 416 is answered exactly if the range is unsatisfiable, or a suffix of an empty file |
| Ranges.ReversedMisstates | tool/portal_mock_server.js:198-203 | what a reversed range is answered with |
| Ranges.HeadAnnouncesGet | tool/portal_mock_server.js:205 | HEAD announces what GET would send |
| Ranges.PiecesMakeTheFile | tool/portal_mock_server.js:195-205 | whatever the cuts, the bodies of consecutive ranges make up the file |
| Ranges.ResumeMakesTheFile | tool/portal_mock_server.js:198-205 | a download resumed where it stopped gives the whole file |
| Ranges.RoundingIsHarmless | tool/portal_mock_server.js:197-198 | for files up to 2^53 bytes the rounding of large numbers makes no difference |
| PickerProtocol.NextKeeps | android/app/src/main/kotlin/com/vaultbox/app/storage/SafStorageHostApi.kt:307-341 | the slot is empty or holds the most recent launch, still waiting; each launch only advances |
| PickerProtocol.RunKeeps | android/app/src/main/kotlin/com/vaultbox/app/storage/SafStorageHostApi.kt:307-341 | so over every interleaving of launches, results, dispatches and cancellations |
| PickerProtocol.FatesAdvance | android/app/src/main/kotlin/com/vaultbox/app/storage/SafStorageHostApi.kt:326-328 | no continuation is resumed twice, and an ended one stays as it ended |
| PickerProtocol.NobodyHangsExactly | android/app/src/main/kotlin/com/vaultbox/app/storage/SafStorageHostApi.kt:325-328 | in a run nobody ever hangs exactly if no launch is cancelled between having its value and being dispatched while a later one waits |
| PickerProtocol.HangsUntilCancelled | android/app/src/main/kotlin/com/vaultbox/app/storage/SafStorageHostApi.kt:328 | who hangs is never heard again until it is cancelled itself |
| PickerProtocol.LateCancelHangs | android/app/src/main/kotlin/com/vaultbox/app/storage/SafStorageHostApi.kt:326-328 | four events that make a caller hang |
| PickerProtocol.ResultsGivenOnce | android/app/src/main/kotlin/com/vaultbox/app/storage/SafStorageHostApi.kt:370-382 | no result is given to two callers |
| PickerProtocol.NextExactly | android/app/src/main/kotlin/com/vaultbox/app/storage/SafStorageHostApi.kt:307-341 | what each event does to every launch there is, to the slot and to a new launch |
| PickerProtocol.ResultReaches | android/app/src/main/kotlin/com/vaultbox/app/storage/SafStorageHostApi.kt:312-316 | over every run: the launch in the slot when a result comes is given exactly that value and returns it, unless it is cancelled before it is dispatched |
| PickerProtocol.SupersededGetsNothing | android/app/src/main/kotlin/com/vaultbox/app/storage/SafStorageHostApi.kt:318-328 | over every run: a launch superseded before its result, or made with nobody listening, returns nothing, unless cancelled first |
| Pickers.ActivityLauncher.LaunchPicker | android/app/src/main/kotlin/com/vaultbox/app/storage/SafStorageHostApi.kt:318-340 | launching, bound or not, takes exactly the step of the protocol |
| Pickers.ActivityLauncher.OnResult | android/app/src/main/kotlin/com/vaultbox/app/storage/SafStorageHostApi.kt:312-316 | so does a result, by `PickerProtocol.NextExactly` given to the launch in the slot |
| Pickers.ActivityLauncher.OnCancellation | android/app/src/main/kotlin/com/vaultbox/app/storage/SafStorageHostApi.kt:393 | so does a cancellation, whoever is in the slot |
| Pickers.GatherUris | android/app/src/main/kotlin/com/vaultbox/app/storage/SafStorageHostApi.kt:374-380 | all picked documents, else the single one, else none |
| FailingInputs.OrderMattersHere | tool/portal_mock_server.js:341-370 | two sources whose order matters: one puts the other where it was not |
| FailingInputs.ReplacingBreaksHere | tool/portal_mock_server.js:350-366 | a file moved over a folder, whose content then lies below a file |
| FailingInputs.FolderBecomesFileHere | tool/portal_mock_server.js:350-366 | a file moved over the folder it is in |
| FailingInputs.HiddenByMoveHere | tool/portal_mock_server.js:349-366 | a file moved to the root, where no request can name it |
| FailingInputs.SnapshotOrderMattersHere | tool/portal_mock_server.js:360-366 | in any tree with a free name: three folders are made and two files stored, in either order; a move with replace then keeps both or loses one |
| FailingInputs.CrashesHalfWayHere | tool/portal_mock_server.js:353-355 | a batch that ends with an exception after its first source has been moved |
| FailingInputs.StrandedHere | assets/portal/portal.js:1271-1277 | five events after which a file waits and nobody will send it |
| FailingInputs.UploadAfterDeleteHere | tool/portal_mock_server.js:51-105 | from start-up, the folder of its upload link is deleted and the next upload that fits lies below no folder |

## Left out

- Runs.DeleteKeeps: assumes that random identifiers are fresh and of equal length, as `crypto.randomUUID` promises.
- Runs.RunKeeps: leaves out unguarded requests; what these do is stated by `Effects`, `Replacing` and `Accounting`.
- TreeRefinement.ServerRefines: leaves out requests that are not tidy; `TreeRefinement.RelocationRefinesExactly` says that such a relocation does not do what it should.
- UploadSafety.RunIsSafe: no other client changes the server, and bodies arrive whole or not at all.
- Directory.RunShowsPrefix: the listing on the server does not change while it is looked at.
- Ranges.MeetsExactly: one range per header; the server ignores lists of ranges.
- Modification times, MIME types and the other fields of a listed entry.
- JSON bodies of the wrong shape, the body size limit of 16384 bytes, HTTP methods, CORS and security headers.
- Page limits that are not whole numbers.
- Login, passwords, sessions on the server, download tickets and unlock proofs; a session that ends is an event.
- The listing and download branches of a public link, apart from the path they serve.
- The `card` root is read-only and shares the tree of `phone`, as in the source.
- Strings are sequences of Unicode scalar values, so lone surrogates, on which `encodeURIComponent` throws, do not occur; lengths and the listing order are those of UTF-16.
- Numbers are exact; where `Number` rounds, `Ranges.RoundingIsHarmless` says that it does not matter.
- `Intl.Collator` is any total preorder, and the browser's sort any function that sorts stably.
- How a browser normalises the fragment of a URL, and its history.
- The folder a file is queued for is an input of the upload queue; the page passes the one it is in.
- Progress bars, the refresh of the folder after a run of uploads, dialogs as widgets, and all rendering.
- Which of several open pickers a result came from: Android does not say, and the launcher does not ask.
- `bind` with a function that throws, and what happens when starting the Activity fails.
- The Dart server, the repositories behind it, and the SAF, FTP and WebDAV handlers are not part of this model.
