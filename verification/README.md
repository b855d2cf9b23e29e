# Verified model of the file tree, its name encryption and its neighbours

The server keeps each user's files in a filecache table whose rows carry an id, a parent id, a name and
a materialised path. For users with encrypted names the stored names are tokens, one per path segment, each keyed
by its parent folder; callers go on speaking plaintext paths. This project models those two layers and proves that
the second one behaves as the first, then models what is built around them: the whole-tree migration between the
two name schemes, key sharing, write locks, free/busy lists and chunked uploads.

The project is checked with `dafny verify dfyconfig.toml`.

| module | what it models |
|---|---|
| `Common`, `Paths` | results and errors; canonical paths, `NormalizePath`, prefixes and their rewriting |
| `Filecache`, `Sizes`, `SqlStore`, `Dav` | the table as a map from id to row, the tree invariant, the size equation, the raw store as a class, and purge and move on top of it |
| `NameTranslation`, `AnchoredNames`, `Refinement`, `Resolution`, `MoveRefinement`, `StoreRuns`, `Translator` | tokens, the two path walks, the plaintext view of a stored table, what every path resolves to, each translated operation against the plaintext operation on the view, whole runs of operations, and the translating store as a class |
| `SweepPlan`, `NameSweep`, `Satellites`, `SweepCommit`, `SweepUndo`, `SweepRace`, `TrashIds` | the sweep: load, breadth-first plan, satellite paths, transaction, its inverse, races, fresh trash ids |
| `KeyShares`, `Locks` | the wrap protocol of a new file; the lock check, also through a mount |
| `Instances` | small concrete tables and runs on which the premises of the main theorems hold, so that none of them is empty, and inputs on which the length limits bite |
| `FreeBusy`, `Recurrence`, `Chunks` | interval merging, recurrence expansion and the range index; assembling an upload |

How the parts fit together:

- `Tree` is the invariant of the table: unique paths, and every path is its parent directory's path joined with
  the row's name. `Sealed` is a uniform scheme-1 tree: every folder has a key and every stored name is a token of
  its folder. `View` is the abstraction function from a sealed table to the plaintext table. `WithinBudget` says that
  stored names and paths respect the limits of 255 runes and 768 characters which every resolution enforces; it holds
  exactly when every stored row can be reached by its plaintext path (`BudgetIsResolvability`).
- An operation that changes state is a method, proved equal to a function on tables (`RenameIn`, `InsertInto`,
  `DeleteFrom`, `Rename`, `Commit`, ...). The lemmas then say what that function means for the caller.
- The name cipher is a parameter. Its hypotheses (`NameTranslation.Sound`) are: the token of a non-empty name is a proper
  path segment, decrypting it under the same key gives the name back, and no token decrypts to the empty name. A small
  cipher that satisfies them is given (`ClearSound`).
- Times, fresh ids, the database's row order, LIKE's case folding, the If header and fresh keys are parameters or
  arbitrary values.

Properties that fail on the code as it stands, with the exact condition under which the code meets them and, where the
condition does not show it at once, a concrete input on which it does not:

- The raw rename has no guard against a destination below the source. It keeps the tree invariant if and only if
  the destination is not below the source (`RenameKeepsTree`, input in `RenameBelowItselfBreaksTree`), and the translated
  rename leaves a sealed tree under the same condition on plaintext paths (`RenameExact`).
- The raw insert stores the caller's name without comparing it to the path. It keeps the invariant if and only if that
  name is empty or the path's own (`InsertKeepsTree`, input in `InsertOtherNameBreaksTree`). The translated insert always
  keeps the stored tree; it stays sealed if and only if the name is a proper one and a new directory brings its key
  (`InsertExact`, input in `KeylessFolderNotSealed`).
- The translated rename checks the length of the moved entry only. The tree stays within budget if and only if the paths
  below the source still fit after the change of prefix (`RenameBudget`); otherwise some row can no longer be reached
  (input in `RenameOverBudget`).
- The sweep converts satellite paths without the 255-rune check of the stores. A converted row is found at its old path
  if and only if its leaf name is within that limit (`SatelliteFound`, input in `LongLeafNotFound`).
- A trash id made by the sweep is valid again if and only if the new basename, cut to 200 bytes, holds no slash and no two
  dots in a row and does not end in a dot, and basename, old suffix and number fit into 255 bytes; the number is below the
  number of trash rows (`PlanTrash`, `NewIdValid`, input in `TrailingDotInvalid`).
- A sweep does not commit on every table: the unique index stops it if and only if a planned path is still the stored path of
  a row whose turn comes later, or a satellite row meets the key of another (`SweepCommitsIff`, input in `SweepStopped`).
- The sweep's comment says that satellite rows whose paths no longer resolve are skipped. The decrypting direction opens
  each name before it looks it up, so it stops at such a row with an integrity error if and only if the name the way down
  ends at is no token of its folder (`DecryptionStopsIff`). A plaintext row which the encrypting sweep has skipped so keeps
  every later decrypting sweep from being planned (`PassedOverStopsUndo`, input in `StaleLockStopsUndo`).
- An overwriting move purges the destination first. It loses the source if and only if that lies at or below the
  destination (`Dav.Move`, input in `MoveOntoItselfLoses`). Had the storage let a folder be moved into itself, the
  recalculation would not end (`RecalcEndsIff`).
- The recalculation after an insert leaves all sizes right if and only if a new directory comes with size 0
  (`InsertRepairsSizes`).
- Unsharing can unwrap a recipient whom another share still covers (`OverlapLosesWrap`). A covered recipient is certain to
  end wrapped if and only if no unshare lists it (`AlwaysWrappedIffUntouched`).
- The range index drops busy time of a single event in some window if and only if the event ends more than one second
  before it starts (`IndexLosesNothing`, input in `EarlyEndDropped`). A window loses no busy time of any recurring event if and only if it starts by
  2100-01-01 (`RecurringWindows`, input in `IndexEndsIn2100`).
- Covered instants alone do not determine a merged busy list, because events without duration cover none and are listed
  (`EmptyIntervalsAreListed`). Two inputs merge to the same list if and only if their closed intervals contain the same
  points (`MergeCanonical`).

## Model

| member | source | states |
|---|---|---|
| `Paths.NormalizePath` | internal/files/path.go:31-66 | the stepwise normalisation computes: backslashes as slashes, one leading slash, no trailing slashes, every segment a proper name, else the invalid-path error |
| `Paths.NormalizeCanonical` | internal/files/path.go:31-66 | results are canonical, and canonical paths are fixed points, so normalising is idempotent |
| `Paths.NormalizeTrailing` | internal/files/path.go:31-66 | a trailing slash does not change what a path normalises to |
| `Paths.NormalizeLeading` | internal/files/path.go:31-66 | nor does a missing leading one |
| `Paths.NormalizeBackslashes` | internal/files/path.go:31-66 | nor backslashes in place of slashes |
| `Paths.NormalizeDecides` | internal/files/path.go:31-66 | what is left is taken as it is if it is canonical, and refused if not |
| `Paths.CanonicalIff` | internal/files/path.go:31-66 | canonical are the root and the paths with a leading slash, no empty, `.` or `..` part, no backslash and no NUL |
| `Paths.SegmentsOfRender` | internal/files/nametranslate.go:145-188 | the segment walk of a path built from proper names visits exactly those names |
| `Paths.JoinInjective` | internal/files/nametranslate.go:758-764 | joining a parent path and a name loses neither |
| `Paths.BelowJoin` | internal/files/sqlstore.go:354-372 | a child's path has the prefix `d/` exactly when its parent is `d` or has it |
| `Filecache.UnderIsPrefix` | internal/files/sqlstore.go:354-372 | in a tree, being a descendant in the parent relation is having the prefix in the path |
| `Filecache.AncestorStored` | internal/files/sqlstore.go:116-149 | every path above a stored path is stored and is a directory |
| `Filecache.RenameStepUnique` | internal/files/sqlstore.go:361-381 | paths stay unique after every single-row update of the rename loop, whichever rows are done |
| `Filecache.RenameKeepsTree` | internal/files/sqlstore.go:299-384 | a successful rename keeps the tree invariant if and only if the destination is not below the source |
| `Filecache.RenameBelowItselfBreaksTree` | internal/files/sqlstore.go:299-384 | a two-row tree on which the rename succeeds and breaks the invariant |
| `Filecache.RenameMovesSubtree` | internal/files/sqlstore.go:299-384 | precisely the descendants of the source get the destination prefix and the time of the rename, keeping name and parent; the source gets its new name and folder as well; every other row is untouched |
| `Filecache.LikeCoversBelow` | internal/files/sqlstore.go:335-352 | the pattern `src/%` matches everything below src, whatever wildcards src holds and however the database folds case |
| `Sizes.RootSizeIsUsage` | internal/files/sqlstore.go:499-506 | if every directory weighs what its children weigh, the root weighs the sum of all files |
| `Sizes.RecalcStep` | internal/files/sqlstore.go:517-545 | one turn repairs its directory and disturbs the sum of the parent only |
| `Sizes.RecalcRepairsAll` | internal/files/sqlstore.go:508-546 | if the size equation fails only on the chain above one entry, recalculating from there restores it everywhere and the root equals Usage |
| `Sizes.RenameSizes` | internal/files/dav.go:1166-1176 | a rename disturbs the sums of the old and the new parent only |
| `Sizes.MoveRepairsSizes` | internal/files/dav.go:1166-1176 | the recalculations from the old and the new parent restore all sizes even when their chains overlap |
| `Sizes.InsertSizes` | internal/files/sqlstore.go:116-205 | a new row disturbs the sum of its parent only |
| `SqlStore.InsertRepairsSizes` | internal/files/dav.go:729-757 | after an insert the recalculation from the new row's parent leaves all sizes right if and only if a new directory comes with size 0 |
| `Sizes.DropSizes` | internal/files/sqlstore.go:280-297 | a dropped subtree disturbs the sum of its parent only |
| `SqlStore.InsertKeepsTree` | internal/files/sqlstore.go:116-149 | a successful insert keeps the tree invariant if and only if the caller's name is empty or the path's own |
| `SqlStore.InsertOtherNameBreaksTree` | internal/files/sqlstore.go:116-149 | an insert at /b under the name c succeeds and breaks the invariant |
| `SqlStore.InsertAnswers` | internal/files/sqlstore.go:116-205 | on a tree the refusals exclude each other: parent missing, a file in its place and a taken path, each if and only if the table shows it; otherwise exactly the new row is added, with every column |
| `SqlStore.InsertRootAnswers` | internal/files/sqlstore.go:116-205 | the root goes into an empty table alone and is a nameless directory |
| `SqlStore.RenameAnswers` | internal/files/sqlstore.go:299-334 | each refusal of a rename if and only if the rows at source, destination and parent call for it |
| `SqlStore.DeleteExact` | internal/files/sqlstore.go:280-297 | the delete with its foreign-key cascade removes exactly the rows at or below the path and leaves a tree |
| `SqlStore.Cascade` | internal/files/sqlstore.go:280-297 | dropping a row and then orphans until none is left removes exactly the descendants |
| `SqlStore.SumKids` | internal/files/sqlstore.go:517-545 | the summing loop adds up the children's sizes |
| `SqlStore.Store.GetByPath` | internal/files/sqlstore.go:71-79 | finds the one row stored at the normalised path, or reports not found |
| `SqlStore.Store.UpdateMeta` | internal/files/sqlstore.go:207-217 | writes every column but the name scheme, refused by the unique index or the parent key, silent on an unknown id |
| `SqlStore.Store.Insert` | internal/files/sqlstore.go:116-205 | adds the row or fails with the invalid-path, parent-missing, not-a-directory or exists error and no change; afterwards the table is a tree if and only if the name is empty or the path's own |
| `SqlStore.Store.DeleteSubtree` | internal/files/sqlstore.go:280-297 | removes the subtree and keeps the tree, or fails without change; the root is refused |
| `SqlStore.Store.SelectSubtree` | internal/files/sqlstore.go:335-352 | returns the rows matching the LIKE pattern, each once, in any order |
| `SqlStore.Store.RenameBatch` | internal/files/sqlstore.go:354-382 | the loop over the over-matching batch ends in the renamed table and never meets the unique index |
| `SqlStore.Store.RenameSubtree` | internal/files/sqlstore.go:299-384 | all guards in order; on success the renamed table, otherwise no change; afterwards the table is a tree if and only if the destination is not below the source |
| `SqlStore.Store.EnsureRoot` | internal/files/sqlstore.go:42-69 | the one root row; it is created in an empty table, with size 0 and the given time, and nothing else changes |
| `SqlStore.Store.RecalcFrom` | internal/files/sqlstore.go:517-545 | the loop terminates, repairs the chain above the start and sets its times, touches nothing else, and leaves every other directory as good as it was |
| `SqlStore.Store.RecalcAncestors` | internal/files/sqlstore.go:508-546 | the same from the given parent, or from the root, which is created if needed, when there is none |
| `Dav.Dav.Purge` | internal/files/dav.go:970-1034 | removes exactly the rows at or below the path, keeps the tree and all sizes right, and gives the folders above it, and no others, the new time; files are untouched; the root and a missing path are refused without change |
| `Dav.Dav.MoveFree` | internal/files/dav.go:1105-1176 | rename and two recalculations give the renamed table with all files as they were, the new time on the folders above both ends and on no others, and the same usage; if sizes were right, all sizes are right |
| `Dav.Dav.Move` | internal/files/dav.go:1055-1176 | every outcome, the storage's refusal included: what was at the destination is gone and the source moved there with all else unchanged, file sizes and all times included, or the exact error; a source at or below an overwritten destination is lost; tree and sizes hold after every outcome |
| `Dav.RecalcEndsIff` | internal/files/sqlstore.go:508-546 | after a rename the recalculation from the new parent ends if and only if the destination is not below the source |
| `Dav.MoveOntoItselfLoses` | internal/files/dav.go:1086-1098 | a path moved onto itself with overwrite: the answer is not found and the row is gone |
| `Dav.Dav.Create` | internal/files/dav.go:729-757 | the new row is stored with every column the caller gave and all files stay as they were; the folders above it, and no others, get the new time; usage grows by the size of a new file; the tree is kept, and all sizes are right if and only if a new directory comes with size 0 |
| `Dav.UnderIsAbove` | internal/files/sqlstore.go:517-545 | the chain the recalculation climbs is exactly the folders whose paths are prefixes |
| `Dav.UsageGrows` | internal/files/sqlstore.go:499-506 | a new row adds its size to the usage, a directory nothing |
| `Dav.RenameKeepsUsage` | internal/files/sqlstore.go:499-506 | a rename conserves usage |
| `Dav.PurgeSizes` | internal/files/dav.go:1010-1034 | the recalculation from the parent repairs all sizes after a purge |
| `Dav.GuardAfterPurge` | internal/files/dav.go:1086-1098 | after the purge the rename succeeds if and only if the source was neither the root nor at or below the destination |
| `NameTranslation.WalkRoundTrip` | internal/files/nametranslate.go:145-188 | the tokens a successful walk produced are proper segments, and the reverse walk turns them back into the names |
| `NameTranslation.PathRoundTrip` | internal/files/nametranslate.go:314-357 | whenever cipherPath succeeds, on any table, PlainPath of the result is the normalised path |
| `NameTranslation.CipherPathInjective` | internal/files/nametranslate.go:145-188 | distinct normalised paths never share a ciphertext path |
| `NameTranslation.ViewIsTree` | internal/files/nametranslate.go:223-294 | the decrypted view of a sealed table satisfies the tree invariant |
| `NameTranslation.DecryptRowIsView` | internal/files/nametranslate.go:223-294 | decrypting any row up its parent chain succeeds and gives the row of the view |
| `NameTranslation.WalkAgrees` | internal/files/nametranslate.go:145-188 | a row is stored at the walk's result exactly when it is seen at the plaintext path |
| `NameTranslation.WalkFinds` | internal/files/nametranslate.go:145-188 | within budget the walk reaches the stored path of every row |
| `Refinement.ResolveAgrees` | internal/files/nametranslate.go:145-188 | when cipherPath succeeds, its result and the plaintext path name the same row or none |
| `Refinement.ResolveFinds` | internal/files/nametranslate.go:145-188 | within budget every row's plaintext path resolves to its stored path |
| `Refinement.BudgetIsResolvability` | internal/files/nametranslate.go:145-188 | the length budget holds if and only if every stored row resolves by its plaintext path |
| `Refinement.GetSound` | internal/files/nametranslate_stores.go:40-54 | whatever the translated lookup returns is the row the plaintext store holds there, budget or not |
| `Refinement.GetRefines` | internal/files/nametranslate_stores.go:40-54 | within budget the translated lookup is the plaintext lookup, found and absent |
| `Resolution.ResolvesInFolder` | internal/files/nametranslate.go:145-188 | a path whose parent folder is in the view resolves to its token there, stored or not, if and only if the name has at most 255 runes and the token path at most 768 characters |
| `Resolution.ResolutionEnds` | internal/files/nametranslate.go:145-188 | a path the way down to which ends does not resolve: not a directory where a file is in the way, not found where nothing is, or too long before that |
| `Resolution.GetInFolder` | internal/files/nametranslate_stores.go:40-54 | in a folder of the view the lookup gives the row that is there, and otherwise not found, or too long for a name that could not be stored |
| `Resolution.GetOutside` | internal/files/nametranslate_stores.go:40-54 | and the exact error where there is no folder |
| `Satellites.ParentOrEnd` | internal/files/nametranslate.go:145-188 | these are all the cases: a path has its parent folder, or the way down to it ends somewhere |
| `Refinement.TokenTaken` | internal/files/nametranslate_stores.go:101-147 | a token path is taken by a row exactly when the plaintext path is, by the same row |
| `Refinement.InsertRefines` | internal/files/nametranslate_stores.go:101-147 | a translated insert adds exactly the plaintext path; it fails with exists if and only if the plaintext insert does, and otherwise only where that fails or for length |
| `Refinement.InsertSound` | internal/files/nametranslate_stores.go:101-147 | budget or not, a successful insert of a row named as its path is the plaintext insert on the view |
| `Refinement.InsertExact` | internal/files/nametranslate_stores.go:101-147 | whatever row the caller passes: the stored table stays a tree, stays sealed if and only if the name is proper and a directory brings its key, and the view gains the one row at the caller's name |
| `Instances.KeylessFolderNotSealed` | internal/files/nametranslate_stores.go:101-147 | a folder inserted without a key: the insert succeeds and the table is no longer sealed |
| `MoveRefinement.DeleteRefines` | internal/files/nametranslate_stores.go:287-294 | a translated delete succeeds exactly when the plaintext one does and removes exactly that subtree of the view |
| `MoveRefinement.DeleteSound` | internal/files/nametranslate_stores.go:287-294 | budget or not, a successful delete is the plaintext delete on the view |
| `MoveRefinement.RenameRefines` | internal/files/nametranslate_stores.go:246-285 | the decrypted tree after a translated rename is exactly the plaintext tree with src moved to dst |
| `MoveRefinement.RenameExact` | internal/files/nametranslate_stores.go:246-285 | a successful translated rename leaves a sealed tree if and only if the plaintext destination is not below the source |
| `MoveRefinement.RenameComplete` | internal/files/nametranslate_stores.go:246-285 | within budget every plaintext rename is possible, unless the new entry itself is too long |
| `MoveRefinement.RenameBudget` | internal/files/nametranslate_stores.go:246-285 | the renamed tree stays within budget if and only if every path below the source still fits |
| `MoveRefinement.WriteBackKeepsTokens` | internal/files/nametranslate_stores.go:201-239 | writing back a row read through the boundary leaves its stored name and path as they were, and within budget it never fails |
| `MoveRefinement.UpdateRefines` | internal/files/nametranslate_stores.go:176-185 | updating size, time or, for a file, key of such a row keeps the table sealed and changes just that in the view; within budget it never fails |
| `MoveRefinement.UpdatePlaces` | internal/files/nametranslate_stores.go:201-239 | any encrypted row written back goes under the token of its name in the folder its parent id names; it is refused if and only if that is too long or another row has that plaintext path |
| `MoveRefinement.UpdateRefuses` | internal/files/nametranslate_stores.go:201-239 | a row without a parent, or with one that is gone, is not written back |
| `MoveRefinement.PlainWriteBack` | internal/files/nametranslate_stores.go:201-239 | a scheme-0 row with another size, time or key is written back as it is, under a user of either scheme |
| `MoveRefinement.PlainGet` | internal/files/nametranslate_stores.go:40-54 | for a plaintext user the translated lookup is the raw lookup |
| `MoveRefinement.PlainReadWrite` | internal/files/nametranslate_stores.go:176-185 | for a plaintext user a row that was read and written back changes in those columns only |
| `MoveRefinement.DualRead` | internal/files/nametranslate.go:267-294 | an encrypted row below plaintext folders is read with its own name decrypted and the folders verbatim |
| `MoveRefinement.PlainPaths` | internal/files/nametranslate.go:145-188 | paths of a plaintext user are not translated in either direction |
| `StoreRuns.StepRefines` | internal/files/nametranslate_stores.go:101-294 | every successful insert, delete, rename or update within the callers' discipline keeps the table sealed and is the plaintext operation on the view |
| `StoreRuns.DisciplineNeeded` | internal/files/nametranslate_stores.go:101-285 | a successful insert or rename leaves a sealed table and the plaintext result if and only if it keeps to that discipline |
| `StoreRuns.RunRefines` | internal/files/nametranslate_stores.go:101-294 | after any sequence of operations whose successful ones keep to the discipline where they are applied, the view is what a plaintext store has after the successful ones, none of which fails there |
| `StoreRuns.StepComplete` | internal/files/nametranslate_stores.go:101-294 | within budget an operation that fails also fails in the plaintext store, or is too long |
| `StoreRuns.StepBudget` | internal/files/nametranslate_stores.go:101-294 | a step keeps the budget if and only if it is not a rename that pushes something below the source over the limit |
| `StoreRuns.RunAnswers` | internal/files/nametranslate_stores.go:40-54 | after any such run without a rename that overflows, every plaintext path is answered as the plaintext store answers it |
| `Instances.RenameOverBudget` | internal/files/nametranslate_stores.go:246-285 | a sealed tree and a rename that succeeds and takes the file below the source out of reach |
| `AnchoredNames.AnchoredAgrees` | internal/files/nametranslate.go:643-685 | if the root walk reaches the anchor, anchored and root resolution give the same answer, errors included; otherwise the root walk fails as it does at the anchor |
| `AnchoredNames.AnchoredEqualsRoot` | internal/files/nametranslate.go:643-685 | within budget CipherPathUnder(anchor, rel) equals cipherPath of the anchor's plaintext path extended by rel |
| `AnchoredNames.AnchoredReadsBelow` | internal/files/nametranslate.go:643-685 | anchored resolution depends on no row at or above the anchor |
| `AnchoredNames.DecryptUnderAgrees` | internal/files/nametranslate.go:693-755 | with the anchor's plaintext path as mount, every row at or below it gets the name and path decryptRow gives |
| `AnchoredNames.DecryptUnderMount` | internal/files/nametranslate.go:693-755 | under any mount the anchor gets the mount's path and every row below it the mount's path extended by the plaintext names between the two |
| `AnchoredNames.DecryptUnderRefuses` | internal/files/nametranslate.go:693-755 | a row above or beside the anchor is refused |
| `AnchoredNames.DecryptReadsBelow` | internal/files/nametranslate.go:693-755 | anchored decryption depends on no row at or above the anchor |
| `Translator.WalkSegments` | internal/files/nametranslate.go:145-188 | the segment loop, on the mutable store, computes the walk the lemmas are about |
| `Translator.ResolvePath` | internal/files/nametranslate.go:145-188 | cipherPath for either scheme, errors included |
| `Translator.ResolvePathUnder` | internal/files/nametranslate.go:643-685 | CipherPathUnder, errors included |
| `Translator.ReadPath` | internal/files/nametranslate.go:314-357 | PlainPath for either scheme, errors included |
| `Translator.ReadPlainPath` | internal/files/nametranslate.go:223-253 | plainPathOf terminates and decrypts up the parent chain, scheme-0 rows verbatim |
| `Translator.ReadPlainRow` | internal/files/nametranslate.go:267-294 | decryptRow, dual-read on the row's own scheme |
| `Translator.DecryptUnderAnchor` | internal/files/nametranslate.go:693-755 | the loop over rows, with the parents it shares between them: every row decrypted in order, or the error of the first that has one |
| `Translator.DecryptTokens` | internal/files/nametranslate.go:726-747 | the loop over the tokens of one row computes the anchored walk, whatever the earlier rows have cached |
| `Translator.CipherPathCanonical` | internal/files/nametranslate.go:145-188 | ciphertext paths are canonical, so the raw store takes them as they are |
| `Translator.TranslatingStore.GetByPath` | internal/files/nametranslate_stores.go:40-54 | resolve, look up, decrypt; on a sealed tree within budget it answers as the view does, for a plaintext user as the raw store does |
| `Translator.TranslatingStore.CipherParent` | internal/files/nametranslate_stores.go:151-170 | the stored folder of a plaintext path's parent, with the raw insert's error for a missing one |
| `Translator.TranslatingStore.Insert` | internal/files/nametranslate_stores.go:101-147 | the translated insert for scheme 1, the raw insert otherwise; failures change nothing; on a sealed tree success is the plaintext insert on the view |
| `Translator.TranslatingStore.UpdateMeta` | internal/files/nametranslate_stores.go:176-185 | the translated update, errors included; failures change nothing; on a sealed tree a write-back is the plaintext update on the view, and on any tree a scheme-0 row is written back as it is |
| `Translator.TranslatingStore.ReCipherRow` | internal/files/nametranslate_stores.go:201-239 | the stored form of a row in plaintext view, or its error |
| `Translator.TranslatingStore.RenameSubtree` | internal/files/nametranslate_stores.go:246-285 | the translated rename for scheme 1, the raw rename otherwise; failures change nothing; on a sealed tree success is the plaintext rename on the view, if and only if the destination is not below the source |
| `Translator.TranslatingStore.DeleteSubtree` | internal/files/nametranslate_stores.go:287-294 | the translated delete for scheme 1, the raw delete otherwise; the stored table stays a tree; on a sealed tree success is the plaintext delete on the view |
| `SweepPlan.LoadTree` | internal/files/namesweep.go:256-301 | refuses a table exactly for two roots, a dangling parent or rows without a root; otherwise lists each row once under its parent |
| `SweepPlan.ChainUnique` | internal/files/namesweep.go:426-460 | there is at most one way down from the root to a row |
| `SweepPlan.PlanPaths` | internal/files/namesweep.go:426-496 | the queue without a visited set terminates, plans exactly the rows reachable through directories, opens every folder among them, and fails exactly with an error found at the end of some way down; an empty table gets the empty plan |
| `SweepPlan.PlanFolder` | internal/files/namesweep.go:433-458 | a folder is opened before its children are planned; no row is enqueued twice and every planned path is the one along its chain |
| `NameSweep.TreeReachable` | internal/files/namesweep.go:426-460 | in a well-formed tree every row is reachable, so the plan covers it |
| `NameSweep.EncryptPaths` | internal/files/namesweep.go:426-460 | on a well-formed tree with all keys, the empty one included, it plans every row at its path in tokens if and only if no name is longer than 255 runes and no such path longer than 768 characters |
| `NameSweep.PlannedTokens` | internal/files/namesweep.go:426-460 | every plan has each row at its path in tokens, and within the limits |
| `NameSweep.DecryptPaths` | internal/files/namesweep.go:466-496 | on a well-formed tree of mixed schemes it plans every row under its plaintext name if and only if every token can be opened with its folder's key |
| `NameSweep.PlanInjective` | internal/files/namesweep.go:426-460 | different rows get different ciphertext paths |
| `NameSweep.SweptSealed` | internal/files/namesweep.go:1180-1211 | the committed tree is a uniform scheme-1 tree |
| `NameSweep.SweepKeepsView` | internal/files/namesweep.go:426-460 | its plaintext view is the tree as it was, row by row, and it is within budget |
| `NameSweep.SweepKeepsLookups` | internal/files/namesweep.go:426-460 | every plaintext path looked up through the translating store gives the row the raw lookup gave before; absent paths stay absent |
| `NameSweep.SatelliteWalk` | internal/files/namesweep.go:503-542 | the converted path is the one the translating stores walk to, or they refuse the leaf name for its length |
| `NameSweep.SatelliteFound` | internal/files/namesweep.go:503-542 | a converted satellite row is found at its old plaintext path if and only if its leaf name is within 255 runes |
| `Instances.LongLeafNotFound` | internal/files/namesweep.go:503-542 | a path with an absent leaf of 256 characters that the sweep converts and the stores refuse |
| `NameSweep.SweepRoundTrip` | internal/files/namesweep.go:466-496 | decrypting the encrypted table gives every row its name, path and scheme back |
| `NameSweep.SatelliteRoundTrip` | internal/files/namesweep.go:547-583 | plainFor undoes cipherFor on every converted path |
| `Satellites.ConvertsInFolder` | internal/files/namesweep.go:503-542 | a satellite path with a parent folder in the tree is converted to its token behind that folder's planned path, whether or not the entry exists, or is too long |
| `Satellites.ConversionEnds` | internal/files/namesweep.go:503-542 | a path the way down to which ends is not converted: not a directory, not found, or too long before that |
| `Satellites.ConvertedIff` | internal/files/namesweep.go:503-542 | cipherFor succeeds if and only if there is such a folder and the token path has at most 768 characters |
| `Satellites.DecryptsInFolder` | internal/files/namesweep.go:547-583 | on a scheme-1 tree a stored path in a folder is converted to the decrypted name behind the folder's plaintext path, or refused for a name that is no token |
| `Satellites.DecryptionEnds` | internal/files/namesweep.go:547-583 | and its exact error where the way down ends |
| `Satellites.DecryptedIff` | internal/files/namesweep.go:547-583 | plainFor succeeds if and only if there is such a folder and the last segment is one of its tokens |
| `Satellites.EncryptionStopsIff` | internal/files/namesweep.go:694-713 | an encrypting sweep stops at a satellite path if and only if the last name, or the one the way ends at, makes the token path too long |
| `Satellites.DecryptionStopsIff` | internal/files/namesweep.go:694-713 | a decrypting sweep stops at one if and only if such a name is no token, also where nothing of that name is stored |
| `Satellites.IndexNames` | internal/files/namesweep.go:256-301 | the index by parent and name finds every row |
| `Satellites.NamesFind` | internal/files/namesweep.go:256-301 | and in a tree exactly the one child of that name |
| `Satellites.CipherForPath` | internal/files/namesweep.go:503-542 | the loop of cipherFor on the index, errors included |
| `Satellites.PlainForPath` | internal/files/namesweep.go:547-583 | the loop of plainFor, errors included |
| `Satellites.ConvertPath` | internal/files/namesweep.go:694-713 | a path that no longer resolves is passed over, any other error is handed on |
| `Satellites.PlanSats` | internal/files/namesweep.go:715-796 | the loops over locks, versions and properties plan exactly the rows whose path changes, count exactly those passed over, and fail only with the error of a row that is not passed over |
| `SweepCommit.Database.CommitPlan` | internal/files/namesweep.go:1148-1265 | commits all updates of files, locks, versions and properties and the flip, or nothing; it commits exactly when every update hits one row and meets its unique key, and the scheme is the old one |
| `SweepCommit.MissedRowFails` | internal/files/namesweep.go:1180-1184 | a loaded row the plan has missed makes the commit fail |
| `SweepCommit.CommitSweeps` | internal/files/namesweep.go:1148-1265 | a committed encrypting sweep had a complete plan and leaves exactly the swept table and the new scheme |
| `SweepCommit.SatelliteStays` | internal/files/nametranslate_stores.go:431-446 | after the commit a converted lock, version or favourite is the same row, and sits where the translating stores look for its old plaintext path if and only if the leaf name is within 255 runes |
| `SweepCommit.SatelliteRows` | internal/files/namesweep.go:1212-1230 | after the commit every satellite row in a folder of the tree sits at its token behind the folder's new path, within 768 characters, and every other one is untouched |
| `SweepCommit.ApplyAllExact` | internal/files/namesweep.go:1180-1211 | on any table the row updates go through if and only if each has its row, no key is claimed where one is, and no new path is taken at its turn, by a new path already written or an old one still there |
| `SweepCommit.ApplySatsExact` | internal/files/namesweep.go:1212-1230 | the same for the satellite rows and the unique keys of their tables |
| `SweepCommit.CommitExact` | internal/files/namesweep.go:1148-1265 | a job commits on any database, changed underneath it or not, if and only if the scheme is still the old one, every update has its row and claims no key that is there, and no path is taken at its turn |
| `SweepCommit.UpdatesKeepPathsUnique` | internal/files/namesweep.go:1180-1211 | the updates of any job keep stored paths distinct |
| `SweepCommit.SweepCommitsIff` | internal/files/namesweep.go:1148-1265 | a sweep of an unchanged table commits if and only if, in row order, no planned path is still the stored path of a later row and no satellite row meets the key of another |
| `Instances.SweepStopped` | internal/files/namesweep.go:1180-1211 | a planned sweep of two files that the unique index stops |
| `SweepUndo.CommitRestores` | internal/files/namesweep.go:1195-1211 | a committed decrypting sweep had a complete plan, writes every row as planned and clears folder keys only |
| `SweepUndo.FilesComeBack` | internal/files/namesweep.go:466-496 | both commits together are the identity on names, paths and schemes of all rows and on the user's scheme |
| `SweepUndo.SatelliteComesBack` | internal/files/namesweep.go:547-583 | and every satellite row the first sweep converted is back at its normalised path |
| `SweepUndo.SatelliteRowsBack` | internal/files/namesweep.go:1212-1230 | after a decrypting sweep every satellite row in a folder has its decrypted name behind the folder's plaintext path, and every other one is untouched |
| `SweepUndo.PassedOverStopsUndo` | internal/files/namesweep.go:547-583 | a satellite row the encrypting sweep passed over stops every decrypting sweep while it is there, if the first name of its path is no token |
| `Instances.StaleLockStopsUndo` | internal/files/namesweep.go:547-583 | a lock below a folder that is gone: the encrypting sweep commits, and no decrypting one can be planned |
| `SweepRace.Invariant` | internal/files/namesweep.go:133-232 | in every reachable state of any number of runs: nothing has changed and no run has won, or the files are the original tree swept by the one winner |
| `SweepRace.RootlessCommit` | internal/files/namesweep.go:1253-1259 | for a user without filecache rows the commit flips the scheme and leaves the files table empty |
| `SweepRace.AtMostOneWinner` | internal/files/namesweep.go:1253-1259 | over every interleaving at most one run commits |
| `SweepRace.SchemesAgree` | internal/files/namesweep.go:1148-1265 | in every reachable state the user's scheme is the scheme of every row |
| `SweepRace.WrittenByWinnerOnly` | internal/files/namesweep.go:1148-1265 | losers write nothing: until a run has won the tables are the initial ones, and afterwards they never change again |
| `SweepRace.ReadersSeeOneTree` | internal/files/namesweep.go:1148-1265 | through the whole race every plaintext path resolves to the entry it had at the start, or to nothing |
| `TrashIds.ItoaInjective` | internal/files/namesweep.go:910-922 | different counters print differently |
| `TrashIds.MissShrinksAhead` | internal/files/namesweep.go:910-922 | each miss of the search rules out one more used id: the pigeonhole argument |
| `TrashIds.DedupTrashLoc` | internal/files/namesweep.go:910-922 | the unbounded search terminates with the id itself if free, else with the smallest free number, which is at most the number of used ids |
| `TrashIds.FreeNumberBound` | internal/files/namesweep.go:910-922 | the pigeonhole bound on the number |
| `TrashIds.KeptLocs` | internal/files/namesweep.go:812-875 | the ids seeded as used are exactly those of the skipped rows |
| `TrashIds.PlanTrash` | internal/files/namesweep.go:812-875 | the assigned ids are pairwise distinct, avoid every kept id, are the capped new basename with the old suffix and a number below the number of rows, and are valid if and only if that basename is proper and basename, suffix and number fit into 255 bytes |
| `TrashIds.CapFits` | internal/files/namesweep.go:897-906 | the cap keeps the longest beginning of whole characters that fits into 200 bytes |
| `TrashIds.Utf8Counts` | internal/files/namesweep.go:897-906 | a character counts the bytes of its UTF-8 encoding (section 3 of RFC 3629), which is well-formed and reads back as the character |
| `TrashIds.Utf8Shortest` | internal/files/namesweep.go:897-906 | and no well-formed encoding of it is shorter |
| `TrashIds.SplitInverts` | internal/files/namesweep.go:882-891 | a valid id is its basename followed by its suffix, and both are proper |
| `TrashIds.ValidWhenPutTogether` | internal/files/trashstore.go:161-183 | a basename and a proper ending make a valid id if and only if the basename is proper and the whole fits into 255 bytes |
| `TrashIds.NewIdValid` | internal/files/namesweep.go:812-875 | the condition for one row and number, stated on the new name and the old id |
| `TrashIds.FitsOnInputs` | internal/files/namesweep.go:812-875 | among so many rows an id is valid if basename and suffix leave room for the longest number, and invalid unless they fit by themselves |
| `TrashIds.TokenIdsValid` | internal/files/namesweep.go:897-906 | a basename without dots and slashes always gets a valid id while suffix and number stay within 55 bytes |
| `TrashIds.TrailingDotInvalid` | internal/files/namesweep.go:812-875 | a name ending in a dot that gets an invalid id from a valid one |
| `KeyShares.Invariant` | internal/files/keyshares.go:179-246 | in every reachable state a wrapped recipient is covered or somebody still has to look at it, and the row is there before the first wrap |
| `KeyShares.NoStaleWrap` | internal/files/keyshares.go:119-141 | over every interleaving of row insert, wraps per share, re-read, listings and unwraps, once all are through, no recipient is wrapped without a covering share |
| `KeyShares.OrderDecides` | internal/files/dav.go:729-755 | no run leaves a stale wrap behind if and only if the row is persisted before the wraps are written |
| `KeyShares.WrapFirstLeaks` | internal/files/dav.go:729-755 | a run of the other order in which an unshare finds no file and its recipient stays wrapped |
| `KeyShares.UntouchedWrappedIffCovered` | internal/files/keyshares.go:179-246 | in every finished run a recipient no unshared share lists is wrapped if and only if a share covers it |
| `KeyShares.AlwaysWrappedIffUntouched` | internal/files/keyshares.go:179-246 | a covered recipient is wrapped at the end of every run if and only if no unshare lists it |
| `KeyShares.LosingRun` | internal/files/keyshares.go:119-141 | from every start the write and then the unshares can run to their end, and a listed recipient ends unwrapped |
| `KeyShares.OverlapLosesWrap` | internal/files/keyshares.go:271-304 | a run in which taking back one of two shares unwraps a recipient the other still covers |
| `Locks.JudgeIsNearest` | internal/files/lock.go:132-166 | a write is denied if and only if, up the path, the first lock whose timeout is still to come is not named and everything before it resolves; it fails with a path's error if and only if that comes before any such lock; otherwise it is allowed |
| `Locks.JudgeIgnoresExpired` | internal/files/lock.go:216-227 | removing expired rows never changes a verdict |
| `Locks.KeysUpAt` | internal/files/lock.go:145-165 | the i-th key of the walk is that of the path without its last i segments |
| `Locks.ExpiredOnly` | internal/files/lock.go:216-227 | what the walk leaves was there before, and what is gone had run out |
| `Locks.MountRelIs` | internal/files/ciphermount.go:50-55 | a path below the mount, made relative, consists of exactly the segments below the mount |
| `Locks.LockTable.WalkUp` | internal/files/lock.go:145-165 | the walk over parentFilePath terminates with that verdict, and exactly the expired rows it has come to are gone |
| `Locks.LockTable.CheckLockOwned` | internal/files/lock.go:132-166 | the check from the path to the user's root; unresolvable ancestors carry no lock; exactly the expired rows on the way are removed |
| `Locks.LockTable.CheckLockCipherMount` | internal/files/ciphermount.go:462-513 | the check from the path to the mount root; any unresolvable path ends it; exactly the expired rows on the way are removed |
| `Locks.KeysAgree` | internal/files/ciphermount.go:462-513 | below the anchor both checks read the same rows, and the owner's goes on above it |
| `Locks.AncestorsResolve` | internal/files/nametranslate_stores.go:431-446 | every ancestor of a stored row resolves, so the owner's walk does not stop early |
| `Locks.MountKeysResolve` | internal/files/ciphermount.go:462-513 | every path of the walk through a mount resolves if and only if the parent folder is stored and the leaf is within budget there |
| `Locks.MountCheckAgrees` | internal/files/ciphermount.go:462-513 | when the path's parent folder is stored, the leaf is within budget and no unexpired lock lies above the share root, both checks give the same answer |
| `Locks.MountVerdict` | internal/files/ciphermount.go:462-513 | the same for the walks the two methods run, whatever the mount point |
| `FreeBusy.CoalesceCorrect` | internal/calendar/freebusy.go:126-143 | the merging loop on a sorted list leaves separated intervals covering the same instants |
| `FreeBusy.SeparatedUnique` | internal/calendar/freebusy.go:126-143 | a separated list of non-empty intervals is determined by what it covers |
| `FreeBusy.MergeBusy` | internal/calendar/freebusy.go:126-143 | sorts and merges, for any order of equal starts |
| `FreeBusy.MergeCorrect` | internal/calendar/freebusy.go:126-143 | the result is sorted, strictly separated and covers exactly the instants of the input |
| `FreeBusy.MergeTouches` | internal/calendar/freebusy.go:126-143 | the result contains exactly the points of the input's closed intervals, and no two of its intervals touch |
| `FreeBusy.MergeCanonical` | internal/calendar/freebusy.go:126-143 | two inputs, events without duration included, merge to the same list if and only if their closed intervals contain the same points |
| `FreeBusy.MergeIdempotent` | internal/calendar/freebusy.go:126-143 | input order and sort do not matter, and merging again changes nothing |
| `FreeBusy.MergeByCoverage` | internal/calendar/freebusy.go:126-143 | for intervals of some length the covered instants alone decide the list |
| `FreeBusy.EmptyIntervalsAreListed` | internal/calendar/freebusy.go:126-143 | two inputs that cover the same instants and merge to different lists, one of them with an event without duration |
| `Recurrence.StepIncreases` | internal/calendar/freebusy.go:111-123 | every step moves at least a day forward, month overflow included |
| `Recurrence.StepMeans` | internal/calendar/freebusy.go:111-123 | each step keeps the time of day: days and weeks move by exactly that many days, months and years to the same day of the month that many months on, carrying the days a shorter month lacks into the next |
| `Recurrence.EvenlySpaced` | internal/calendar/freebusy.go:111-123 | the i-th occurrence of a daily or weekly rule is i times the interval in days or weeks after the first |
| `Recurrence.SameDayOfMonth` | internal/calendar/freebusy.go:111-123 | the i-th occurrence of a monthly or yearly rule that starts on one of the first 28 days of a month falls on that day, i intervals of months or years on, at the same time of day |
| `Recurrence.MonthLength` | internal/calendar/freebusy.go:111-123 | the calendar is the Gregorian one: every month has its real length, leap years included, counted from 1970 |
| `Recurrence.RecurUntilIs` | internal/calendar/ical.go:66-70 | the horizon of the index is midnight of 2100-01-01 |
| `Recurrence.NothingLater` | internal/calendar/freebusy.go:92-105 | after an early exit no later occurrence would have counted |
| `Recurrence.ExpandBusy` | internal/calendar/freebusy.go:70-109 | lists exactly the occurrences that happen and meet the window, in order |
| `Recurrence.SingleBusy` | internal/calendar/freebusy.go:70-109 | an event that does not recur is busy once, from its start for its duration, if it overlaps the window |
| `Recurrence.RecurringBusy` | internal/calendar/freebusy.go:70-109 | a recurring event is busy exactly at its occurrences among the first 1000, within COUNT, by UNTIL and in the window, each once and in order |
| `Recurrence.SelectedMeets` | internal/calendar/sqlstore.go:256-276 | the index selects an event if and only if some instant of its span lies in the window |
| `Recurrence.BusyIsProper` | internal/calendar/freebusy.go:70-109 | no busy interval ends before it starts, as the merge needs it |
| `Recurrence.IndexLosesNothing` | internal/calendar/sqlstore.go:256-276 | for a single event the index drops busy time in no window if and only if it does not end more than a second before it starts |
| `Recurrence.EarlyEndDropped` | internal/calendar/sqlstore.go:256-276 | an event that ends two seconds before it starts, busy in a window where the index passes it over |
| `Recurrence.RecurringWindows` | internal/calendar/sqlstore.go:256-276 | a window loses no busy time of any recurring event if and only if it starts by 2100-01-01 |
| `Recurrence.IndexKeepsRecurring` | internal/calendar/ical.go:50-78 | the half of it for one event: what the index passes over has no busy time in such a window |
| `Recurrence.IndexEndsIn2100` | internal/calendar/ical.go:66-70 | a recurring event and a window after 2100-01-01 in which the index drops its busy time |
| `Recurrence.RangeQueryLosesNothing` | internal/calendar/sqlstore.go:256-276 | the busy list of the selected objects equals that of all objects |
| `Chunks.OrderCheckIsCompleteness` | internal/files/uploads.go:495-531 | the numbering check passes exactly when the parsed numbers are 1..n, n at least 1, without repeats |
| `Chunks.SortedIsNumericOrder` | internal/files/uploads.go:575-591 | every sorted copy of a complete upload is chunk 1, chunk 2, ..., whatever the listing order and the sort |
| `Chunks.Assemble` | internal/files/uploads.go:495-531 | succeeds exactly for a complete numbering and a matching declared length; chunk k stands in the body behind the contents of all chunks of a smaller number, and the body's length is the sum of theirs |
| `Chunks.ChunkNames` | internal/files/uploads.go:94-108 | a name stands for n if and only if 1 <= n <= 10000 and it is the decimal numeral of n behind any number of zeros |
| `Chunks.SameNumberFails` | internal/files/uploads.go:495-531 | two entries whose names stand for the same number spoil every upload |
| `Chunks.PaddingParses` | internal/files/uploads.go:94-108 | a leading zero does not change the number a name stands for |
| `Chunks.PaddedDuplicateFails` | internal/files/uploads.go:94-108 | a zero-padded duplicate of one of its chunks spoils any upload |

## Left out

- The tables hold one user's rows; the user_id column and calls for a missing user are not modelled.
- NormalizePath: the rejection of invalid UTF-8, because strings are sequences of characters here.
- Etags, checksums, MIME types, permissions and the name and key caches of the translator are not modelled.
- The internals of name encryption, key resolution and enrolment: the cipher is a parameter with the hypotheses above; only a folder without a key fails. Lengths of stored paths are counted in characters, which for tokens is their length in bytes.
- Failing database, storage and network calls, and the compensation that follows them.
- Listing children, sealed subtrees and search results, and the translating version, upload and property stores: they apply the resolution and decryption proved here row by row.
- InsertRefines: for a row whose name is empty or the path's own and a directory whose key is already minted; InsertExact says what happens for any other row.
- InsertSound: the same.
- DecryptUnderAnchor: for rows with canonical paths, as subtree listings return them.
- PlainReadWrite: for a user all of whose rows are scheme 0; DualRead and PlainWriteBack say what happens to single rows of either scheme.
- GetInFolder: within the length budget; GetSound says what holds without it.
- RenameRefines: for a destination that is not below the source; RenameExact says what happens otherwise.
- Move: the filecache part; whether the storage rename succeeds is an input, which must be a refusal for a destination below the source. The name-budget check before it, mounts, and the rename of lock, property, version and share paths are not modelled.
- MoveFree: for a destination that is not below the source; RecalcEndsIff says what happens otherwise.
- Create: for a row whose name is left to the store and a path other than the root, as write and mkdir build it.
- RecalcAncestors: directory etags are not modelled.
- RecalcFrom: directory etags are not modelled.
- CommitPlan: files, locks, versions, properties and the user's scheme; trash and share rows, which change other columns besides the path, and the deletion of folder-key wraps are not modelled.
- PlanSats: the rows of locks, versions and properties as one list; the same conversion of trash and share rows is not modelled.
- SameDayOfMonth: for days every month has; StepMeans says what each step does from any day.
- PlanTrash: the conversion of a trash row's original path is an input, and the moves of trash objects are not modelled.
- SweepRace: encrypting runs only, with no other writer, and with wrap inserts and trash object moves left out.
- NoStaleWrap: a newly created file, no failing calls and fixed groups; carrying wraps over on overwrite and the wraps of a folder's other files are not modelled.
- Acquiring, refreshing and releasing locks, and parsing the If header: which tokens a header names is a parameter.
- MountCheckAgrees: a share root that is a folder other than the owner's root, within the length budget.
- Prefix rename and delete in the lock and property stores.
- ExpandBusy: instants in whole seconds and in UTC; parsing of calendar text, RRULE text and time zones, transparent events, windows without start or end, and shared calendars are not modelled.
- Assemble: chunk contents are values; checksums, quotas, storage reads and session handling are not modelled.
- HTTP handlers, routing, configuration, commands, notifications and remote mounts.
