# Verified model of a content-addressed store

The repository keeps files by their hash. Bytes that are absent are rebuilt by
recipes, and disk images are synthesised from a symbolic layout. This project
models the parts of it in which a mistake costs data or silently changes bytes,
and proves what its comments, tests and documents promise of them. Each module
is one source file or one part of one; code that works step by step is written
as methods over classes, arrays and loops, proved against functions.

- **Recipe graph** (`Grounding`, `Planning`, `LeafWalk`, `Exec`): which blobs the
  licensed recipes ground, planning as a depth-first search with a cycle cut and
  a depth limit, eviction and licensing over whole runs, the piece swap and the
  packing of chunk sets. Dropping a literal that is grounded without itself makes
  nobody less safe, and planning finds a route exactly when the fixpoint reaches
  the blob within the depth limit.
- **Range serving** (`ServeRange`, `RandomAccess`, `Assemble`, `AssembleParams`):
  every byte string served is a slice of the true content, for any producer. The
  assemble operator, its range translation and its nested readers agree with one
  definition of the output.
- **FAT32 images** (`FatNames`, `FatEntries`, `FatTree`, `FatLayout`,
  `FatCapacity`, `FatSectors`, `FatImage`, `FatRead`, `FatConform`, `Image`): a layout renders
  to an image from which an independent reader, written from the Microsoft FAT32
  File System Specification version 1.03 (FAT data structure, directory
  structure, long directory entries), recovers exactly the input paths, sizes and
  contents, and in which every field of the reserved sectors is as that
  specification asks. It succeeds exactly on files without faults for which the format has
  room. The minted recipe materialises to such an image.
- **Identity-bearing objects** (`Cbor`, `CborWire`, `Objects`, `RecipeObject`,
  `SnapshotObject`): canonical CBOR (sections 3 and 4.2.1 of RFC 8949) as a
  bijection between values and the standard's wire form, and each object type decoding from exactly its encodings.
- **7z folders** (`FolderSplit`, `FolderBatch`, `FolderEmit`): the member
  splitter, the batch driver, the filter stage and the window pump give the same
  result however the stream is cut.
- **Bulk blessing** (`Bless`): the coordinator and its workers in every
  interleaving, every candidate examined once and every counter exact.
- **Identity unification** (`Unify`): claims with partial hash tuples share and
  merge identities.
- **View layout** (`ViewPaths`, `ViewProfiles`, `ViewLayout`, `ViewTemplate`,
  `ViewBuckets`, `ViewOverflow`, `ViewManifest`): whatever the template and the names, the rows
  have distinct canonical paths, so encoding the manifest cannot fail on them,
  unless fitting a name stops the source in a slice error, and it is proved on
  exactly which names it does.
- `Bytes` and `Wrappers` hold what the modules share.

## Where the code and its promises part

The model follows the code. These are the places where a comment or a document
says more than the code does; each names the lemma or contract that shows it.

- Drop safety does not count the component a recipe needs: the rules allow
  dropping it, the blobs it decodes stay "safe", and then no longer plan
  (`Exec.ComponentDropStrands`). With components that load, safe blobs plan
  (`Exec.SafePlans`), `Exec.DropKeepsPlans` says exactly which drops keep
  everything plannable, components counted, and `Exec.DropsKeepPlansExactly` and
  `Exec.RunKeepsPlans` say it of whole runs.
- A world spelled like a known one but held as "other" encodes to the same bytes
  as the known one (`RecipeObject.AliasedWorld`); all other recipes are told
  apart by their bytes (`RecipeObject.IdentityInjective`).
- A resident file that lost its end within the last 16 KiB group answers a range
  past what is left with an empty success (`ServeRange.TruncatedServesNothing`).
  An answer of that branch is the true slice exactly when the offset lies in the
  file or past the blob (`ServeRange.Server.ServeResident`).
- A component that runs at two places of a plan is blamed after looking at the
  literals of the first place only (`ServeRange.SecondNodeBlamed`); that is
  enough exactly when the later places add no literal
  (`ServeRange.CleanVouchesExactly`).
- Linking again never lowers a link's evidence (`Unify.Catalog.LinkIdentities`),
  but a merge of identities can, and linking again over the same aliases does not
  bring it back (`Unify.EvidenceLost`, a run from empty tables). It does exactly
  when the absorbed identity's was better (`Unify.MergeKeepsEvidenceUnless`,
  `Unify.UnifyLowersExactly`).
- A claim is said to match on a hash as strong as the weaker side has, strong
  hashes on a strong one. A weaker match is let through as well, such as size and
  CRC where both sides have a strong hash (`Unify.StrongOnCrc`), exactly when
  neither side's strongest hash is known to the other (`Unify.PromisedExactly`).
- The volume label is documented as never blank; it is blank exactly for the
  names `FatSectors.LabelFor` describes, such as a single space.
- A blob mapped twice to one path gets two rows, not one
  (`ViewLayout.RepeatedBlobTwice`); `ViewLayout.ShownTwiceExactly` and
  `ViewLayout.ShownTwiceApart` say exactly when, on the claims alone. A third
  claim of that path is dropped even if it is another blob, when its hash begins
  like the second's (`ViewLayout.SharedTagDrops`). A blob is in the view exactly
  when a claim of it finds a place (`ViewLayout.ShownExactly`); when names and
  hash prefixes keep apart nothing is lost (`ViewLayout.NothingLost`).
- `strip_noise_prefix` is documented as boundary safe because all it matches is
  ASCII, but it slices the name before it compares: a long name with a number at
  its front and a multi-byte character across one of the places it looks at stops
  the evaluation (`ViewLayout.KanaClaimHalts`). `ViewProfiles.HaltsExactly` and
  `ViewLayout.HaltsOnCuts` say exactly when.
- A placeholder is documented to stand for a name, but the three are replaced one
  after another, so a name that spells a later placeholder is expanded in turn.
  `ViewTemplate.EntryLeftExactly` and `ViewTemplate.ClaimLeftExactly` say exactly
  which names are left as they are.
- A path tagged once in the layout and once more in a bucket can exceed the
  profile's name cap by one tag, under every built-in profile
  (`ViewOverflow.TagPastCap`); `ViewBuckets.OverflowsExactly` says when, row by row.
- A collision tag goes before the last dot of the whole path, not of the leaf. In
  a directory such as `v1.0` a leaf without a dot moves to another directory
  (`ViewBuckets.DottedDirectory`); `ViewBuckets.TagKeepsDirectory` and
  `ViewBuckets.MovedOrBlocked` say exactly when a tagged path stays where it was.
- `WindowSeq` answers an empty buffer with an error while bytes are owed
  (`RandomAccess.WindowSeq.Read` states exactly when).
- The pump's check for a span beyond the declared size has no case left: the
  window limit already excludes it (`FolderEmit.Pump`).
- A path with leading slashes is placed where the path without them is
  (`FatTree.BuildTree`).
- A view snapshot decodes from more than one byte string
  (`ViewManifest.MissingNameReadsEmpty`); the other objects do not. Encoding gives
  the decoded bytes back exactly in the cases of `ViewManifest.ReencodesExactly`.

## Model

| member | source | states |
|---|---|---|
| `Grounding.GroundedStep` | crates/datboi-index/src/recipes.rs:1187-1227 | a rule that may fire and whose inputs are grounded grounds every output it claims: the fixpoint is closed, not only approached |
| `Grounding.ReachLeast` | crates/datboi-index/src/recipes.rs:1187-1227 | no round leaves a set that contains the literals and is closed under the rules: the fixpoint is the least one |
| `Grounding.RankBound` | crates/datboi-index/src/recipes.rs:1187-1227 | whatever is grounded is so within as many rounds as there are rules, which is why the loop of rounds may stop |
| `Grounding.GroundedSet` | crates/datboi-index/src/recipes.rs:1187-1227 | the loop of rounds returns exactly the grounded blobs, both directions, and ends |
| `Grounding.IsEvictable` | crates/datboi-index/src/recipes.rs:1117-1125 | true exactly when the blob is grounded by licensed recipes in the resident literals without itself |
| `Grounding.DropKeepsGrounded` | crates/datboi-exec/src/evict.rs:1-45 | if x is grounded without its own literal, dropping that literal changes nobody's groundedness, mutually inverse recipes included |
| `Grounding.SafeAfterDrop` | crates/datboi-exec/src/evict.rs:88-150 | a permitted drop leaves every blob exactly as safe as before |
| `Grounding.GroundedSameGraph` | crates/datboi-index/src/recipes.rs:1187-1227 | changing verify states alone cannot unground a blob while the licensed set is kept |
| `Planning.PlanSound` | crates/datboi-exec/src/lib.rs:886-921 | an Ok plan is a tree of routes that are not failed and resolve, no blob above itself, stored literals at the leaves, within the depth limit |
| `Planning.ValidIsWithin` | crates/datboi-exec/src/lib.rs:886-921 | a valid plan's blob is reached by the fixpoint of usable recipes within as many rounds as levels are left |
| `Planning.PlanComplete` | crates/datboi-exec/src/lib.rs:886-921 | a blob of fixpoint rank k plans whenever k more levels are allowed and no blob of rank at most k is being visited, despite the cycle cut and routes that failed earlier |
| `Planning.RoutesComplete` | crates/datboi-exec/src/lib.rs:886-921 | when some route of a blob plans, trying the routes in table order ends in a plan, whatever the routes before it answer |
| `Planning.PlanExact` | crates/datboi-exec/src/lib.rs:886-921 | from the top, planning succeeds if and only if the usable fixpoint reaches the blob within the depth limit |
| `Planning.PlanChooses` | crates/datboi-exec/src/lib.rs:886-921 | the plan is that of the first route in table order that plans; with none, the error is the last route's, or NoRoute if there was no route to try; depth, cycle and stored literals first |
| `Planning.RecipeChooses` | crates/datboi-exec/src/lib.rs:923-960 | a route without its component is NoRoute of the component, otherwise the children are the inputs' plans in order, or the error is that of the first input that fails |
| `Planning.InsideExactly` | crates/datboi-exec/src/lib.rs:1583-1728 | the recipes listed as running inside a recipe are exactly those that stand in the plan of one of its inputs |
| `Planning.GroundedPlans` | crates/datboi-exec/src/lib.rs:886-921 | whatever eviction grounding guarantees of low enough rank still plans, if every licensed recipe resolves |
| `Exec.Executor.constructor` | crates/datboi-exec/src/lib.rs:305-315 | an empty executor is consistent: no blob is resident without bytes |
| `Exec.Executor.Plan` | crates/datboi-exec/src/lib.rs:886-921 | the stack machine with its compile cache computes the recursive planner and gives the visiting stack back |
| `Exec.Executor.PlanOne` | crates/datboi-exec/src/lib.rs:923-960 | planning one recipe: component first, then inputs in order, first failure wins; the stack is unchanged |
| `Exec.Executor.LoadComponent` | crates/datboi-exec/src/lib.rs:1038-1053 | loads exactly what is compiled or stored, and compiling never changes what is loadable |
| `Exec.Executor.Prepare` | crates/datboi-exec/src/lib.rs:1583-1728 | the recipe's plan, or its error, with the recipes that run inside it |
| `Exec.Executor.Replay` | crates/datboi-exec/src/lib.rs:326-377 | the answer is the one the plan and the verdict ask for; after a success a recipe is newly licensed exactly when it is this one or was Verified and stands in the plan of one of its inputs, no other verify state changes, and exactly the outputs are published; a disproof poisons only it; any failure leaves every row of a blob as it was, and in the store at most bytes of several outputs that were consumed before it |
| `Exec.Executor.LicenseOnly` | crates/datboi-exec/src/lib.rs:392-432 | the same licence, exact in the same way, without publishing a byte |
| `Exec.LicenseGrows` | crates/datboi-exec/src/lib.rs:326-432 | licensing adds the recipe to the licensed set and takes nobody out of it |
| `Exec.LicensedExactly` | crates/datboi-exec/src/lib.rs:341-352 | licensing changes exactly the states of the recipe and of the Verified recipes that stand in the plan of one of its inputs |
| `Exec.LicencesInRun` | crates/datboi-exec/src/evict.rs:161-234 | over any run of steps, a recipe that became licensed was replayed in one of the steps or stood in the plan of an input of one that was |
| `Exec.PublishedExactly` | crates/datboi-exec/src/lib.rs:1566-1577 | after publishing a row is the old one made resident for an output and unchanged for every other blob |
| `Exec.StoredExactly` | crates/datboi-exec/src/lib.rs:1566-1577 | and the store holds the old files and the outputs, nothing else |
| `Exec.PoisonKeepsReplayed` | crates/datboi-exec/src/lib.rs:579-589 | poisoning a recipe that was never licensed leaves the licensed set as it was |
| `Exec.PublishedGrows` | crates/datboi-exec/src/lib.rs:1566-1577 | publishing makes exactly the outputs resident and stored, everything else stays |
| `Exec.Executor.PinnedProtectedSet` | crates/datboi-exec/src/evict.rs:357-392 | protects exactly the opaque rows of pinned views and the inputs of pinned images; a tag without its snapshot is an error, never an empty protection |
| `Exec.Executor.EvictWith` | crates/datboi-exec/src/evict.rs:88-150 | the outcome and the new state are those of the gate at that moment: the first rule that applies refuses and then nothing changes; otherwise exactly the one loose file is dropped, its tree kept, every blob exactly as safe as before |
| `Exec.Executor.EvictCovered` | crates/datboi-exec/src/evict.rs:161-234 | the run's report and end state: nothing at or below the target, None exactly when the pins cannot be read; a first pass whose report says of every candidate up to the target what the gate said at its turn, with the bytes of exactly the dropped files; then, with licensing and above the target, the pool's turns in the same exactness. No safe blob loses its safety, nothing pinned is dropped, every newly licensed recipe was proved in a step of the run, and what planned before plans afterwards if every step keeps the routes of the one before, and without licensing replays only then |
| `Exec.Executor.EvictLicensed` | crates/datboi-exec/src/evict.rs:173-185 | the first pass goes on exactly while resident bytes are above the target; each candidate is dropped exactly when the gate lets it at its turn and is otherwise blocked with the gate's reason; evicted and reclaimed bytes are number and size of the dropped files |
| `Exec.GateStays` | crates/datboi-exec/src/evict.rs:88-150 | what the gate refuses it refuses after any drop too, for the same reason: drops only shrink grounding |
| `Exec.NothingLeft` | crates/datboi-exec/src/evict.rs:173-185 | when the first pass ends above the target the gate refuses every candidate in the state it ends in |
| `Exec.Executor.LicenseThenEvict` | crates/datboi-exec/src/evict.rs:189-233 | the second pass: the same for the pool, replays included, an error of a replay ending it |
| `Exec.Executor.LicenseAndEvict` | crates/datboi-exec/src/evict.rs:196-232 | one pool blob: no replay is spent on a pinned one and the run's invariant is kept |
| `Exec.Executor.LicenseOne` | crates/datboi-exec/src/evict.rs:202-216 | tries exactly the Verified routes in order until one is proved; true only with a licensed route in hand; false only when no Verified route is left; licences and bytes only grow |
| `Exec.Executor.LicenseCovered` | crates/datboi-exec/src/evict.rs:249-282 | of the pool, up to the limit, each blob is tried once in order; failed are exactly those left without a licensed route, and every newly licensed recipe was proved in a step of the run |
| `Exec.SafePlans` | crates/datboi-exec/src/evict.rs:5-9 | a safe blob of rank within the limit plans when licensed components load: the evicted stay recoverable |
| `Exec.ComponentDropStrands` | crates/datboi-exec/src/evict.rs:88-150 | a world where the rules allow dropping a component, the blob it decodes stays safe, and yet planned before and fails after |
| `Exec.PlansAreGrounded` | crates/datboi-exec/src/lib.rs:886-921 | with the recipe table within the depth limit, a blob plans exactly when the usable recipes ground it in the stored bytes |
| `Exec.DropKeepsPlans` | crates/datboi-exec/src/evict.rs:88-150 | a drop leaves everything plannable that was, exactly when the dropped blob is grounded by recipes that do not run in it and whatever such recipes could make has another route |
| `Exec.StepKeepsPlans` | crates/datboi-exec/src/evict.rs:88-150 | between any two states of one recipe table, a drop or a poisoning between them, no plan is lost exactly when each stored blob stays grounded and whatever the recipes that became unusable could make has another route |
| `Exec.RunKeepsPlans` | crates/datboi-exec/src/evict.rs:161-234 | a run whose every step keeps routes keeps everything plannable |
| `Exec.DropsKeepPlansExactly` | crates/datboi-exec/src/evict.rs:161-234 | of drops alone, exactly such a run does: nothing a drop strands comes back |
| `LeafWalk.Walker.Walk` | crates/datboi-exec/src/swap.rs:290-325 | the recursion with its path stack computes the walk specification and gives the path back; it ends because seen inputs only grow |
| `LeafWalk.Walker.WalkInput` | crates/datboi-exec/src/swap.rs:290-325 | one input: skipped, kept as a leaf, or walked with its route listed behind everything below it |
| `LeafWalk.CollectLeavesShape` | crates/datboi-exec/src/swap.rs:278-288 | every walk lists each leaf once, never a generated input, and lists only inputs that are resident or have no downward route |
| `LeafWalk.CollectLeavesOrdered` | crates/datboi-exec/src/swap.rs:290-325 | when direct inputs are smaller than the container, listed routes come bottom-up and every input is settled before the route that needs it |
| `LeafWalk.WalkOneKeeps` | crates/datboi-exec/src/swap.rs:290-355 | sizes strictly descend along every downward route, so the settled order survives each input of the walk |
| `LeafWalk.LeavesSuffice` | crates/datboi-exec/src/swap.rs:107-249 | with the leaves resident, the listed routes and the top recipe licensed and generated inputs grounded, the container is grounded without itself |
| `LeafWalk.SharedExactly` | crates/datboi-index/src/recipes.rs:1040-1097 | a leaf counts as sole exactly when at most one live recipe claims it |
| `LeafWalk.DownwardIsFirst` | crates/datboi-exec/src/swap.rs:330-355 | the downward route is the first one in table order that has not failed, has inputs, and none of them ungenerated and as large as the blob |
| `Exec.Weigh` | crates/datboi-exec/src/swap.rs:128-147 | the two sums are the absent bytes and those no second decomposition claims; a leaf without a size refuses the swap |
| `Exec.Executor.StreamPieces` | crates/datboi-exec/src/swap.rs:189-199 | all pieces have plans on success; only a route that disproved itself is poisoned |
| `Exec.Executor.SealPack` | crates/datboi-exec/src/swap.rs:189-211 | exactly the pieces become packed and resident, bytes before rows |
| `Exec.Executor.EnsureLicensed` | crates/datboi-exec/src/swap.rs:217-232 | true only with the route licensed; safety never shrinks |
| `Exec.Executor.LicenseRoutes` | crates/datboi-exec/src/swap.rs:217-232 | success means every listed route and the rebuild route are licensed |
| `Exec.Executor.PackAndLicense` | crates/datboi-exec/src/swap.rs:155-232 | on success every leaf is resident and every route licensed, the consistency of rows and bytes kept throughout |
| `Exec.Executor.SwapOne` | crates/datboi-exec/src/swap.rs:107-249 | goes ahead exactly when no guard applies, in the source's order, each with its skip, and otherwise changes nothing; then pieces, licences and the eviction happen as described, the error saying which of them failed; a successful swap has dropped the container and it is still safe; from a decomposition with safe generated inputs the final eviction is never refused for grounding |
| `Exec.SwapGrounds` | crates/datboi-exec/src/swap.rs:107-249 | what the swap did before the eviction grounds the container without its own literal |
| `Exec.Executor.PackOneSet` | crates/datboi-exec/src/swap.rs:407-491 | takes exactly the resident loose unpacked inputs of known size, each once, sweeps exactly the leftover copies, and never changes what is stored, whatever the outcome |
| `Exec.Executor.GatherPieces` | crates/datboi-exec/src/swap.rs:417-445 | duplicates are taken and swept once, nothing else is touched |
| `ServeRange.Server.ServeResident` | crates/datboi-exec/src/lib.rs:632-652 | without a tree exactly the slice of the file; a file of one group has the empty tree in any case; with a tree it succeeds exactly when the tree is of the file's size and nothing is asked for or the groups around the range pass, and then it is the true slice exactly when the offset lies in the file or past the blob |
| `ServeRange.Server.Serve` | crates/datboi-exec/src/lib.rs:623-737 | the answer in every case: the resident one; NoRoute, Malformed and the plan's error exactly as index and plan say; without a tree the carve-out exactly for plans of nothing but minted assembles over verified literals, failing exactly when a leaf does; MissingOutboard exactly when nothing carves and the blessing fails; else the window's, for an arbitrarily wrong or short producer; a rejected window is an error and quarantines the suspect when its first node is clean; no other state changes but one tree |
| `ServeRange.Server.ServeWindow` | crates/datboi-exec/src/lib.rs:702-738 | a produced window is served exactly when it has the asked size and its tree accepts it, and otherwise blamed on the component it came through |
| `ServeRange.Server.ServeCarved` | crates/datboi-exec/src/lib.rs:672-685 | a carve-out answers the true slice, or an error exactly when a leaf fails |
| `ServeRange.Server.AttributeSeekFailure` | crates/datboi-exec/src/lib.rs:746-791 | quarantines the suspect exactly when every literal under its node is its own content and the store can write |
| `ServeRange.CarvedContent` | crates/datboi-exec/src/lib.rs:1303-1383 | a carve-out plan read through its nested sources holds exactly the blob's content |
| `ServeRange.CarvesExactly` | crates/datboi-exec/src/lib.rs:1303-1345 | a plan is carved out exactly when every node of it is a minted affine assemble or a trusted literal |
| `ServeRange.FirstSeekableIs` | crates/datboi-exec/src/lib.rs:1903-1918 | the suspect of an assembled plan is the first node, in order, that is read in place |
| `ServeRange.AllLeavesAreLiterals` | crates/datboi-exec/src/lib.rs:746-791 | what is checked before blaming are exactly the literals below the node |
| `ServeRange.ClampedIs` | crates/datboi-exec/src/lib.rs:653-660 | a clamped range: no more than was asked for, no more than there is, from the offset on |
| `ServeRange.WindowAligned` | crates/datboi-exec/src/lib.rs:703-709 | the window is the least group-aligned one around the range: it covers it, stays inside the blob, and exceeds it by less than a group at either end |
| `ServeRange.SeekableFound` | crates/datboi-exec/src/lib.rs:1903-1932 | the component a failing window is blamed on does run in the plan, so its node is found |
| `ServeRange.TruncatedServesNothing` | crates/datboi-exec/src/lib.rs:632-652 | a run of the resident branch on a file that lost its end within the last group: an empty success for a range in which the blob has bytes |
| `ServeRange.SecondNodeBlamed` | crates/datboi-exec/src/lib.rs:746-791 | a run that quarantines a component although a literal under the second node it runs at is corrupt: a valid two-segment assemble over two of its outputs, whose bytes fail the tree check |
| `ServeRange.FindsFirstRun` | crates/datboi-exec/src/lib.rs:1919-1932 | the search for the suspect's inputs stops at the first node that runs it |
| `ServeRange.CleanVouchesExactly` | crates/datboi-exec/src/lib.rs:746-791 | the check before blaming vouches for all of a component's inputs exactly when no later node of it has a literal the first one has not |
| `ServeRange.LaterNodesUnchecked` | crates/datboi-exec/src/lib.rs:746-791 | for given literals the check passes and misses a corrupt one exactly when the first node is clean and a later one is not |
| `Assemble.Validate` | crates/datboi-core/src/assemble.rs:135-157 | accepts exactly the valid lists and otherwise reports the empty list or the first faulty segment |
| `Assemble.ValidateSources` | crates/datboi-core/src/assemble.rs:226-255 | succeeds exactly when every range lies within an existing source |
| `Assemble.AssembleReader.constructor` | crates/datboi-core/src/assemble.rs:268-280 | a reader starts at the front of the output |
| `Assemble.AssembleReader.Read` | crates/datboi-core/src/assemble.rs:283-314 | each call continues the output where the last one stopped, for any buffer; nothing only for an empty buffer or at the end |
| `Assemble.ReadChunks` | crates/datboi-core/src/assemble.rs:283-314 | any sequence of buffer sizes reads a prefix of the output in order |
| `Assemble.Translate` | crates/datboi-core/src/assemble.rs:336-360 | the pieces of a range denote exactly that slice of the output, none empty and no two neighbours mergeable; out of bounds exactly when the range is |
| `Assemble.PushMerged` | crates/datboi-core/src/assemble.rs:362-405 | appends the piece's bytes and keeps the list minimal |
| `Assemble.OutputSpan` | crates/datboi-core/src/assemble.rs:283-314 | a segment's bytes stand in the output where the segments before it end |
| `RandomAccess.ReadAt` | crates/datboi-exec/src/random.rs:123-159 | at every nesting of assemble nodes over leaves that answer short, a read returns the content's bytes at its offset, as many as promised |
| `RandomAccess.ReadAssembled` | crates/datboi-exec/src/random.rs:123-159 | an assemble node fills the window completely, up to its end |
| `RandomAccess.ReadExact` | crates/datboi-exec/src/random.rs:15-31 | fills the span with the content's bytes, and fails exactly when the span leaves the content |
| `RandomAccess.FillPieces` | crates/datboi-exec/src/random.rs:130-158 | the translated pieces land one after another |
| `RandomAccess.SeqOverRandom.Read` | crates/datboi-exec/src/random.rs:180-184 | sequential reading in order, nothing only at the end or for an empty buffer |
| `RandomAccess.WindowSeq.Read` | crates/datboi-exec/src/random.rs:207-222 | exactly the window's bytes; an error exactly when bytes are owed and the buffer is empty or the source is over |
| `AssembleParams.EncodeParams` | crates/datboi-core/src/assemble.rs:93-120 | encodes exactly the valid parameter lists |
| `AssembleParams.DecodeParams` | crates/datboi-core/src/assemble.rs:122-191 | decodes exactly the encodings of valid lists, each to its list |
| `Cbor.HeadRoundTrip` | crates/datboi-core/src/cbor.rs:103-205 | a written head reads back wherever it stands, with nothing consumed beyond it |
| `Cbor.HeadCanonical` | crates/datboi-core/src/cbor.rs:156-205 | an accepted head is byte for byte the one the encoder writes |
| `Cbor.PutHead` | crates/datboi-core/src/cbor.rs:103-120 | appends the shortest head and nothing else |
| `Cbor.EncodeInto` | crates/datboi-core/src/cbor.rs:67-100 | appends the value's encoding; on a duplicate key names it |
| `Cbor.EncodeValue` | crates/datboi-core/src/cbor.rs:61-65 | the imperative encoder computes the specification, for every value |
| `Cbor.Decoder.ReadHeadHere` | crates/datboi-core/src/cbor.rs:156-205 | the cursor reads a head exactly as specified, errors and offsets included |
| `Cbor.Decoder.Take` | crates/datboi-core/src/cbor.rs:207-217 | exactly the bytes asked for, or end of input when they are not there |
| `Cbor.Decoder.ReadValue` | crates/datboi-core/src/cbor.rs:219-280 | the cursor decoder computes the recursive parser, results, errors and end position |
| `Cbor.DecodeInput` | crates/datboi-core/src/cbor.rs:123-130 | the whole input is one value, nothing trailing |
| `Cbor.ParseEncodes` | crates/datboi-core/src/cbor.rs:219-280 | whatever parses is canonical and is the encoding of what it parsed to: no second spelling is accepted |
| `Cbor.EncodeParses` | crates/datboi-core/src/cbor.rs:61-280 | an encoding, followed by anything, parses to its value with maps sorted, the remaining-bytes guards never in the way |
| `Cbor.DecodeExact` | crates/datboi-core/src/cbor.rs:61-280 | decoding gives v if and only if v is canonical, fits, is nested at most 128 deep and encodes to exactly these bytes |
| `CborWire.DecodesItems` | crates/datboi-core/src/cbor.rs:61-280 | the decoder accepts exactly the items of RFC 8949 in canonical form, major types and heads written with the standard's numbers, whose maps ascend by key and which nest at most 128 deep, and gives the value |
| `CborWire.EncodeIsItem` | crates/datboi-core/src/cbor.rs:61-130 | the encoding of a canonical value is its wire form in those numbers, and no other bytes are |
| `CborWire.HeadIs` | crates/datboi-core/src/cbor.rs:103-120 | the head is the standard's shortest one: three bits of major type, five of information, the argument in network order |
| `CborWire.EncodesExactly` | crates/datboi-core/src/cbor.rs:61-130 | encoding fails exactly for a value with a key twice in one map, in whatever order |
| `CborWire.ReportsLeast` | crates/datboi-core/src/cbor.rs:80-98 | the key reported is the first that stands twice in key order |
| `CborWire.JumpTable` | crates/datboi-core/src/cbor.rs:219-280 | by first byte: what is read as what, and which bytes are refused with which error, as in the standard's appendix B |
| `CborWire.ArgumentErrors` | crates/datboi-core/src/cbor.rs:156-205 | a cut-off argument is end of input, one that would fit a shorter head is non-minimal, and nothing else is wrong with it |
| `Cbor.EncodeDecodes` | crates/datboi-core/src/cbor.rs:61-280 | encoding then decoding gives the value with its maps sorted |
| `Cbor.SameBytesSameValue` | crates/datboi-core/src/cbor.rs:61-130 | equal bytes, equal values up to the order of map entries |
| `Cbor.PrefixFree` | crates/datboi-core/src/cbor.rs:61-280 | no encoding is a proper prefix of another |
| `Cbor.SortByKey` | crates/datboi-core/src/cbor.rs:80-98 | sorting loses and invents no entry |
| `Cbor.SortAscends` | crates/datboi-core/src/cbor.rs:80-98 | and leaves the keys in order |
| `Cbor.NoDuplicateAscends` | crates/datboi-core/src/cbor.rs:80-98 | no equal neighbours after sorting means strictly ascending keys |
| `Objects.Sniff` | crates/datboi-core/src/object.rs:37-60 | recognises exactly the written headers, with kind, version and body offset |
| `RecipeObject.WorldSpelling` | crates/datboi-core/src/recipe.rs:64-95 | parsing inverts spelling exactly for worlds that are not a known spelling in disguise |
| `RecipeObject.AliasedWorld` | crates/datboi-core/src/recipe.rs:45-95 | two different recipes, one with the other spelling of a known world, encode to the same bytes |
| `RecipeObject.Validate` | crates/datboi-core/src/recipe.rs:229-254 | accepts exactly the valid recipes |
| `RecipeObject.EncodeRecipe` | crates/datboi-core/src/recipe.rs:167-188 | encodes exactly the valid recipes |
| `RecipeObject.DecodeRecipe` | crates/datboi-core/src/recipe.rs:190-385 | gives x if and only if x is valid, decodable and encodes to exactly these bytes |
| `RecipeObject.IdentityInjective` | crates/datboi-core/src/recipe.rs:141-188 | decodable recipes with the same bytes are the same recipe |
| `SnapshotObject.EncodeBatch` | crates/datboi-core/src/snapshot.rs:131-225 | sorts, refuses exactly repeated keys and bad rows, and encodes the sorted rows |
| `SnapshotObject.SameRowsSameBytes` | crates/datboi-core/src/snapshot.rs:131-146 | any order of the same rows has one encoding, or none has |
| `SnapshotObject.DecodeBatch` | crates/datboi-core/src/snapshot.rs:148-262 | decodes exactly the encodings of strictly ascending well-formed batches |
| `SnapshotObject.EncodeAliases` | crates/datboi-core/src/snapshot.rs:131-146 | alias batches: refused exactly for a repeated key |
| `SnapshotObject.DecodeAliases` | crates/datboi-core/src/snapshot.rs:148-173 | alias batches decode from exactly the encodings of strictly ascending rows |
| `SnapshotObject.ReencodeAliases` | crates/datboi-core/src/snapshot.rs:123-175 | alias rows decoded from bytes encode to the same bytes again |
| `SnapshotObject.RedecodeAliases` | crates/datboi-core/src/snapshot.rs:123-175 | encoded alias rows decode to the same rows in hash order |
| `SnapshotObject.EncodeAnalysis` | crates/datboi-core/src/snapshot.rs:199-225 | analysis batches: refused exactly for a repeated key or an ill-formed row |
| `SnapshotObject.DecodeAnalysis` | crates/datboi-core/src/snapshot.rs:227-262 | analysis batches decode from exactly the encodings of strictly ascending well-formed rows |
| `SnapshotObject.ReencodeAnalysis` | crates/datboi-core/src/snapshot.rs:193-262 | analysis rows decoded from bytes encode to the same bytes again |
| `SnapshotObject.RedecodeAnalysis` | crates/datboi-core/src/snapshot.rs:193-262 | encoded analysis rows decode to the same rows in key order |
| `SnapshotObject.ValidatePayload` | crates/datboi-core/src/snapshot.rs:309-351 | accepts exactly the valid payloads |
| `SnapshotObject.EncodePayload` | crates/datboi-core/src/snapshot.rs:353-417 | encodes exactly the valid payloads, absent parts as absence |
| `SnapshotObject.DecodePayload` | crates/datboi-core/src/snapshot.rs:504-602 | gives x if and only if x is valid and has exactly these bytes, whichever optional fields it leaves out |
| `SnapshotObject.ShardsAreRanges` | crates/datboi-core/src/snapshot.rs:113-119 | shards are in range and follow hash order |
| `FatNames.Utf16Injective` | crates/datboi-catalog/src/fat32.rs:443-464 | different names have different UTF-16 units |
| `FatNames.Mangle` | crates/datboi-catalog/src/fat32.rs:336-394 | the mangling loop computes its specification, loss flag included |
| `FatNames.TailSearchEnds` | crates/datboi-catalog/src/fat32.rs:415-426 | if the first k tails are taken, at least k short names are: the search ends within one try more than names are taken |
| `FatNames.CandidateInjective` | crates/datboi-catalog/src/fat32.rs:396-426 | different tail numbers give different short names, up to seven digits |
| `FatNames.ShortNameFor` | crates/datboi-catalog/src/fat32.rs:358-427 | a fresh short name is found, no long entry is needed only when the short name shows the name exactly, and the result is printable |
| `FatEntries.SfnChecksum` | crates/datboi-catalog/src/fat32.rs:430-434 | the loop computes the checksum of the Microsoft FAT32 specification's directory section |
| `FatEntries.PushSfn` | crates/datboi-catalog/src/fat32.rs:466-487 | appends one 32-byte entry |
| `FatEntries.SfnEntryBack` | crates/datboi-catalog/src/fat32.rs:466-487 | name, attribute, cluster and size read back from the entry |
| `FatEntries.PushLfn` | crates/datboi-catalog/src/fat32.rs:443-464 | appends the long-name run, last part first, 32 bytes each |
| `FatEntries.LfnEntryBack` | crates/datboi-catalog/src/fat32.rs:443-464 | ordinal, checksum and the thirteen units of a long entry read back |
| `FatEntries.ReadLfnRun` | crates/datboi-catalog/src/fat32.rs:443-464 | a long-name run reads back as its name with the checksum intact |
| `FatEntries.ReadChild` | crates/datboi-catalog/src/fat32.rs:443-487 | a child's run of entries reads back as exactly its name, attribute, cluster and size, whatever follows |
| `FatTree.TreeBuilder.constructor` | crates/datboi-catalog/src/fat32.rs:229-240 | the builder starts with the root alone |
| `FatTree.TreeBuilder.AddFile` | crates/datboi-catalog/src/fat32.rs:309-319 | adds the file under its directory, or reports a name already taken by case folding |
| `FatTree.TreeBuilder.AddDir` | crates/datboi-catalog/src/fat32.rs:268-287 | adds a directory in the same way and keeps the tree's invariant |
| `FatTree.TreeBuilder.EnsureDir` | crates/datboi-catalog/src/fat32.rs:242-290 | the directory of a path, made step by step; refused exactly for a component that is illegal, too long or in conflict |
| `FatTree.TreeBuilder.Step` | crates/datboi-catalog/src/fat32.rs:253-288 | one component further down the path |
| `FatTree.SortChildren` | crates/datboi-catalog/src/fat32.rs:322-326 | children in name order, no child lost |
| `FatTree.TreeHasNoConflict` | crates/datboi-catalog/src/fat32.rs:218-330 | a tree of the files leaves no two nodes of one directory whose names fold together: the tree has every node of its files, where the files have it, and once |
| `FatTree.TreeHasNoBad` | crates/datboi-catalog/src/fat32.rs:218-330 | and no component of a path that a directory cannot hold |
| `FatTree.BuildTree` | crates/datboi-catalog/src/fat32.rs:218-330 | succeeds exactly when paths ascend, sizes fit, every component is legal and short enough and no names fold together, and then lists every file once at its path; refusal names a fault the input has |
| `FatLayout.SetEntry` | crates/datboi-catalog/src/fat32.rs:568-571 | writes one table entry and leaves all others |
| `FatLayout.Chain` | crates/datboi-catalog/src/fat32.rs:574-584 | links one run: each cluster names the next, the last ends it |
| `FatLayout.BuildFat` | crates/datboi-catalog/src/fat32.rs:563-592 | each item's run is a chain of its own, everything else is free, and the first two entries are the reserved ones |
| `FatLayout.OneOwner` | crates/datboi-catalog/src/fat32.rs:534-557 | every allocated cluster belongs to the run of exactly one item |
| `FatLayout.FirstsFit` | crates/datboi-catalog/src/fat32.rs:534-561 | first clusters stay below the reserved numbers |
| `FatLayout.BodyLength` | crates/datboi-catalog/src/fat32.rs:594-650 | the bytes a directory emits are the counted slots times 32, so resizing only pads |
| `FatLayout.PushBody` | crates/datboi-catalog/src/fat32.rs:596-648 | a directory's label or dot entries, then its children in order, each pointing at its own first cluster |
| `FatLayout.BuildDirs` | crates/datboi-catalog/src/fat32.rs:594-650 | the directory buffer is every directory's clusters in allocation order, zero padded |
| `FatSectors.WriteFields` | crates/datboi-catalog/src/fat32.rs:762-832 | fields land where they belong, the rest is zero |
| `FatSectors.BootMounts` | crates/datboi-catalog/src/fat32.rs:762-798 | a reader of the boot sector finds the geometry the layout used; every field of the rendered one is fixed by `FatConform.ImageConforms` |
| `FatSectors.InfoBack` | crates/datboi-catalog/src/fat32.rs:800-813 | counts and signatures of the FSInfo sector read back |
| `FatSectors.MbrBack` | crates/datboi-catalog/src/fat32.rs:815-832 | the one partition's type, start and length read back |
| `FatSectors.LabelFor` | crates/datboi-catalog/src/fat32.rs:144-163 | the label is legal for FAT; it is blank exactly for names whose shown characters are all blanks |
| `FatImage.NameChildren` | crates/datboi-catalog/src/fat32.rs:508-523 | short names within a directory are pairwise distinct, and the slots are counted exactly |
| `FatImage.NameDirs` | crates/datboi-catalog/src/fat32.rs:505-532 | every directory named, or refused exactly for one over the slot limit |
| `FatImage.Allocate` | crates/datboi-catalog/src/fat32.rs:534-561 | contiguous runs in order, or refused for too many clusters |
| `FatImage.AllocatedEntry` | crates/datboi-catalog/src/fat32.rs:572-592 | an allocated cluster's entry is the end mark or a cluster number below the reserved ones, never zero |
| `FatImage.InfoTellsFree` | crates/datboi-catalog/src/fat32.rs:675-684 | the FSInfo free count is the number of clusters the table marks free, and its hint the first of them |
| `FatImage.SegmentList` | crates/datboi-catalog/src/fat32.rs:686-735 | the segments in output order |
| `FatImage.Layout` | crates/datboi-catalog/src/fat32.rs:498-748 | success gives the table, directories, geometry and segments of a plan of the input; it succeeds exactly when the cluster size is one FAT32 has, nothing is wrong with the files and the format has room for what they need, and a refusal names the fault or the number that is too large |
| `FatCapacity.TreeDirs` | crates/datboi-catalog/src/fat32.rs:218-330 | a tree of the files has just the directories their paths pass through, each once |
| `FatCapacity.TreeNames` | crates/datboi-catalog/src/fat32.rs:218-330 | in name order, the children of a directory are the first parts of what the files have below it |
| `FatCapacity.ShortForIs` | crates/datboi-catalog/src/fat32.rs:508-523 | the short name a search finds is a function of the long name and the names taken before |
| `FatCapacity.UsedIsNeeded` | crates/datboi-catalog/src/fat32.rs:534-560 | the clusters a plan uses are those the files need, whatever order the directories were made in |
| `FatImage.LayoutRenders` | crates/datboi-catalog/src/fat32.rs:686-735 | rendered with contents of the files' sizes, the segments are the boot area, two equal tables, directories, file clusters and free space, in that order |
| `FatImage.LengthsSum` | crates/datboi-catalog/src/fat32.rs:686-741 | segment lengths sum to the image size |
| `FatImage.DataLength` | crates/datboi-catalog/src/fat32.rs:700-733 | the data area is the cluster count times the cluster size |
| `FatRead.MountBack` | crates/datboi-catalog/src/fat32.rs:762-832 | a reader that knows only the format finds the volume in the rendered image, partitioned or not |
| `FatRead.FollowRun` | crates/datboi-catalog/src/fat32.rs:563-592 | following the table from a run's first cluster gives exactly the run's bytes |
| `FatRead.FileBack` | crates/datboi-catalog/src/fat32.rs:498-748 | a file's entry and chain give exactly its content, empty files included |
| `FatRead.FileLands` | crates/datboi-catalog/src/fat32.rs:700-733 | a file's bytes lie in the image at data_offset plus its first cluster's distance |
| `FatRead.ReadRootBlock` | crates/datboi-catalog/src/fat32.rs:596-648 | the root's clusters parse as the label and the root's children |
| `FatRead.ReadSubBlock` | crates/datboi-catalog/src/fat32.rs:596-648 | a directory's clusters parse with dot entries that name itself and its parent |
| `FatRead.EveryFileRead` | crates/datboi-catalog/src/fat32.rs:218-330 | walking the tree from the root meets every file |
| `FatRead.OrderOnce` | crates/datboi-catalog/src/fat32.rs:218-330 | and meets none twice |
| `FatRead.ReadBack` | crates/datboi-catalog/src/fat32.rs:498-748 | read-back: whenever layout succeeds, a specification reader over the rendered image returns exactly the input's paths, sizes and contents, each file once |
| `FatRead.LegalLabelIsPlain` | crates/datboi-catalog/src/fat32.rs:144-172 | any label built by the source meets the read-back's label condition |
| `FatConform.ImageConforms` | crates/datboi-catalog/src/fat32.rs:498-748 | over the rendered image, in a driver's terms: every field of boot sector and partition record; the FSInfo sector the boot sector points to has its signatures, the table's free count and first free cluster; the backup it points to equals it; hidden sectors, media byte, serial and signature agree with partition, table and parameters; the count makes it FAT32 |
| `FatConform.LabelTold` | crates/datboi-catalog/src/fat32.rs:762-798 | the boot sector's label is that of the root directory |
| `FatConform.SlackIsZero` | crates/datboi-catalog/src/fat32.rs:700-733 | behind a file's content its last cluster is zero |
| `FatConform.FreeIsZero` | crates/datboi-catalog/src/fat32.rs:700-733 | a cluster the table calls free is zero |
| `FatConform.VolumeIsLeast` | crates/datboi-catalog/src/fat32.rs:534-565 | the least cluster count that is FAT32's and holds what is used, and a table of just the sectors its entries need |
| `Image.InputTable` | crates/datboi-catalog/src/image.rs:180-190 | each blob has one index, in order of first use, behind the two skeletons |
| `Image.SegmentAgrees` | crates/datboi-catalog/src/image.rs:220-245 | each mapped segment stands, over the input table, for exactly the bytes its layout segment renders to |
| `Image.OutputAgrees` | crates/datboi-catalog/src/image.rs:220-263 | the assemble output of the mapped segments is a rendering of the layout, even when one blob backs several paths |
| `Image.MappedValid` | crates/datboi-catalog/src/image.rs:246-255 | the mapped parameters pass assemble's validation |
| `Image.Mint` | crates/datboi-catalog/src/image.rs:139-300 | minting succeeds exactly when the rows make a FAT32 image and every blob is there, indexed at its size and no shorter than its row; the recipe is then valid and faithful, and a refusal names its reason |
| `Image.MintReadsBack` | crates/datboi-catalog/src/image.rs:139-300 | materialising a minted recipe gives an image in which a reader finds every row once, at its path, with its own blob's content |
| `FolderSplit.CrcAppend` | crates/datboi-ex-7z/csrc/glue.c:242-282 | the running checksum over pieces is the checksum of the whole |
| `FolderSplit.Split.OpenFile` | crates/datboi-ex-7z/csrc/glue.c:230-240 | the next member is opened with the remaining request order kept |
| `FolderSplit.Split.CloseFile` | crates/datboi-ex-7z/csrc/glue.c:242-253 | a member closes exactly when its checksum fits; the served members are settled |
| `FolderSplit.Split.Feed` | crates/datboi-ex-7z/csrc/glue.c:255-282 | any chunk advances the same position; an error only on a stream no continuation can save |
| `FolderSplit.Split.Finish` | crates/datboi-ex-7z/csrc/glue.c:285-303 | succeeds exactly on an accepted stream and then every sink holds its members |
| `FolderSplit.RunSplit` | crates/datboi-ex-7z/csrc/glue.c:230-303 | for every way of cutting the stream: success if and only if the whole stream is accepted, and then each requested member's sink received precisely its own range |
| `FolderBatch.SortRequests` | crates/datboi-ex-7z/csrc/glue.c:1017-1031 | the in-place insertion sort leaves the same requests in ascending file order |
| `FolderBatch.CheckRequests` | crates/datboi-ex-7z/csrc/glue.c:1033-1039 | refuses exactly requests beyond the archive, for a directory, or repeated |
| `FolderBatch.GroupEnd` | crates/datboi-ex-7z/csrc/glue.c:1052-1057 | the group is exactly the sorted requests of one folder |
| `FolderBatch.DecodeFolder` | crates/datboi-ex-7z/csrc/glue.c:861-999 | a folder succeeds exactly when its decoder does and its stream is accepted for the group's requests |
| `FolderBatch.ServeSorted` | crates/datboi-ex-7z/csrc/glue.c:1041-1060 | each folder is decoded at most once, in order, and success serves every request its content |
| `FolderBatch.Extract` | crates/datboi-ex-7z/csrc/glue.c:1004-1064 | the same for requests in any order; sound folders never fail |
| `FolderBatch.EachRequestServed` | crates/datboi-ex-7z/csrc/glue.c:1004-1064 | each request of a successful batch gets its file's bytes and nothing else, whatever is requested beside it |
| `FolderEmit.Branch.Emit` | crates/datboi-ex-7z/csrc/glue.c:373-427 | the carry tail makes converter output independent of where chunks end |
| `FolderEmit.Branch.Finish` | crates/datboi-ex-7z/csrc/glue.c:430-473 | the last bytes too short to convert pass as they are |
| `FolderEmit.RunFiltered` | crates/datboi-ex-7z/csrc/glue.c:373-473 | for every chunking a filtered folder succeeds exactly when the whole-buffer conversion is accepted, and delivers the members of that conversion |
| `FolderEmit.Pump` | crates/datboi-ex-7z/csrc/glue.c:505-564 | ends for every decoder that keeps its calling contract, never hands on more than the declared size, succeeds only with exactly that much taken and the packed stream used up; a decoder of some output has its front handed on, and on a sound stream only the emit stage can make it fail |
| `FolderEmit.RunPacked` | crates/datboi-ex-7z/csrc/glue.c:861-999 | from the packed stream through decoder, window, filter and splitter: success delivers the members of the converted output, and on a sound stream it succeeds exactly when the job accepts that conversion |
| `FolderEmit.StoredDecodes` | crates/datboi-ex-7z/csrc/glue.c:477-497 | the stored method is a decoder in this sense, that decodes a stream to itself and never stalls |
| `FolderEmit.PlainIsWhole` | crates/datboi-ex-7z/csrc/glue.c:373-379 | a folder without a filter is the case of a stage that converts everything to itself |
| `Bless.Coordinator.Offer` | crates/datboi-exec/src/bless.rs:402-408 | a held job is sent exactly when nothing is in flight or the budget has room for it, and otherwise nothing changes |
| `Bless.Coordinator.Stage` | crates/datboi-exec/src/bless.rs:421-463 | exactly the next candidate is taken and counted as triage says |
| `Bless.Coordinator.Select` | crates/datboi-exec/src/bless.rs:434-458 | a selected candidate is counted once and becomes the held job of its number, length and tree size, or is only counted on a dry run; the limit ends staging |
| `Bless.Coordinator.Walk` | crates/datboi-exec/src/bless.rs:410-464 | staging stops only with a job held that the budget does not admit, the walk over or 256 jobs out |
| `Bless.Coordinator.Retire` | crates/datboi-exec/src/bless.rs:477-557 | one job that was out comes back and the report says how it went; a verdict that stops the walk takes page and held job with it |
| `Bless.Coordinator.Loop` | crates/datboi-exec/src/bless.rs:379-559 | in every interleaving the loop ends with nothing out. The rows are the table's of more than one group and of the asked size; all are examined in id order, unless the limit is reached, and then by the last one examined, or a verdict stops the walk. Every selected row goes out once as its job, but for one a stop may let go, and comes back once; each counter is the number of rows with that triage or verdict, the byte counts their sizes, the failures exactly those rows that failed |
| `Bless.WholeRun` | crates/datboi-exec/src/bless.rs:379-559 | a run that no verdict stops examines every row of the population, or up to the one that fills the limit, does every selected one of them, and counts just those |
| `Bless.RunDoes` | crates/datboi-exec/src/bless.rs:379-559 | the jobs that came back are those of the selected rows examined, but for one let go |
| `Bless.CandidatesCounted` | crates/datboi-exec/src/bless.rs:286-374 | there are as many rows to examine as the count over the same condition says |
| `Bless.JobsAre` | crates/datboi-exec/src/bless.rs:444-455 | the jobs are in row order, each with its row's length and tree size, one for every selected row |
| `Bless.OutboardSizeIs` | crates/datboi-exec/src/bless.rs:444-455 | a tree has 64 bytes for each 16 KiB group but one |
| `Bless.SendKeeps` | crates/datboi-exec/src/bless.rs:699-707 | inflight stays the weight of what is out, outstanding its number, through the held path too |
| `Bless.BudgetKept` | crates/datboi-exec/src/bless.rs:387-484 | reads off the invariant that every step above preserves: the budget is charged exactly what is out and exceeded by a lone job only, the queue is bounded with the held job included, and what went out is what came back plus what is out |
| `Bless.CompleteMeansDone` | crates/datboi-exec/src/bless.rs:196-241 | what the report owes is what was selected and not blessed; a finished run calls itself complete exactly when it examined as many as there should be and each is skipped for a reason other than a failure, or blessed, and written where that is asked |
| `Bless.Pool.Receive` | crates/datboi-exec/src/bless.rs:477-484 | some job that is out comes back, any of them, and only it is no longer out |
| `Unify.AbsorbIsUnion` | crates/datboi-catalog/src/unify.rs:84-95 | absorbing a compatible tuple contains both and adds nothing of its own |
| `Unify.CommonContainer` | crates/datboi-catalog/src/unify.rs:51-63 | tuples within one tuple are compatible |
| `Unify.StrengthGrows` | crates/datboi-catalog/src/unify.rs:36-48 | a larger tuple is at least as strong |
| `Unify.SharedIdentityAgrees` | crates/datboi-catalog/src/unify.rs:143-267 | claims that share an identity never disagree on a hash |
| `Unify.MergeKeepsEvidenceUnless` | crates/datboi-catalog/src/unify.rs:232-240 | what a merge does to a link: its best evidence falls exactly when the loser's was better |
| `Unify.UnifyLowersExactly` | crates/datboi-catalog/src/unify.rs:200-250 | unifying a claim lowers a link exactly when the survivor has its own link to the blob with a lower basis; where it has none it inherits one of the merged |
| `Unify.EvidenceLost` | crates/datboi-catalog/src/unify.rs:97-250 | a run from empty tables: a disk's SHA-1 that a CHD declares and the MD5 of the CHD file are two identities, a claim with both merges them, and the blob's evidence falls from MD5 to declared, also after linking again |
| `Unify.Catalog.LinkIdentities` | crates/datboi-catalog/src/unify.rs:287-338 | every link has the best evidence the aliases give it or the better one it had; linking again never lowers any |
| `Unify.Survivor` | crates/datboi-catalog/src/unify.rs:196-199 | the strongest qualifying identity, the oldest among equals |
| `Unify.Qualifying` | crates/datboi-catalog/src/unify.rs:150-194 | exactly the identities that are compatible and share some hash, a strong one or CRC with size, each once |
| `Unify.QualifiesExactly` | crates/datboi-catalog/src/unify.rs:50-83 | a claim may share an identity exactly when some tuple has all the two know and they share a strong hash, or CRC and size |
| `Unify.PromisedExactly` | crates/datboi-catalog/src/unify.rs:184-194 | the filter lets through every match as strong as the weaker of the two can offer, and more exactly when neither one's strongest hash is known to the other |
| `Unify.StrongOnCrc` | crates/datboi-catalog/src/unify.rs:145-267 | a run past that promise: an identity with a SHA-1 takes in a claim whose strong hash is an MD5, on size and CRC alone |
| `Unify.Catalog.MergeInto` | crates/datboi-catalog/src/unify.rs:219-249 | losers that still agree are merged, the others conflict with what the survivor now knows |
| `Unify.Catalog.UnifyClaim` | crates/datboi-catalog/src/unify.rs:145-267 | the invariant is kept and nothing is lost; the preferred qualifying identity survives or a new one is made of the claim, only qualifying identities move to it and only conflicting ones stay, it knows exactly what the claim and they knew, and every link is one of theirs |
| `Unify.Catalog.SetIdentity` | crates/datboi-catalog/src/unify.rs:126-135 | linking a claim to an identity that contains it keeps the invariant |
| `Unify.Catalog.UnifyRevision` | crates/datboi-catalog/src/unify.rs:100-141 | the claims take their turns in order, each unified with what is there and linked to the identity it then has, a claim without a usable hash changing nothing; the identities returned are exactly those of the turns. Over the whole revision the invariant is kept, nothing is lost, exactly the claims with a usable hash end up linked, each to an identity that is returned, and claims of other revisions stay unlinked |
| `Unify.Catalog.UnifyAndLink` | crates/datboi-catalog/src/unify.rs:126-135 | one turn: unified, then linked to that identity |
| `ViewPaths.CanonicalParts` | crates/datboi-core/src/viewsnap.rs:254-260 | a path is canonical exactly when each component is a usable name |
| `ViewPaths.JoinCanonical` | crates/datboi-core/src/viewsnap.rs:254-260 | usable names joined by slashes are a canonical path |
| `ViewPaths.SanitizeComponent` | crates/datboi-catalog/src/views.rs:649-664 | any text becomes one usable name; a usable name without backslashes stays itself |
| `ViewPaths.SanitizedIsCanonical` | crates/datboi-catalog/src/views.rs:668-680 | any text becomes a canonical path; a canonical path without backslashes stays itself |
| `ViewPaths.ReplaceUtf8` | crates/datboi-catalog/src/views.rs:417-421 | expanding a placeholder keeps text well formed |
| `ViewProfiles.ProfileOf` | crates/datboi-catalog/src/profiles.rs:39-75 | every curated profile has the FAT charset, room for names and an entry cap |
| `ViewProfiles.Clean` | crates/datboi-catalog/src/profiles.rs:96-118 | the trimming loop computes the cleaned component |
| `ViewProfiles.CleanedIsGood` | crates/datboi-catalog/src/profiles.rs:96-118 | a usable name is cleaned into a usable name of the charset, with no dot or space at its end under the FAT charset |
| `ViewProfiles.StripNoisePrefix` | crates/datboi-catalog/src/profiles.rs:176-215 | the cursor leaves what stands behind a noise prefix, never nothing, unless a slice it compares cuts a character, and then the source stops |
| `ViewProfiles.NoiseEndExact` | crates/datboi-catalog/src/profiles.rs:176-215 | where it does not stop, the cursor finds a prefix exactly where the grammar of noise prefixes has one |
| `ViewProfiles.HaltsExactly` | crates/datboi-catalog/src/profiles.rs:176-189 | on well-formed text it stops exactly when a character lies across the place where ` games`, ` in `, `!` or ` - ` would end behind the numbers read so far |
| `ViewProfiles.CompressRegionTags` | crates/datboi-catalog/src/profiles.rs:220-251 | the scanning loop compresses group by group |
| `ViewProfiles.TrimTrailingJunk` | crates/datboi-catalog/src/profiles.rs:255-282 | passes over the stem reach the end of all junk, in whatever order it comes |
| `ViewProfiles.TrimStem` | crates/datboi-catalog/src/profiles.rs:255-282 | what is left ends in no junk and no empty brackets |
| `ViewProfiles.CapComponent` | crates/datboi-catalog/src/profiles.rs:286-307 | the cut is the last character boundary within the budget and the extension is kept; the source stops exactly when not even the first character fits |
| `ViewProfiles.CapGoesOn` | crates/datboi-catalog/src/profiles.rs:286-307 | a cap with room for one whole character and the longest extension never stops it |
| `ViewProfiles.FitComponent` | crates/datboi-catalog/src/profiles.rs:154-170 | the rules apply in order and only while the name is too long; it stops exactly when the first rule does |
| `ViewProfiles.ConstrainComponent` | crates/datboi-catalog/src/profiles.rs:96-122 | the pipeline of clean, fit and cap, or a stop in one of them, for every profile |
| `ViewProfiles.ConstrainHaltsExactly` | crates/datboi-catalog/src/profiles.rs:89-122 | under a profile with room for names it stops on exactly the components that are too long and have a character across such a place |
| `ViewProfiles.DigitThenKana` | crates/datboi-catalog/src/profiles.rs:176-215 | `1` and many three-byte characters: good text that stops every built-in profile it is too long for |
| `ViewProfiles.ConstrainedIsGood` | crates/datboi-catalog/src/profiles.rs:89-122 | what constraining gives, where it gives anything, is of the charset, fits the budget, and is usable exactly when stripping did not leave dots, which the FAT charset rules out |
| `ViewLayout.TaggedInjective` | crates/datboi-catalog/src/views.rs:428-433 | different paths or different tags never give the same tagged path |
| `ViewLayout.TaggedIsCanonical` | crates/datboi-catalog/src/views.rs:428-433 | a tagged canonical path is canonical and grows by no more than the reserve |
| `ViewLayout.WantedIsCanonical` | crates/datboi-catalog/src/views.rs:417-427 | whatever the template and the names, the wanted path, where the source gets to one, is canonical and leaves room for a tag |
| `ViewTemplate.ExpandsTemplate` | crates/datboi-catalog/src/views.rs:417-421 | a template stands for its pieces: `{entry}` for the entry's name as one component, `{name}` for the claim's path, `{alpha_bucket}` for the claim's letter, when no text put in spells a later placeholder |
| `ViewTemplate.EntryLeftExactly` | crates/datboi-catalog/src/views.rs:417-421 | an entry's name is left as it is under every plain template exactly when no brace in it starts a later placeholder, or could with template text behind it |
| `ViewTemplate.ClaimLeftExactly` | crates/datboi-catalog/src/views.rs:417-421 | the same for the claim's path and the letter's placeholder |
| `ViewTemplate.ComponentIs` | crates/datboi-catalog/src/views.rs:649-664 | slashes of both kinds and NUL become `_`, byte for byte, and an empty name or dots become `_` |
| `ViewTemplate.LetterIs` | crates/datboi-catalog/src/views.rs:587-593 | the capital of the last component's first character if that is a letter, else `#` |
| `ViewTemplate.TagIs` | crates/datboi-catalog/src/views.rs:428-433 | the tag is the hash's first four bytes in hex, in brackets behind a space |
| `ViewLayout.HaltsOnCuts` | crates/datboi-catalog/src/views.rs:417-427 | it gets to none exactly when a component of the expanded path is too long for the profile and has a character across a place where a noise prefix might go on |
| `ViewLayout.KanaClaimHalts` | crates/datboi-catalog/src/views.rs:417-427 | such a claim, for every built-in profile |
| `ViewLayout.ConstrainPath` | crates/datboi-catalog/src/profiles.rs:89-94 | every component constrained on its own; one that stops the source stops it all |
| `ViewLayout.LayOut` | crates/datboi-catalog/src/views.rs:395-446 | the loop with its set of seen paths computes the layout, counts included, unless an admitted claim stops the source |
| `ViewLayout.LayoutIsSound` | crates/datboi-catalog/src/views.rs:395-446 | rows have distinct canonical paths within the cap and each shows an admitted claim's content |
| `ViewLayout.ShownOrTaken` | crates/datboi-catalog/src/views.rs:428-445 | an admitted claim has a row of its content unless both its paths belong to earlier rows |
| `ViewLayout.ShownExactly` | crates/datboi-catalog/src/views.rs:428-445 | a blob is in the view exactly when some admitted claim of it finds its path or its tagged path free at its turn |
| `ViewLayout.TakenExactly` | crates/datboi-catalog/src/views.rs:428-437 | which paths are taken before a claim, from the claims alone: an earlier one wants the path, or has it for its tagged path and found its own taken |
| `ViewLayout.ShownTwiceExactly` | crates/datboi-catalog/src/views.rs:428-437 | however often a blob is claimed at a path it has at most two rows there, and two exactly when some claim repeats an earlier one before its tagged path is taken |
| `ViewLayout.ShownTwiceApart` | crates/datboi-catalog/src/views.rs:428-437 | when no claim is named like another's tagged path: two rows exactly when the first claim at the path and the next with a tag like the blob's are both for it |
| `ViewLayout.ShownTwiceWhere` | crates/datboi-catalog/src/views.rs:428-445 | the two rows are one at the path and one at the tagged path |
| `ViewLayout.OneRowEach` | crates/datboi-catalog/src/views.rs:428-445 | a layout has as many rows as claims that find a place |
| `ViewLayout.NothingLost` | crates/datboi-catalog/src/views.rs:428-445 | if no claim is named like another's tagged path and hashes differ early, no admitted blob is left out |
| `ViewLayout.SharedTagDrops` | crates/datboi-catalog/src/views.rs:428-445 | otherwise a third blob with the path of the first and a tag like the second's has no row at all |
| `ViewLayout.RepeatedBlobTwice` | crates/datboi-catalog/src/views.rs:428-445 | one blob claimed any number of times at one path, and nothing else, gets two rows |
| `ViewBuckets.DirChildren` | crates/datboi-catalog/src/views.rs:557-581 | exactly the immediate children of every directory on the way to a row |
| `ViewBuckets.BucketedLies` | crates/datboi-catalog/src/views.rs:520-532 | a bucketed path lies in a bucket of its old directory and keeps its leaf |
| `ViewBuckets.BucketedIsCanonical` | crates/datboi-catalog/src/views.rs:520-532 | it is canonical and no component grows |
| `ViewBuckets.BucketingIsSound` | crates/datboi-catalog/src/views.rs:517-548 | bucketing changes no hash, size or seek class, no row outside crowded directories, and keeps paths distinct and canonical |
| `ViewBuckets.MovedOrBlocked` | crates/datboi-catalog/src/views.rs:519-547 | a row of a crowded directory is at its place in the bucket, at the tagged form of that place, or found both taken; the tagged form is in the bucket exactly when the leaf has a dot or no directory name has one with something before it |
| `ViewBuckets.TagKeepsDirectory` | crates/datboi-catalog/src/views.rs:428-437 | a tagged path keeps its directory exactly when the last dot of the whole path is in the leaf or has nothing before it |
| `ViewBuckets.DottedDirectory` | crates/datboi-catalog/src/views.rs:519-547 | in the directory `v1.0` the leaf `A` is tagged to `v1 (tag).0/A/A`, out of bucket and directory |
| `ViewBuckets.MoveRow` | crates/datboi-catalog/src/views.rs:519-547 | the set of seen paths stays the set of the rows' paths through every move |
| `ViewBuckets.BucketOverfullDirs` | crates/datboi-catalog/src/views.rs:507-554 | in place: the rows are the moved rows, the counts are the crowded directories before and after and the rows that went to a tagged place |
| `ViewBuckets.TaggedWithin` | crates/datboi-catalog/src/views.rs:428-433 | a path within the cap leaves it when tagged exactly when the component that takes the tag has no room for one |
| `ViewBuckets.OverflowsExactly` | crates/datboi-catalog/src/views.rs:519-547 | bucketing takes a row past the name cap exactly when its directory is crowded, its place in the bucket is taken, the tagged one is free, and its name has no room for another tag |
| `ViewBuckets.EvaluateRows` | crates/datboi-catalog/src/views.rs:395-458 | unless an admitted claim stops the source, the rows are the layout moved into buckets, meet exactly what encoding a manifest demands, and exceed the name cap in exactly those cases; the counts of tagged, skipped, crowded and still crowded are exact |
| `ViewOverflow.TagPastCap` | crates/datboi-catalog/src/views.rs:395-458 | under each built-in profile, a view with a name of one tag more than its cap |
| `ViewManifest.EncodeView` | crates/datboi-core/src/viewsnap.rs:85-138 | succeeds exactly on distinct canonical paths with known seek classes, and encodes the rows sorted |
| `ViewManifest.DistinctAscends` | crates/datboi-core/src/viewsnap.rs:85-98 | sorting finds a repeated path exactly when there is one |
| `ViewManifest.DecodeView` | crates/datboi-core/src/viewsnap.rs:144-190 | succeeds on exactly the spellings of a snapshot, absent fields read as empty, with that snapshot |
| `ViewManifest.RoundTrip` | crates/datboi-core/src/viewsnap.rs:85-190 | encoding then decoding gives the rows back in path order and no time |
| `ViewManifest.MissingNameReadsEmpty` | crates/datboi-core/src/viewsnap.rs:144-190 | decoding is not injective: a payload without a name decodes like one with an empty name |
| `ViewManifest.ReencodesExactly` | crates/datboi-core/src/viewsnap.rs:85-190 | decoding and encoding again gives the same bytes back exactly for the current version with name, sources and rows all there |

## Left out

- SQLite, the file system, threads, wasmtime and the network: the index and the
  store are maps and sets, the workers a nondeterministic pool, and an
  operator's run a verdict parameter (proved, disproved, undecided).
- I/O failures inside an operation, and a crash between a file drop and its row:
  recovery is not part of this model.
- Hashing, tree validation and signatures: hashes are names, a tree check is any
  function that accepts only true bytes, and the signature envelope of a state
  snapshot is not modelled, only its signed payload.
- Integer overflow of byte and cluster sums past 64 bits where the source adds
  without a check; sizes are unbounded there and checked where the source checks.
- The order in which the index lists candidates, pools and pages is a parameter;
  recipes of an output come in recipe order.
- The component cache is a set of compiled hashes; instantiation limits and fuel
  are not modelled.
- `materialize`, `rehabilitate`, spill files and the one-off blessing's own
  execution: `ServeRange.Server.Serve` takes whether the blessing succeeds.
- ServeRange.Server.ServeCarved: whether some leaf fails its own check is one flag for the whole read, because a leaf gives true bytes or an error and the first error ends the read; a literal recorded with another length than its content is such a leaf.
- Exec.Executor.PackOneSet: outboards stay where they are, because a sealed pack carries its members' trees; whether sealing succeeds is a parameter.
- Exec.Executor.SwapOne: the report's counters are not modelled, and writing the members into one sealed file is one step that succeeds or fails.
- Bless.Coordinator.Loop: the branch for a pool that died with results owed is not modelled, because workers here always answer; failure messages are not kept.
- FatTree.BuildTree: upper-casing is a parameter, any function on names, since the Unicode tables are not part of this model.
- FatImage.Layout: when several directories are over the slot limit, which of them the refusal names is not stated.
- FatImage.NameChildren: it stops once a directory is past its slot limit, where the source goes on and refuses afterwards with the same result.
- FatRead.ReadBack: the volume label must not look like a long-name or directory entry, which every label built by the source satisfies.
- Image.Mint: fewer than 2^32 - 1 rows, where the source stops with a panic.
- FolderEmit.RunFiltered: the branch converter is any function that keeps the resume contract; BCJ2 and Delta are not modelled.
- FolderEmit.Pump: the LZMA decoder is any function that keeps its calling contract; LZMA2 differs only in the decoder, and the drivers of PPMd and stored streams, which have no window, are not repeated.
- FolderBatch.DecodeFolder: the decoder's pieces reach the splitter after the decoder's own verdict, not interleaved with it, so sinks of a failing folder are not described.
- Unify.Catalog.UnifyClaim: rows of identity_status are not modelled; minted row numbers are any fresh number.
- ViewProfiles.CompressRegionTags: the region table with its trimming and case folding is a parameter that yields capital letters.
- ViewLayout.LayOut: selection, MAME rendering and the query behind the picked claims are inputs; the seek class is a function of the hash.
- ViewManifest.DecodeView: error texts are not told apart.
- 1G1R selection, diffs, policy, scrub, MAME sets, clrmamepro, the API, NFS and
  HTTP surfaces: easier than what is here or plumbing.
