# A verified model of the write path

This project models the write path of a Nix binary cache that is published over Nostr and Blossom,
and proves what that path is for: a tree that was written can be read back, building on an earlier
tree is the same as building from scratch, nothing is announced unless everything it points to is
stored, and the store, the overlay and the schedulers around it keep their promises in every
interleaving.

Durable tables are maps and sets and a transaction is one atomic step. A run suspends wherever the code
may, and in places also where it does not, so runs allow more interleavings than the code has; they
include crashes and restarts. A class models each object that updates fields in place, and its methods
are proved against functions on the table contents; the theorems are about those functions and about
whole runs.

`dafny verify dfyconfig.toml` checks everything.

## The parts

**Trees.** `NameOrder` (UTF-8 and UTF-16 name order), `RouteTexts` (routes and their segments),
`Grouping`, `Manifests` (links, manifests and the decoder's rules), `DecodedCosts` (what a decoded
manifest costs), `Shapes` (collapsing a list of links into levels of manifests), `Tables` (the writer's
`nodes` table), `Reader` (the walk), `FileTrees` (files of two-mebibyte chunks), `Trees` (whole
directory trees), `RoundTrip` (the two central laws), `TreeSizes` (what sizes add up to), `Integrity`
(reading from stores nobody vouches for), `Writer`, `FileBuilds`, `Imports`, `Builds` and `Rebuilds` (the
imperative writer), `Resolver` and `Materialize` (the imperative reader), `Published` (which built trees
can be taken as a base again), `Reachability` (which blobs a root needs), `Sums`.

**Publication.** `SagaModel` (the tables and what each repository call does), `SagaInvariant`,
`SagaClaims` (what the calls do, row by row), `SagaRuns` (the coordinator and its crashes), `SagaTime` (dates, generations and batch ids),
`SagaCollision` (runs in which two batches share an id), `SagaRepository` (the class), `EndToEnd`.

**Blob store.** `LeaseCounts`, `BlobModel`, `BlobInvariant`, `BlobEviction`, `BlobRuns`, `BlobRecency`
(when blobs were last used), `BlobStore`.

**Eligibility and overlay.** `Eligibility` (the fixed point), `EligibilityRuns` (recomputations that
are suspended between capturing, scanning and committing), `OverlayModel`, `OverlayMeaning` (what the
calls do, row by row), `OverlayRepository`.

**Smaller cores.** `ChunkedBody` and `ResponseBodies` (response framing), `NarStaging` (cutting an
upload), `BatchWindow` and `BatchScheduler`, `UploadAuthorization`, `NarInfos` and `MergedCache`,
`NarInfoTexts`, `Base64Texts` and `Fingerprints` (narinfos as they are written and signed), `Numerals`.

SHA-256 and MessagePack appear as a `Codec` whose digest is injective and whose decoder inverts its
encoder (`Manifests.Faithful`). Files on disk, clocks, signers, sockets and the removal of files are
parameters.

## Where the code does less than one might expect

Each of these is kept as the code has it, with an input or run that shows it and the exact condition
under which all is well.

- A root directory with more entries than fit one manifest becomes a fan-out, which neither the
  reader nor the base import accepts: `RoundTrip.RootFansOut`; `RoundTrip.ReadableIff` and
  `Rebuilds.BuildOver` have the condition.
- The writer accepts an empty file, but a reader asks for at most its declared size and refuses to ask
  for nothing: no budget reads it back (`RoundTrip.EmptyFileLost`, `RoundTrip.EmptyNeverDelivered`,
  `RoundTrip.ReadableIff`), and a tree that shows one cannot be materialised
  (`Published.MaterializableIff`, `Published.MaterializeBuilt`).
- The writer orders names by UTF-8 bytes, the reader compares fan-out bounds as UTF-16 strings. A
  name can be listed and yet be called absent (`RoundTrip.SupplementaryNameLost`); a listed name is
  found exactly when every fan-out routes it to its own child (`Reader.FoundIffRouted`, and for whole
  routes `Trees.WalkRoute`), which holds for names without supplementary characters
  (`Reader.BasicRouted`, `RoundTrip.BasicFindable`).
- A file below another file's route can never be read: the shadowed routes in `RoundTrip.RoundTrip`.
- A refresh numbers its saga from the saga tables, batches are numbered by their own counter. The two
  can meet. A batch that is given the id of an unsigned refreshed saga and shares a blob with it then
  cannot be claimed until another candidate is recorded (`SagaTime.RefreshBlocksBatch`,
  `SagaTime.StuckRun`); once the refreshed saga is admitted, its next refresh lets the claim through
  (`SagaTime.RefreshUnblocks`). A batch that can be claimed leaves two sagas under one id, and a recorded
  event is lost when a later one is archived over it or a refresh finds its place in the archive taken:
  `SagaCollision.ClaimLosesEvent`, `SagaCollision.RefreshLosesEvent`, exactly when
  `SagaTime.StepKeepsEventsIff` says. With the event its date is forgotten, and the next event may be
  given the same one (`SagaCollision.EventsDatedAlike`).
- Transferring ownership from an owner to itself drops it: `BlobInvariant.SelfTransferLoses`,
  `BlobInvariant.TransferKeepsOwnedIff`.
- A restart forgets leases, so a written blob that only a reader held stays, without an owner, until
  the sweep of some transfer passes it: `BlobInvariant.RestartLoses`, `BlobInvariant.RestartAccountedIff`.
- Committing a route forgets blobs its upload wrote that are not components:
  `BlobInvariant.CommitLeavesBlob`, `BlobInvariant.CommitRouteAccountedIff`.
- A NAR shared by several narinfos triggers the recomputation of one of them only:
  `Eligibility.SharedNarMissed`, `Eligibility.SharedNarIff`.
- A recomputation decides from the references it captured. A path recorded again while the lower layer is
  asked about one of them is listed although its new references are not:
  `EligibilityRuns.StaleReferencesAdmitted`, `EligibilityRuns.FinishHoldsIff`, and over runs
  `EligibilityRuns.RunHoldsIff`.
- A narinfo's fingerprint does not tell its references apart where store names may have commas: exactly
  one reference that cannot be cut in two is told (`Fingerprints.WholeIff`), and names with semicolons
  can shift everything (`Fingerprints.SemicolonsCollide`). Among narinfos without them equal fingerprints
  mean equal path, hash, size and references (`Fingerprints.FingerprintIff`).
- A chunk-size or trailer line exactly as long as its ceiling is accepted or refused depending on
  where a read ends: `ChunkedBody.TakeLineSplitIff`, `ChunkedBody.SplitIndependentIff`.

## Model

| member | source | states |
|---|---|---|
| NameOrder.ByteOrderIsCodeOrder | src/hashtree/writer.ts:685-690 | ordering names by their UTF-8 bytes is ordering them by code points |
| NameOrder.ScriptOrderOnBasic | src/hashtree/reader.ts:309-318 | on names of basic characters the reader's UTF-16 comparison is the writer's byte order |
| NameOrder.OrdersDisagree | src/hashtree/reader.ts:309-318 | a concrete pair of names the two orders rank differently |
| NameOrder.EncodingsReadBack | src/hashtree/reader.ts:309-318 | the UTF-8 bytes and UTF-16 units both orders compare read back as the name |
| RouteTexts.SplitSegment | src/hashtree/writer.ts:346-346 | segments come in the order in which they stand between the slashes, which determines the split |
| RouteTexts.SegmentsTexts | src/hashtree/writer.ts:346-346 | a route text is its segments with slashes between them, and different texts have different segments |
| RouteTexts.SplitTextOf | src/hashtree/writer.ts:346-346 | segments without slashes, written with slashes between them, are cut into the same segments |
| Grouping.ConcatGroups | src/hashtree/writer.ts:637-655 | cutting into groups loses, repeats and reorders nothing |
| Grouping.GroupSizes | src/hashtree/writer.ts:637-655 | every group but the last is full, none is empty, and there are ceil(n/k) of them |
| Grouping.GroupsShrink | src/hashtree/writer.ts:557-657 | a level of more than k links becomes strictly shorter, so collapsing ends |
| Manifests.CheckManifest | src/protocol/hashtree.ts:172-269 | the loops carrying the previous name and the prior last bound accept exactly the manifests that satisfy the shape rules |
| DecodedCosts.DecodedCostIs | src/protocol/hashtree.ts:116-131 | the figure compared with the ceiling is the cost of the whole decoded value, key by key |
| Shapes.FlattenCollapse | src/hashtree/writer.ts:557-657 | the levels a list is collapsed into represent exactly that list |
| Shapes.CollapseHeight | src/hashtree/writer.ts:557-657 | all leaves are equally deep, and the height is the logarithm of the link count |
| Shapes.SiblingsApart | src/hashtree/writer.ts:612-632 | sibling bounds are ordered and disjoint in every emitted fan-out |
| Shapes.NodeValid | src/hashtree/writer.ts:557-657 | every manifest of a collapsed ordered list satisfies the decoder's rules |
| Tables.HiddenRowsIrrelevant | src/hashtree/writer.ts:677-708 | rows under a file do not influence any directory that can be reached |
| Tables.OverlayTwice | src/hashtree/writer.ts:368-403 | inserting files in two batches leaves the rows of inserting them at once, the later winning |
| Tables.OverlayOfVisible | src/hashtree/writer.ts:293-403 | overlaying what an import can see gives the same visible rows as overlaying everything |
| Reader.FanWalk | src/hashtree/reader.ts:282-374 | through any number of fan-out levels the walk arrives at the entry the reader sees for the segment: the listed one where every fan-out routes the name to its own child, none otherwise |
| Reader.FanWalkBounded | src/hashtree/reader.ts:282-374 | with any depth budget the walk gives that same answer or runs out of budget |
| Reader.FoundIffRouted | src/hashtree/reader.ts:309-324 | a listed name is found exactly when at each fan-out the first span holding it, in the reader's order, is its own, and is called absent otherwise |
| Reader.BasicRouted | src/hashtree/reader.ts:309-324 | names without supplementary characters are routed right at every fan-out |
| FileTrees.FileShapeProperties | src/hashtree/writer.ts:405-528 | a file's manifests are valid, all equally deep and represent its chunks in order |
| FileTrees.FileLinkMeaning | src/hashtree/writer.ts:461-528 | a file of at most two mebibytes is linked as its blob, a longer one as the manifest of its pieces of that size |
| FileTrees.PlanNode | src/hashtree/reader.ts:454-524 | flattening any node of a stored file yields its chunks in order and their total size |
| FileTrees.ReadFile | src/hashtree/reader.ts:376-524 | flattening a stored file's manifests and fetching the pieces yields exactly its bytes, and for an empty file a refusal |
| FileTrees.ChunksNonEmpty | src/hashtree/writer.ts:461-488 | no chunk of a file is empty, so only the empty file asks for nothing |
| FileTrees.EmptyRefused | src/hashtree/reader.ts:376-411 | no budget lets a reader fetch an empty file |
| Trees.WalkRoute | src/hashtree/reader.ts:282-374 | resolving any route through nested directories, each with any number of fan-outs, finds the row of the table exactly when directories lead to it and every fan-out on the way shows it |
| Trees.WalkRouteBounded | src/hashtree/reader.ts:282-374 | the same for any depth budget, short of running out |
| Trees.BasicShown | src/hashtree/reader.ts:309-324 | where no name has a supplementary character every fan-out shows every row |
| Trees.CanonicalRealizes | src/hashtree/writer.ts:677-708 | the manifests the writer emits for a table are a readable tree for that table |
| TreeSizes.DirBytes | src/hashtree/writer.ts:547-708 | the sizes in a directory's links add up to the bytes of all files that can be reached below it, each counted once |
| TreeSizes.RootBytes | src/hashtree/writer.ts:547-708 | the root of a build declares the bytes of all its files but those below another file |
| RoundTrip.RoundTrip | src/hashtree/reader.ts:282-374 | for every file map and every maxLinks of at least 2, a written route that nothing blocks and every fan-out shows yields its size, type and exactly its bytes, or a refusal if it is empty; a directory is unsupported, and every other path is absent |
| RoundTrip.BasicFindable | src/hashtree/reader.ts:309-324 | files whose names have no supplementary characters are shown by every fan-out |
| RoundTrip.RootFansOut | src/hashtree/reader.ts:293-306 | with more than maxLinks top-level entries every path fails on the root's type |
| RoundTrip.ReadableIff | src/hashtree/reader.ts:282-411 | a written file is read back if and only if the root has at most maxLinks entries, no other file is in its way, every fan-out shows it and it is not empty |
| RoundTrip.EmptyNeverDelivered | src/hashtree/reader.ts:376-411 | whatever the budget and wherever it lies, a written empty file is never delivered |
| RoundTrip.EmptyFileLost | src/hashtree/reader.ts:376-411 | a file map of one empty file that the writer accepts and no reader gets |
| RoundTrip.HistoryIndependence | src/hashtree/writer.ts:278-404 | overlaying files on the rows visible in a built tree gives the root of building the merged map from scratch |
| RoundTrip.SupplementaryNameLost | src/hashtree/reader.ts:309-318 | a listed name that a reader calls absent because the two name orders differ |
| Integrity.GetAgrees | src/hashtree/reader.ts:282-524 | two stores of blobs filed under their digests that both deliver a path under a root deliver the same bytes, whatever else they hold and whatever the budgets |
| Integrity.DeliveredSize | src/hashtree/reader.ts:454-524 | from any store, what is delivered has exactly the size its directory declares |
| Reachability.ClosedCovers | src/hashtree/reader.ts:186-280 | a set of references closed under links contains everything reachable from its members |
| Writer.GroupMeaning | src/hashtree/writer.ts:605-636 | one flushed group is the manifest of exactly its children, with their sizes and counts summed |
| Writer.JoinForeseen | src/hashtree/writer.ts:557-657 | every manifest on the way to a collapsed root is one of that root, and its bytes are among the root's |
| Writer.WriterRun.Persist | src/hashtree/writer.ts:247-276 | the blob is in the inventory under its digest, the total is the sum of the inventory, and it fails exactly where a new blob would pass a ceiling |
| Writer.WriterRun.LogicalSize | src/hashtree/writer.ts:547-556 | the sum of the link sizes, or failure where it is not a safe integer |
| Writer.WriterRun.PersistManifest | src/hashtree/writer.ts:574-600 | the encoded manifest is in the inventory and everything it links to is referenced; it succeeds where the ceilings have room for its blobs and its sizes can be counted |
| Writer.WriterRun.FlushGroup | src/hashtree/writer.ts:605-636 | a group becomes one manifest and one link carrying its bounds, count and bytes; it succeeds where the ceilings have room for its blobs and its sizes can be counted |
| Writer.WriterRun.GroupLevel | src/hashtree/writer.ts:637-655 | one pass turns a level into its groups' links with at most maxLinks links buffered; it succeeds where the ceilings have room for its blobs and its sizes can be counted |
| Writer.WriterRun.CollapseRows | src/hashtree/writer.ts:557-657 | the level loop ends with the root of the collapsed list, its total size, and every manifest in the inventory; it succeeds exactly where the ceilings have room for these manifests and the total can be counted |
| FileBuilds.ReadChunks | src/hashtree/writer.ts:461-488 | reading a file registers exactly its two-mebibyte chunks in order, and succeeds where there is room for them |
| FileBuilds.TakeComponents | src/hashtree/writer.ts:415-459 | stored components are accepted exactly when in order, available, cut as a file would be and within the ceilings |
| FileBuilds.ComponentsAreChunks | src/hashtree/writer.ts:415-459 | components so cut are the chunks of the body they hold |
| FileBuilds.BuildFile | src/hashtree/writer.ts:405-528 | the same link results from a file and from its components, with all its blobs in the inventory; it succeeds exactly when the source is as declared, the size can be counted and there is room for what the file becomes |
| Imports.ImportDirectory | src/hashtree/writer.ts:293-335 | importing a tree through all its fan-outs yields exactly its visible rows, or fails exactly where a manifest on the way is past the ceiling, encoded or decoded; anything malformed is reported |
| Builds.InsertFiles | src/hashtree/writer.ts:337-404 | the rows after all files are the overlay of their routes; it succeeds exactly when there are not too many and every route is safe, its text short and its segments few enough, and its text after the one before it by bytes |
| Builds.BuildFiles | src/hashtree/writer.ts:658-676 | every file row holds its file's link; it succeeds exactly when every file can be built within the ceilings |
| Builds.SortedChildren | src/hashtree/writer.ts:683-689 | a directory's children, each once, in byte order |
| Builds.BuildDirectory | src/hashtree/writer.ts:681-706 | a directory row gets the root of its collapsed children, and fails only for lack of room or an uncountable size |
| Builds.BuildDirectories | src/hashtree/writer.ts:677-708 | deepest first, every directory gets its root after its children have theirs; it succeeds exactly when there is room for all their manifests and every size can be counted |
| Builds.ImportBase | src/hashtree/writer.ts:278-336 | the base's inventory is registered and its visible rows are imported; a readable base is imported exactly when its root is one directory manifest, no manifest is past the ceiling, encoded or decoded, and there is room for it |
| Builds.Build | src/hashtree/writer.ts:163-720 | the root is that of the base overlaid with the files, of a directory kind; everything it needs is in the inventory, whose references are closed; with a readable base or none, it succeeds exactly when routes, files, sizes, directories and base, with its manifests' encoded and decoded sizes, are acceptable for some set of blobs the ceilings have room for |
| Rebuilds.BuiltIsReadBack | src/hashtree/reader.ts:282-374 | the inventory a build leaves is a store from which a file is read back exactly when the root fits, nothing is in its way, every fan-out shows it and it is not empty |
| Rebuilds.BuiltIsBase | src/hashtree/writer.ts:278-336 | what a build leaves is a base that importing takes for the tree of its files |
| Rebuilds.BaseRootFits | src/hashtree/writer.ts:278-336 | an earlier build can be a base exactly when its root has at most maxLinks entries |
| Rebuilds.BuildOver | src/hashtree/writer.ts:163-720 | building new files over an earlier build gives the root of building both from scratch, the new ones winning, and succeeds exactly when the earlier root fits one manifest, no earlier manifest is past the ceiling, and the new routes, files and directories are acceptable within the ceilings |
| Resolver.FetchManifest | src/hashtree/reader.ts:412-452 | loading a manifest within the unique-node budget |
| Resolver.Resolve | src/hashtree/reader.ts:282-374 | the loop over hash, expected type and segment index computes the walk, or runs out of budget |
| Resolver.PlanFile | src/hashtree/reader.ts:454-524 | the recursive plan is the flattened file, or the budget ran out; it is the file whenever the budget affords the manifests the plan visits, and no more than those are spent |
| Resolver.RequestBudget.DebitLinks | src/hashtree/reader.ts:81-87 | link debits never pass the ceiling |
| Resolver.RequestBudget.Visit | src/hashtree/reader.ts:88-96 | each node counts once and never past the ceiling |
| Materialize.MaterializeRoot | src/hashtree/reader.ts:186-280 | lists exactly the blobs reachable from the root, each once, with the sum of their sizes; the inventory is closed under links, as a base has to be; it succeeds where every manifest below is complete and never where a blob below is empty |
| Materialize.Materializer.VisitManifest | src/hashtree/reader.ts:186-280 | after visiting a manifest everything reachable from it is held, and nothing else was added |
| Published.MaterializableIff | src/hashtree/reader.ts:186-280 | what a build leaves is complete where its root fits one manifest and no file that can be read is empty, and otherwise shows an empty blob or a root of the wrong type |
| Published.MaterializeBuilt | src/hashtree/reader.ts:186-280 | a built tree is materialised if and only if its root fits one manifest and no file that can be read in it is empty; the result is fit to be a base |
| SagaModel.ServerCompleteMeaning | src/persistence/write_repository.ts:1354-1362 | comparing two counts is equality of the proof set with the non-empty inventory |
| SagaClaims.ClaimMeaning | src/persistence/write_repository.ts:963-1053 | an active saga neither complete nor signed takes over the complete server of the latest admitted publication of its root that is on one of its destinations; it is the answer unless a newer candidate supersedes it while it is admitted or unsigned, with destinations and unused rows; then it is archived and one unproven saga for all of the pending inventory stands instead |
| SagaClaims.FirstClaimMeaning | src/persistence/write_repository.ts:996-1053 | without an active saga the pending candidate is claimed exactly with destinations and unused rows |
| SagaClaims.RefreshMeaning | src/persistence/write_repository.ts:1244-1305 | an admitted publication within the lead of its expiration starts over, unsigned, under an id above all others, with its inventory, proofs and complete server |
| SagaClaims.ProofMeaning | src/persistence/write_repository.ts:1337-1353 | exactly one proof more, exactly for a listed blob and a destination of the saga of that id |
| SagaClaims.CompleteMeaning | src/persistence/write_repository.ts:1354-1373 | recorded exactly for a server proven to hold every blob of a non-empty inventory; the saga keeps the server it has |
| SagaClaims.ProgressMeaning | src/persistence/write_repository.ts:1374-1437 | signing, acknowledging, committing and admitting each need the stage before, and keep the first event and relay |
| SagaInvariant.PendingKeeps | src/persistence/write_repository.ts:871-944 | recording a pending candidate keeps the invariant, in which a pending inventory covers what its root needs |
| SagaInvariant.ClaimKeeps | src/persistence/write_repository.ts:963-1053 | claiming, crediting an earlier proof and superseding keep the invariant |
| SagaInvariant.ProofKeeps | src/persistence/write_repository.ts:1337-1353 | recording a true proof keeps the invariant |
| SagaInvariant.CompleteKeeps | src/persistence/write_repository.ts:1363-1373 | a server recorded complete holds everything the root needs |
| SagaInvariant.SignedKeeps | src/persistence/write_repository.ts:1374-1406 | recording a signature keeps the invariant, in which every signed saga has a complete server |
| SagaInvariant.AcknowledgedKeeps | src/persistence/write_repository.ts:1407-1415 | recording an acknowledgement keeps the invariant, in which every acknowledged saga is signed |
| SagaInvariant.CommittedKeeps | src/persistence/write_repository.ts:1416-1424 | committing keeps the invariant, in which every committed saga is acknowledged |
| SagaInvariant.AdmittedKeeps | src/persistence/write_repository.ts:1425-1437 | admission keeps the invariant, in which every admitted saga is committed |
| SagaInvariant.RefreshKeeps | src/persistence/write_repository.ts:1244-1305 | starting a refresh, which moves the inventory and proofs to a new batch, keeps the invariant |
| SagaInvariant.PruneKeeps | src/persistence/write_repository.ts:1462-1476 | dropping the rows of settled batches keeps the invariant |
| SagaRuns.RunInvariant | src/write/publication_coordinator.ts:176-420 | the invariant holds in every state of every run, with a crash possible between any two calls |
| SagaRuns.SagaStages | src/persistence/write_repository.ts:963-1437 | at most one saga is active; admitted implies committed implies acknowledged implies signed implies a complete server among the destinations |
| SagaRuns.PublicationSafety | src/write/publication_coordinator.ts:176-325 | every recorded event names a server proven to hold every blob its root needs |
| SagaTime.GenerationsGrow | src/persistence/write_repository.ts:993-1022 | the active generation never decreases, and a signed but unadmitted saga is never superseded |
| SagaTime.EventsIncrease | src/write/publication_coordinator.ts:278-323 | over a whole run that loses no event, signed events have strictly increasing created_at, however the clock moves and whatever ids are given twice |
| SagaTime.EventNeverChanges | src/persistence/write_repository.ts:1374-1406 | an event once recorded under a batch id stays recorded under it through every run that loses no event |
| SagaTime.ClaimKeepsEventsIff | src/persistence/write_repository.ts:993-1053 | a replacing claim keeps all recorded events if and only if no other event is archived under the id of the saga it archives |
| SagaTime.RefreshKeepsEventsIff | src/persistence/write_repository.ts:1244-1305 | a due refresh keeps all recorded events if and only if no archived row under the active id has another event or none |
| SagaTime.StepKeepsEventsIff | src/write/publication_coordinator.ts:176-420 | these are the only steps of the coordinator that can lose a recorded event |
| SagaCollision.ClaimLosesEvent | src/persistence/write_repository.ts:993-1053 | a run with a forward clock in which a third batch supersedes an unsigned second one that has the id of a refreshed saga, and the refreshed saga's event is overwritten in the archive |
| SagaCollision.RefreshLosesEvent | src/persistence/write_repository.ts:1244-1305 | a run with a forward clock in which the second batch is published and its refresh drops its event |
| SagaCollision.EventsDatedAlike | src/write/publication_coordinator.ts:278-323 | a run with a forward clock in which two recorded events get the same created_at |
| SagaTime.ClaimFailsIff | src/persistence/write_repository.ts:1006-1053 | a replacing claim fails if and only if a candidate blob is already listed under its batch id |
| SagaTime.RefreshBlocksBatch | src/persistence/write_repository.ts:1255-1257 | in a sound repository a refresh can take the id of the next batch, whose claim then fails although the repository is still sound |
| SagaTime.StuckRun | src/write/publication_coordinator.ts:176-200 | such a state stays as it is, and no event is signed, through every run with crashes and pruning until another candidate is recorded |
| SagaTime.RefreshUnblocks | src/persistence/write_repository.ts:1244-1305 | where the saga of that id is admitted, its next due refresh moves its rows and the claim goes through |
| SagaRepository.WriteRepository.RecordPending | src/persistence/write_repository.ts:871-944 | exactly the given inventory is pending for the candidate, or, where a blob is not owned by the run or the batch ends up with another number of them, nothing changes; publication safety is kept |
| SagaRepository.WriteRepository.ClaimPublication | src/persistence/write_repository.ts:963-1053 | resumes the active saga, supersedes it only when admitted or unsigned and older, credits an earlier complete server of the same root, or rolls back; publication safety is kept |
| SagaRepository.WriteRepository.BeginPublicationRefresh | src/persistence/write_repository.ts:1244-1305 | a due, admitted saga starts over under a new id with its inventory, proofs and complete server, and the old one is archived; publication safety is kept |
| SagaRepository.WriteRepository.RecordBlobProof | src/persistence/write_repository.ts:1337-1353 | a proof is stored only for an inventory blob and a destination; publication safety is kept |
| SagaRepository.WriteRepository.ServerComplete | src/persistence/write_repository.ts:1354-1362 | the server has as many proofs as the batch has blobs, and some; SagaModel.ServerCompleteMeaning says what that means |
| SagaRepository.WriteRepository.RecordCompleteServer | src/persistence/write_repository.ts:1363-1373 | the first complete server is kept; publication safety is kept |
| SagaRepository.WriteRepository.RecordSigned | src/persistence/write_repository.ts:1374-1406 | the first event is kept, another one and an expired one are refused; publication safety is kept |
| SagaRepository.WriteRepository.RecordRelayAcknowledgement | src/persistence/write_repository.ts:1407-1415 | only after signing; the first relay is kept; publication safety is kept |
| SagaRepository.WriteRepository.CommitPublication | src/persistence/write_repository.ts:1416-1424 | only after an acknowledgement; publication safety is kept |
| SagaRepository.WriteRepository.MarkPublicationAdmitted | src/persistence/write_repository.ts:1425-1437 | only after the commit; publication safety is kept |
| SagaRepository.WriteRepository.PruneReleased | src/persistence/write_repository.ts:1462-1476 | the rows of released batches go, all others stay; publication safety is kept |
| EndToEnd.BuildCovers | src/hashtree/writer.ts:241-336 | a build's inventory contains every blob reachable from its root when its base inventory is closed |
| EndToEnd.WriterMeetsCoordinator | src/write/batch_scheduler.ts:110-147 | what the writer hands over is a candidate the publication machine accepts |
| EndToEnd.AnnouncedIsStored | src/write/publication_coordinator.ts:176-325 | in every reachable state a recorded root event names a server proven to hold every blob reachable from the announced root |
| LeaseCounts.TakeCounted | src/persistence/blob_store.ts:385-385 | counts stay equal to the number of handles given out when one is taken |
| LeaseCounts.DropCounted | src/persistence/blob_store.ts:392-396 | counts stay equal to the number of unreleased handles when one is released, with no entry at zero |
| BlobInvariant.DeleteFrees | src/persistence/blob_store.ts:552-571 | deleting a ready row frees exactly its size, also where the file stays |
| BlobInvariant.DeleteEachTrims | src/persistence/blob_store.ts:541-551 | a sweep removes only unowned and unleased rows, and every lost write row it passes |
| BlobInvariant.ReleaseOwnerKeeps | src/persistence/blob_store.ts:435-450 | releasing an owner keeps the invariant and leaves no write blob without owner or reader |
| BlobInvariant.TransferKeepsOwnedIff | src/persistence/blob_store.ts:420-427 | a transfer leaves all owned blobs owned if and only if the owners differ or each blob has another owner |
| BlobInvariant.SelfTransferLoses | src/persistence/blob_store.ts:420-427 | an owner that hands its only blob to itself loses it to the sweep |
| BlobInvariant.TransferOwnerKeeps | src/persistence/blob_store.ts:405-434 | between distinct owners the sweep after a transfer deletes nothing |
| BlobInvariant.TransferListedKeeps | src/persistence/blob_store.ts:405-434 | a transfer of listed blobs keeps the invariant and, between distinct owners, leaves no written blob without owner or reader |
| BlobInvariant.CommitRouteKeeps | src/persistence/blob_store.ts:470-516 | committing a route keeps owned blobs ready and the bytes within capacity |
| BlobInvariant.CommitRouteAccountedIff | src/persistence/blob_store.ts:489-511 | a new route leaves no lost write blob if and only if the upload owns none alone that is not a component or being read |
| BlobInvariant.CommitLeavesBlob | src/persistence/blob_store.ts:489-511 | an upload with one blob besides its component: the commit leaves that blob ready with neither owner nor reader |
| BlobInvariant.PromoteKeeps | src/persistence/blob_store.ts:318-372 | an admission stays within its reservation, and an owned write stays accounted for |
| BlobInvariant.LookupKeeps | src/persistence/blob_store.ts:373-391 | a lease keeps the invariant; BlobRecency.LookupMeaning says what it does |
| BlobInvariant.ReleaseLeaseKeeps | src/persistence/blob_store.ts:392-397 | ending a lease keeps it too, deleting a write blob nobody owns |
| BlobInvariant.RestartAccountedIff | src/persistence/blob_store.ts:572-576 | a restart leaves no lost write blob if and only if every ready one that is being read has an owner |
| BlobInvariant.RestartLoses | src/persistence/blob_store.ts:572-576 | a blob released while it is read: the restart leaves it ready with neither owner nor reader |
| BlobEviction.ReserveEvicts | src/persistence/blob_store.ts:187-209 | a reservation succeeds if and only if the unread candidates free enough, and deletes exactly the shortest sufficient prefix of them in (last access, hash) order, none when it already fits |
| BlobEviction.EvictionOrderUnique | src/persistence/blob_store.ts:526-531 | the eviction order is determined by last access and hash |
| BlobRecency.VictimsAre | src/persistence/blob_store.ts:526-536 | eviction takes from exactly the ready blobs that came from outside at least once, belong to nobody and are not being read |
| BlobRecency.LookupMeaning | src/persistence/blob_store.ts:373-391 | a read succeeds exactly for a ready row, dates it, counts one reader more and leaves everything else |
| BlobRecency.PromoteMeaning | src/persistence/blob_store.ts:318-372 | an admission leaves a ready row of that size and date, mixed where an earlier row came from another side, and changes nothing else but the owner and the reservation |
| BlobRecency.RunRecency | src/persistence/blob_store.ts:318-391 | over any run a ready row is dated by the last admission or read of its hash, or as at the beginning |
| BlobRecency.LongestUnusedFirst | src/persistence/blob_store.ts:526-531 | of two blobs used in a run the one used longer ago is considered for eviction first |
| BlobEviction.ReserveKeeps | src/persistence/blob_store.ts:187-209 | a reservation keeps the invariant |
| BlobRuns.RunSafe | src/persistence/blob_store.ts:187-450 | however steps interleave, ready plus reserved bytes stay within capacity and every owned or leased hash is ready; a restart forgets leases and reservations |
| BlobRuns.StepOwned | src/persistence/blob_store.ts:187-571 | an owner's row goes with a step if and only if the step gives it up; no deletion takes one along |
| BlobRuns.RunOwned | src/persistence/blob_store.ts:187-571 | what an owner holds stays with it and stays ready through every run until a step gives it up |
| BlobRuns.RunAccounted | src/persistence/blob_store.ts:216-450 | in every run with restarts that meets the conditions for its commits, transfers and restarts, every ready write blob admitted with an owner is owned or leased |
| BlobRuns.RunRoutes | src/persistence/blob_store.ts:470-516 | a committed route keeps its components and each of them stays ready |
| BlobStore.Store.MakeSpace | src/persistence/blob_store.ts:521-540 | evicts in the query order, sparing leased blobs, and stops as soon as the request fits |
| BlobStore.Store.Reserve | src/persistence/blob_store.ts:187-209 | succeeds with the bytes reserved after evicting in order, or fails with every table unchanged; the store's invariants are kept |
| BlobStore.Store.Promote | src/persistence/blob_store.ts:318-372 | the admitted bytes become a ready row in place of their reservation; a different size under the same hash is refused and changes nothing; the store's invariants are kept |
| BlobStore.Store.ReleaseLease | src/persistence/blob_store.ts:392-397 | one reader fewer; a write blob without owner is gone once the last reader is; the store's invariants are kept |
| BlobStore.Store.TransferOwner | src/persistence/blob_store.ts:405-434 | every blob of the one owner belongs to the other, and only write blobs without owner or reader are swept; the store's invariants are kept |
| BlobStore.Store.TransferListed | src/persistence/blob_store.ts:405-434 | exactly the listed blobs of the one owner go to the other; the store's invariants are kept |
| BlobStore.Store.ReleaseOwner | src/persistence/blob_store.ts:435-450 | the owner owns nothing, and of its blobs exactly the write blobs without another owner or a reader are deleted; the store's invariants are kept |
| BlobStore.Store.CommitRoute | src/persistence/blob_store.ts:470-516 | components are taken over one by one, a missing one rolls back, a repeated route only ends the upload; the store's invariants are kept |
| BlobStore.Candidates | src/persistence/blob_store.ts:526-531 | the eviction query: all candidates, in order |
| Eligibility.LeastUnique | src/write/eligibility.ts:63-90 | there is one least fixed point, so the scan order does not matter |
| Eligibility.LeastWithin | src/write/eligibility.ts:63-90 | only candidates in scope are added, each of them eligible in the end |
| Eligibility.IncrementalIsFull | src/write/eligibility.ts:51-95 | with a saturated prior state, recomputing the affected area alone gives the least fixed point over everything staged |
| Eligibility.NarInfoChange | src/persistence/write_repository.ts:473-503 | recording a narinfo makes nothing newly eligible outside its own area |
| Eligibility.NarChange | src/write/eligibility.ts:51-55 | staging a NAR makes nothing newly eligible outside the areas of the narinfos naming it |
| Eligibility.SharedNarIff | src/persistence/write_repository.ts:509-515 | recomputing from one narinfo of a NAR is right in every context if and only if all narinfos naming it are affected |
| Eligibility.SharedNarMissed | src/persistence/write_repository.ts:509-515 | two narinfos naming one NAR, of which the recomputation admits one although the other is as eligible |
| Eligibility.UnnamedNar | src/persistence/write_repository.ts:509-515 | a NAR no narinfo names changes nothing |
| Eligibility.Affected | src/persistence/write_repository.ts:516-520 | the recursive query yields the least set with the seed and every referrer |
| Eligibility.ReferencesClosed | src/write/eligibility.ts:74-84 | whether every reference is the path itself, known or below |
| EligibilityRuns.DrainedIsSaturated | src/write/eligibility.ts:20-31 | however changes arrive while a recomputation is suspended between capturing, scanning and committing, once nothing is queued, running or lost nothing eligible is missing |
| EligibilityRuns.FinishCovered | src/write/eligibility.ts:51-95 | a commit of stale results leaves nothing eligible without a change still queued for it |
| EligibilityRuns.ScanSensible | src/write/eligibility.ts:66-90 | each scan admits only what every saturated set has and gets closer to the end of the passes |
| EligibilityRuns.DoneIsLeast | src/write/eligibility.ts:63-90 | undisturbed passes end with the least fixed point over the candidates, cycles included and whatever their order |
| EligibilityRuns.DoneRecomputes | src/write/eligibility.ts:51-95 | that fixed point is the one over the whole affected area |
| EligibilityRuns.ReconcileCovers | src/write/eligibility.ts:32-47 | queueing every staged path covers whatever was left undone |
| EligibilityRuns.RunHolds | src/write/eligibility.ts:51-95 | where no path is recorded again with new open references while it is listed or captured, the overlay is closed under references and never loses a path |
| EligibilityRuns.RunHoldsIff | src/write/eligibility.ts:51-95 | over any run the overlay was closed under references all along if and only if there was no such commit and no listed path was recorded with a missing reference |
| EligibilityRuns.FinishHoldsIff | src/write/eligibility.ts:63-95 | a commit keeps the overlay closed if and only if nothing it admits has been recorded since the capture with a further reference that is neither itself, nor listed, nor admitted, nor below |
| EligibilityRuns.StaleReferencesAdmitted | src/write/eligibility.ts:51-95 | a run in which a path captured with a reference of the lower layer is recorded again with a further one while the lower layer is asked, and is listed without it |
| OverlayModel.ExtendedKeeps | src/persistence/write_repository.ts:608-662 | a new generation has the narinfo and NAR entries of every path it lists and at least the paths of all earlier ones |
| OverlayMeaning.CommitMeans | src/persistence/write_repository.ts:608-662 | one more generation exactly when every narinfo and body is there: the staged bodies under the routes of the listed paths, the old entries under all others, all older generations untouched |
| OverlayModel.PruneKeeps | src/persistence/write_repository.ts:1438-1461 | pruning spares the current, the leased and the newest admitted generation and alters none |
| OverlayMeaning.PruneMeans | src/persistence/write_repository.ts:1438-1461 | a generation with entries goes exactly when it is older than the newest admitted one, not current and not leased |
| OverlayMeaning.RecordMeans | src/persistence/write_repository.ts:473-503 | a narinfo row replaces one with the same path or route, and the path has the references recorded last |
| OverlayMeaning.ChangeMeans | src/persistence/write_repository.ts:505-515 | a change under nar/ is a NAR's route, any other begins with the 32 characters of its path |
| OverlayModel.RunGenerations | src/persistence/write_repository.ts:593-704 | along every run with restarts generations are complete, growing and immutable |
| OverlayModel.LeaseFreezes | src/persistence/write_repository.ts:593-607 | a leased generation and its snapshot stay as they were through commits, admissions, pruning and other releases |
| OverlayModel.AcquireIsFaithful | src/write/overlay.ts:30-39 | the snapshot handed out is what its generation holds |
| OverlayRepository.OverlayTables.RecordNarInfo | src/persistence/write_repository.ts:473-503 | the row replaces one with the same path or route, the references are replaced |
| OverlayRepository.OverlayTables.CommitOverlay | src/persistence/write_repository.ts:608-662 | the next generation, or nothing where a narinfo or body is missing |
| OverlayRepository.OverlayTables.Release | src/persistence/write_repository.ts:599-606 | the first release counts down and prunes, a second does nothing |
| OverlayRepository.OverlayTables.PruneAdmitted | src/persistence/write_repository.ts:1438-1461 | exactly the releasable generations go |
| OverlayRepository.OverlayTables.AffectedCandidates | src/persistence/write_repository.ts:505-547 | the staged paths of the affected area, or failure past the ceiling |
| OverlayRepository.OverlayTables.BeginRecompute | src/write/eligibility.ts:51-65 | a recomputation captures the candidates of the change, their references and the paths listed |
| OverlayRepository.Recomputation.Scan | src/write/eligibility.ts:66-90 | one candidate is admitted exactly when its NAR is staged now and its captured references are known or below; the fields then hold the scanned job of the run model |
| OverlayRepository.OverlayTables.FinishRecompute | src/write/eligibility.ts:91-95 | what was admitted is committed from the tables as they are by then, or nothing where something is missing |
| OverlayRepository.OverlayTables.Recompute | src/write/eligibility.ts:51-95 | undisturbed, the listed paths become the least fixed point over the area, as one new generation; on an exception nothing changes |
| OverlayRepository.OverlayTables.Reconcile | src/write/eligibility.ts:32-47 | from any state, where no call throws, nothing eligible is left out |
| ChunkedBody.TakeLineSplitIff | src/network/safe_fetcher.ts:337-354 | taking a line does not depend on how reads fall if and only if it is not exactly at its ceiling |
| ChunkedBody.RunSplit | src/network/safe_fetcher.ts:376-427 | reading by any splits gives what the whole stream means, errors included, unless a line at its ceiling was cut |
| ChunkedBody.SplitIndependentIff | src/network/safe_fetcher.ts:337-427 | the outcome is the same for all splits exactly for streams with no line at its ceiling, or with too long a line anyway |
| ChunkedBody.StreamDecodes | src/network/safe_fetcher.ts:381-427 | a stream written by the grammar, with sizes in hexadecimal by division and remainder in either case, means its concatenated chunk data |
| ChunkedBody.DecodesIff | src/network/safe_fetcher.ts:381-427 | exactly the streams of that grammar are accepted, with size lines of at most 4096 bytes, trailer lines of at most 8192 and trailers of at most 32768 |
| ChunkedBody.SizeOfIff | src/network/safe_fetcher.ts:385-393 | a size is read off exactly the lines that announce one, extensions aside, up to the largest safe integer |
| ChunkedBody.SizeReadsBack | src/network/safe_fetcher.ts:385-393 | the hexadecimal text of a size, in either case, with leading zeros and extensions, reads back as that size |
| ChunkedBody.TrailerOkIff | src/network/safe_fetcher.ts:402-412 | a trailer is accepted exactly when it is a token that is no framing field, a colon and printable text |
| ChunkedBody.ChunkedAnyReads | src/network/safe_fetcher.ts:301-437 | every well-formed stream with size lines under 4096 and trailer lines under 8192 bytes yields its chunk data however it is read |
| ResponseBodies.ResponseBody.NextLine | src/network/safe_fetcher.ts:337-354 | the line and the bytes left depend on the reads only through where they are cut, as the line function says |
| ResponseBodies.ResponseBody.Pull | src/network/safe_fetcher.ts:356-427 | a pull delivers a first part of what is to come, or says how it ends |
| ResponseBodies.ResponseBody.PullLength | src/network/safe_fetcher.ts:362-375 | length framing delivers the declared prefix and no more |
| ResponseBodies.ResponseBody.ReadAll | src/network/safe_fetcher.ts:355-427 | pulling to the end collects exactly what the framing and the bytes mean |
| NarStaging.Join | src/persistence/write_repository.ts:1639-1646 | the buffered parts in order, filling a buffer of exactly their total size |
| NarStaging.Staging.Flush | src/persistence/write_repository.ts:1637-1666 | the bytes read so far are recorded completely, unless the store refuses the chunk at its place |
| NarStaging.Staging.Stage | src/persistence/write_repository.ts:1667-1690 | for every partition into pieces staging records the components of cutting the whole body, and succeeds exactly for a non-empty body within the ceiling whose chunks the store takes |
| NarStaging.StagedIsFile | src/hashtree/writer.ts:411-511 | the writer builds the same file from the staged components as from the body |
| BatchWindow.FireClaims | src/write/batch_scheduler.ts:87-109 | a timer that fires always finds its own window open |
| BatchWindow.RunKeeps | src/write/batch_scheduler.ts:60-109 | over every run with restarts the window, tokens and timers stay consistent |
| BatchWindow.OneBatchPerToken | src/persistence/write_repository.ts:706-806 | each token yields at most one batch, and every dirtied generation is covered by the open window or a claimed batch |
| BatchWindow.RunGathers | src/persistence/write_repository.ts:706-740 | over any run the open window was opened by the first mark since none was open, has the date and base of the last mark and the newest generation of all, and is due 60 seconds after it was opened at the latest |
| BatchWindow.DueWindowIsClaimed | src/write/batch_scheduler.ts:75-109 | by min(lastDirty + quiet, opened + 60000), or at once if overdue, a timer can fire and turns the window into its batch |
| BatchScheduler.PublicationClock.MarkDirty | src/persistence/write_repository.ts:706-740 | the open window covers the generation under an unused token or its own |
| BatchScheduler.PublicationClock.Claim | src/persistence/write_repository.ts:765-806 | only the token of the open window yields a batch, with the window generation, and only once |
| BatchScheduler.PublicationBatchScheduler.Dirty | src/write/batch_scheduler.ts:66-74 | a step of the run model: the window covers the generation and both timers are set for its token |
| BatchScheduler.PublicationBatchScheduler.Fire | src/write/batch_scheduler.ts:87-109 | a step of the run model: whichever timer fires, no timer is left and the token is claimed at most once |
| UploadAuthorization.SignedSize | src/blossom/upload_authorization.ts:58-74 | signing cannot make the header larger than the estimate |
| UploadAuthorization.EventJsonIs | src/blossom/upload_authorization.ts:37-56 | the measured text is a JSON object of the seven fields of a signed event |
| UploadAuthorization.Base64LengthIs | src/blossom/upload_authorization.ts:49-56 | the measured length is that of base64 without padding |
| UploadAuthorization.GroupFits | src/blossom/upload_authorization.ts:138-156 | a group's header size depends on its length alone |
| UploadAuthorization.FewestEvents | src/blossom/upload_authorization.ts:133-179 | no covering of the hashes by groups within both ceilings has fewer events |
| UploadAuthorization.PackScope | src/blossom/upload_authorization.ts:134-171 | the greedy groups concatenate to the hash list, each within both ceilings, each signed by an event whose hash tags are exactly the group; it succeeds exactly when one hash fits and the signer answers every group with its template, verified |
| UploadAuthorization.CollectScopes | src/blossom/upload_authorization.ts:123-130 | servers by domain, in order of first appearance |
| UploadAuthorization.DedupOrder | src/blossom/upload_authorization.ts:115-130 | values without repetition come in the order of their first appearance |
| UploadAuthorization.CreateBatch | src/blossom/upload_authorization.ts:96-185 | every server and hash gets a header of an event that has a tag for the hash, no tag for a hash outside the batch, a server tag exactly for the server's domain, one upload and one expiration tag, and the given date, within both ceilings; it succeeds exactly when limits and hashes are valid, every scope has room and every group is answered; with a willing signer the only other failure is a scope without room; the size check after signing never fails |
| NarInfos.ParseNarInfo | src/protocol/narinfo.ts:91-196 | the line loop computes the parsed record or rejects |
| NarInfoTexts.PrintedParses | src/protocol/narinfo.ts:91-196 | valid lines in any order parse, to exactly the values written under each name, the signatures written, in order, and the fingerprint of the written path, NAR hash, NAR size and references |
| NarInfoTexts.ParsesIff | src/protocol/narinfo.ts:91-196 | exactly the texts of valid lines parse |
| Base64Texts.SignatureIff | src/protocol/narinfo.ts:59-79 | exactly the base64 encodings of 64 bytes are accepted as signatures |
| Fingerprints.FingerprintIff | src/protocol/narinfo.ts:166-168 | where neither path has a semicolon and no reference a comma, fingerprints are equal if and only if path, NAR hash, NAR size and references are |
| Fingerprints.WholeIff | src/protocol/narinfo.ts:166-168 | references can be told from how they are listed if and only if there is at most one and it cannot be cut at a comma into two |
| Fingerprints.SemicolonsCollide | src/protocol/narinfo.ts:166-168 | two valid contents that differ in path, hash, size and references have one fingerprint |
| NarInfos.DifferingIff | src/protocol/narinfo.ts:200-209 | no field differs if and only if the records mean the same |
| NarInfos.AppendedParses | src/protocol/narinfo.ts:211-219 | the appended text parses, with the winner's fields and fingerprint and its signatures followed by the appended ones |
| NarInfos.ParsedSignaturesGood | src/protocol/narinfo.ts:97-124 | every signature line of a parsed narinfo can be appended to another |
| MergedCache.Collect | src/nix/merged_cache.ts:92-119 | reads every provider; a failure or an unparsable body is an error |
| MergedCache.Conflicts | src/nix/merged_cache.ts:122-126 | which providers differ from the first, and in which fields |
| MergedCache.ResolveMerged | src/nix/merged_cache.ts:82-155 | when all providers agree the merged text parses to the winner's record with all signatures in order, repeats kept; on any conflict it is the winner's text unchanged |

## Left out

- HTTP routing, status pages, diagnostics, configuration, the command line and daemon wiring: no deep
  invariant.
- Sockets, TLS, DNS, redirects, timeouts and abort signals: environment.
- SHA-256, MessagePack, Ed25519, Nostr signatures, SQLite, rxjs: libraries, taken as functions or
  atomic tables; a codec is assumed faithful and, for imports, its stored links acyclic.
- `BlobStore.reconcile`, quarantine, tombstone retries and whether a file is really on disk: adopting
  orphans skips the capacity check. A file that cannot be removed is modelled: its row stops being
  ready.
- `inventory` in the sweep after a transfer stops at its first ten thousand rows; the sweep is modelled
  over any list of hashes.
- Read budgets other than depth, links, unique nodes and output bytes: attempts, redirects and decoded
  bytes, and the ceiling on all transferred bytes together, only add ways to stop early. The ceiling a
  declared size puts on one transfer is modelled where it matters, at size 0.
- The reader's wire-size limits, and metadata other than bounds, counts and link keys in manifests.
- Partial file reads and range requests.
- Builds.InsertFiles: routes are lists of names, so an empty segment in a route, which the writer drops
  from its parents but keeps in the row's path, is outside the model.
- Endpoint work, retries and back-off: which proofs are attempted is left open, so every order and every
  repetition is covered; liveness of relay repair does not hold in the code.
- Which pending candidate survives when an older failed batch is retried: the active saga's generation
  is proved never to decrease instead.
- The queue of builds in the batch scheduler, and the frozen batch entries.
- Route and winner registries of the merged cache and the read budget of the providers.
- A byte-order mark at the start of a size or trailer line, which text decoding strips.
- URL parsing of upload servers: the domain of a server is a parameter.
- SagaTime.EventsIncrease: stated for runs no step of which loses an event, because otherwise dates can
  repeat (SagaCollision.EventsDatedAlike); SagaTime.StepKeepsEventsIff says which steps lose one.
- SagaTime.EventNeverChanges: likewise.
- BlobRuns.RunSafe: a restart is modelled without the reconciliation that follows it, which deletes
  tombstoned hashes even where they were admitted again and are owned.
- EligibilityRuns.DrainedIsSaturated: stated for one narinfo per NAR and a fixed lower layer; a
  recomputation that throws is lost until the next reconciliation, and the lemma asks that none is.
- Published.MaterializableIff: the encoder is taken never to produce an empty blob.
- A HEAD request for an empty file, which fetches nothing.
- Builds.Build: temporary tables on disk, run ownership and the count of newly created blobs are not
  modelled.
