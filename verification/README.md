# Verified model of tobby's transfer, store and access logic

tobby moves content-addressed artifacts between zones: it downloads blobs resumably, copies and
pushes manifests with everything they reference, keeps a store aligned with what a Retriever asks
for, materializes file sets from layers and packs them back. This project models those algorithms in
Dafny and proves what the program promises about them. `dafny verify dfyconfig.toml` checks
everything.

| area | modules |
|---|---|
| resumable download | `Origins`, `Forecast`, `SpoolDisk`, `Spool`, `Fetch`, `SpoolLock` |
| file sets | `RootFs`, `LayerUnion`, `Extract`, `Pack` |
| manifests between registries | `Registry`, `Graph`, `Transfer`, `Push`, `Plan` |
| promotion | `Recipes`, `Relocate`, `SignatureTags`, `Promote`, `Cookbook`, `MediaImport` |
| synchronization and prune | `Prune`, `Retention`, `Workers`, `Sync` |
| access | `Trust`, `RateLimit`, `Accounts` |
| configuration and shared | `Size`, `Text`, `Wrappers` |

Conventions:

- Which operations fail is an input: a spool, a registry and an engine each take a function from the
  number of the operation to its outcome; of a copy, requests to its source count too. Origins are
  functions of the request, and what signatures a source offers is a function of the digest. Every
  statement holds for all of them; "without failures" means that the function is constantly false.
- `trail` fields record the state after every write, so "in every state of a run" covers every point
  at which a process can be stopped.
- A digest is identified with the content it addresses: `World` says what each digest stands for, and
  a rank that children lower expresses that no manifest can contain itself.
- A failed file write may leave any part of its bytes behind. Durability follows fsync; replacing the
  sidecar is atomic and durable.

## What the proofs found

These are places where a plausible reading of the program fails; each has the exact condition under
which it holds.

- A whiteout that follows its own layer's entry deletes that entry, while the Whiteouts section of
  the OCI Image Layer Filesystem Changeset specification keeps it (`LayerUnion.LateWhiteoutDiffers`);
  each entry agrees with the specification exactly when it spares its own layer.
- A spool reader yields the file to its end, not to the verified offset. When an over-long body's write
  fails half way, the spool error - of the operational class - is retried, the spool is found complete,
  and the reader goes on past the verified bytes (`Fetch.StrayByte`); exactly when is a function of
  the origin and the faults (`Fetch.Open`).
- A sidecar that outlived its file is safe only until the next write (`SpoolDisk.ResumeSafeIff`,
  `SpoolDisk.StaleSidecarBreaks`). It is harmless with origins that answer a plain request with 200,
  because the reset rewrites it first; a 206 to a request without a range, which section 15.3.7 of
  RFC 9110 does not foresee, is appended before that. Two kills later the spool is complete and wrong,
  and an Open that contacts nobody reports a mismatch (`Fetch.ThirdOpen`). With an honest origin
  wrong bytes are still never handed out (`Fetch.Lives`).
- A second Close of a drained reader removes the files of a spool that another caller may own by then
  (`SpoolLock.ClosedTwice`); nothing else does (`SpoolLock.DisturbedIff`).
- Content whose tag is already on its digest is not fetched again, even if the platform selection widened
  (`Transfer.WidenedSelection`, `Transfer.FetchPinned`).
- A nested index that is held but sparse hides its missing children from a later full copy
  (`Transfer.SparseNestedIndexHides`, `Transfer.CopyBringsClosureIff`).
- A push skips a held child one of whose blobs is in neither registry, just like a child the store
  never had (`Push.HeldChildSkipped`, `Push.PushBringsHeldClosureIff`).
- Two Retriever entries that resolve to the same name and version share one graph record and one set of
  items: what only the second wants is not fetched (`Sync.SecondFetchesNothing`; exactly what is, is in
  `Sync.Engine.SyncAll` and `Workers.TaggedIff`), and what only the first wants can be pruned
  (`Retention.TakenOverIsLost`). A kept tag spelled like a signature tag, and the
  signatures of a kept digest that a leftover tag in the same repository also pins, go too
  (`Retention.SignatureTakes` with its two examples; `Retention.WantedLostIff`,
  `Retention.KeptSignatureLostIff`).
- The confirmation of a prune is computed before the run writes its records: it can list what the run
  keeps (`Retention.ConfirmedButKept`) and miss what the run removes, because a repository became
  recipe-managed (`Retention.RemovedUnconfirmed`) or because a kept record changed
  (`Retention.ChangedRecordUnconfirmed`). It covers the run exactly under the condition of
  `Retention.ConfirmedIff`.
- An ingredient addressed to a cookbook tag re-points it (`Cookbook.Repointed`,
  `Promote.CookbookTagKeptIff`). The default cookbook path rules that out, a path that begins with a
  host does not (`Cookbook.CookbookApart`).
- Sizes above 2^62 print but do not parse back (`Size.SizeRoundTrip`), and a file of 2^63-1 bytes packs
  but does not extract (`Pack.LargestFilePacksOnly`, `Pack.RoundTrip`).

## Model

| member | source | states |
|---|---|---|
| `SpoolDisk.RecoverableIff` | internal/blobfetch/spool.go:237-254 | After a crash at this point, whatever survives of the file, the sidecar vouches only for bytes of the blob exactly when everything it claims was synced and not touched since. |
| `SpoolDisk.RebootSane` | internal/blobfetch/spool.go:76-117 | The invariant of an honestly fed spool survives every crash image of the file. |
| `SpoolDisk.WriteSane` | internal/blobfetch/spool.go:173-231 | Writing at or above the claimed offset keeps the invariant; the bytes below are unchanged. |
| `SpoolDisk.RecordSane` | internal/blobfetch/spool.go:237-254 | The sidecar may claim what a sync covered, or nothing; then the invariant holds. |
| `SpoolDisk.ResumeSafeIff` | internal/blobfetch/spool.go:76-117 | Writing onto a reopened spool without rewriting its sidecar is crash-safe if and only if the sidecar did not outlive its data. |
| `SpoolDisk.StaleSidecarBreaks` | internal/blobfetch/spool.go:76-117 | A concrete stale sidecar: safe as it lies, unsafe once a byte of the very blob is written. |
| `SpoolDisk.StaleIsReachable` | internal/blobfetch/spool.go:330-335 | For every blob: receiving, syncing and recording it, then a kill between the two removals of its spool, leaves such a sidecar without a file. |
| `SpoolDisk.GarbageIsReachable` | internal/blobfetch/spool.go:173-231 | For every blob: receiving it again onto that spool and a kill before the sync can leave a file of the same length that is not the blob, vouched for in full. |
| `Spool.Spool.Attach` | internal/blobfetch/spool.go:76-117 | Reopening adopts the smaller of recorded offset and file length with the recorded validator - or starts from nothing when the sidecar cannot be read - and leaves a file of exactly that length; every fault is accounted for. |
| `Spool.Spool.Rehash` | internal/blobfetch/spool.go:128-143 | The restored digest has consumed exactly the first `offset` bytes, or the call fails. |
| `Spool.Spool.Reset` | internal/blobfetch/spool.go:157-169 | Success: empty file, no validator, offset zero, durably recorded. Failure: emptied, or untouched. |
| `Spool.Spool.Checkpoint` | internal/blobfetch/spool.go:237-254 | Sync first, then record; a failure in between leaves a state that is still crash-safe. |
| `Spool.Spool.Append` | internal/blobfetch/spool.go:173-231 | The file prefix grows by exactly the chunks kept, however the body ends and whichever write fails; the digest stays in step; a body that ended left everything synced and recorded; every intermediate disk is crash-safe when the bytes continue the blob. |
| `Spool.Spool.Verified` | internal/blobfetch/spool.go:257-259 | True exactly when the first `offset` bytes hash to the requested digest. |
| `Spool.Spool.Discard` | internal/blobfetch/spool.go:330-335 | File first, sidecar second, either of which may fail; every state in between is crash-safe. |
| `Fetch.Pull` | internal/blobfetch/blobfetch.go:332-422 | One attempt, any answer and faults: where it leaves the spool is what lengths alone forecast; a success used a usable answer; with an honest origin every disk on the way is crash-safe. |
| `Fetch.Answer` | internal/blobfetch/blobfetch.go:358-397 | A successful attempt used a 200, or a 206 that starts where the spool ends and agrees on size and validator; the spool then holds exactly that body (after what it held, for a 206), synced and recorded under the right validator. |
| `Fetch.Continue` | internal/blobfetch/blobfetch.go:370-397 | A 206 that does not start where the spool ends, or disagrees on the size, changes nothing; one whose validator moved restarts the spool; any other is appended - if nothing fails, all of it, and the attempt succeeds exactly when the body ended and the size is reached. |
| `Fetch.StartOver` | internal/blobfetch/blobfetch.go:359-369 | A 200 restarts the spool from zero; if nothing fails the spool then holds exactly its body, and the attempt succeeds exactly when the body ended and the size is reached. |
| `Fetch.Attempt` | internal/blobfetch/blobfetch.go:247-276 | Bounded attempts end where the forecast says; a spool that is already complete asks for nothing and stays as it is; with an honest origin the spool stays crash-safe throughout. |
| `Fetch.Prepare` | internal/blobfetch/blobfetch.go:221-247 | Reopening adopts the smaller of recorded offset and file length with its bytes and validator, or starts over when that is more than the blob has. |
| `Fetch.HandOver` | internal/blobfetch/blobfetch.go:278-295 | A reader exactly when the digest verifies, otherwise the spool is discarded; the reader yields more than was verified exactly when a failed write reached past the offset. |
| `Forecast.NothingLeftBehind` | internal/blobfetch/spool.go:173-231 | Origins that stay within the declared size, and disks whose writes succeed, leave nothing behind the final offset. |
| `Forecast.ServedConcludes` | internal/blobfetch/blobfetch.go:247-276 | With no failures, an honest origin that serves one of the three attempts in full completes the download, after interrupted bodies, refusals and useless answers. |
| `Forecast.ResumedConcludes` | internal/blobfetch/blobfetch.go:332-422 | A first answer with the rest of the blob, from where the spool ends, completes the download whatever else would have been answered. |
| `Forecast.ShortFails` | internal/blobfetch/blobfetch.go:247-276 | Three answers none of which takes the spool to its size do not complete a spool that was not complete. |
| `Fetch.Open` | internal/blobfetch/blobfetch.go:205-295 | For every origin, fault pattern and disk: a reader is handed out exactly when bytes of the declared size hash to the digest; it yields exactly the forecast number of bytes, hence nothing but the verified ones if and only if no failed write reached past the final offset; a spool found complete is judged by its own bytes. For a trusted origin every disk is crash-safe and the mismatch branch is unreachable; if nothing fails and one of three attempts is answered in full - or the very first one from where the spool on disk ends - the reader yields the blob, whatever the attempts before it met short of a cancellation. Three answers that fall short leave no reader, whatever fails. |
| `Fetch.StrayByte` | internal/blobfetch/spool.go:288-294 | A concrete over-long answer and one failed write: the reader yields a byte that was never verified. |
| `Fetch.ThirdOpen` | internal/blobfetch/blobfetch.go:249-290 | On that spool, for every blob and any origin: the third Open finds it complete, asks nobody and discards it as a mismatch. |
| `Fetch.Close` | internal/blobfetch/spool.go:315-327 | A drained reader removes the spool, an abandoned one keeps it; both crash-safely. |
| `Fetch.Lives` | internal/blobfetch/blobfetch.go:205-295 | Over any number of process lives, honest origins, faults and kills at any instant with any surviving file: every reader yields exactly the blob, if nothing else has its digest. If plain requests are answered in full - or by 206 only while nothing but writes failed and no life was cut short - readers yield the blob even if something else has its digest, no mismatch ever occurs and the disk stays recoverable. |
| `SpoolLock.StepInv` | internal/blobfetch/blobfetch.go:300-323 | Every transition of every caller keeps the lock table, the channels and the ownership log consistent. |
| `SpoolLock.MutualExclusion` | internal/blobfetch/blobfetch.go:205-230 | In every reachable state of any number of callers: at most one owns a digest from acquisition until its reader closes; the table has an entry exactly while one does; takes and gives alternate over the whole history, each give by the taker; no release closes a missing or closed channel. |
| `SpoolLock.WaitersCanRun` | internal/blobfetch/blobfetch.go:300-323 | No lost wakeup: once nobody owns or is releasing a digest, each of its waiters can proceed and acquires it. |
| `SpoolLock.OwnerCanRelease` | internal/blobfetch/blobfetch.go:300-323 | Whoever owns a spool can release it in two steps; then the digest is free and the channel its waiters hold is closed. |
| `SpoolLock.DisturbedIff` | internal/blobfetch/spool.go:315-335 | In every reachable state: whoever closes its reader once touches only a spool it alone owns; files another caller owns are touched if and only if the step is a second Close of a reader that was drained. |
| `SpoolLock.ClosedTwice` | internal/blobfetch/spool.go:315-335 | A run of two callers in which that happens. |
| `LayerUnion.WhiteoutStep` | internal/fileserve/extract.go:273-311 | Applying a whiteout in stream order keeps tree and declarative union equal if and only if it deletes nothing its own layer put down. |
| `LayerUnion.OpaqueStep` | internal/fileserve/extract.go:273-311 | The same for an opaque marker, whose directory comes to exist. |
| `LayerUnion.StepRepresents` | internal/fileserve/extract.go:216-268 | For every kind of entry: the tree after it is the union after it, if and only if it spares its own layer. |
| `LayerUnion.ExtractionIsUnion` | internal/fileserve/extract.go:102-135 | Whatever stream-order application accepts of any stack of orderly layers is the declarative union, path by path. |
| `LayerUnion.AppliesIff` | internal/fileserve/extract.go:216-268 | Over the union below it an entry is accepted if and only if nothing but directories is above its place - for an opaque marker at its directory too - and a hard link has a file to link to that is not under its own path. |
| `LayerUnion.StackAppliesIff` | internal/fileserve/extract.go:102-135 | A stack of orderly layers is accepted if and only if the union of what came before has room for each entry in its turn. |
| `LayerUnion.PresentAccepts` | internal/fileserve/extract.go:424-448 | A directory merges with what is there, and what is there can be deleted and linked to. |
| `LayerUnion.DeletesFirstIsOrderly` | internal/fileserve/extract.go:273-311 | Deletion markers ahead of their siblings make a layer orderly. |
| `LayerUnion.DeletedStaysDeleted` | internal/fileserve/extract.go:273-311 | A path some layer hides and none above puts back is absent from the union. |
| `LayerUnion.LateWhiteoutDiffers` | internal/fileserve/extract.go:273-311 | A whiteout after its own layer's file: the extractor deletes what the union keeps. |
| `LayerUnion.ApplyWellFormed` | internal/fileserve/extract.go:216-268 | Every entry leaves each node below a directory and modes on directories only. |
| `Extract.EntryStaysInside` | internal/fileserve/extract.go:505-542 | No segment of an accepted entry path is empty, dot or dot-dot, and none contains a separator of any platform. |
| `Extract.EscapesIff` | internal/fileserve/extract.go:348-395 | A relative link target is refused for escaping exactly when some point along it lies above the rootfs. |
| `Extract.LegalIff` | internal/fileserve/extract.go:505-542 | A header is readable if and only if its name is a plain relative one, a symbolic link never climbs above the rootfs, a hard link names a legal path and a marker names something to delete. |
| `Extract.StepIsApply` | internal/fileserve/extract.go:216-268 | An accepted entry is exactly its action on the tree; the limits on depth, count and bytes only refuse. |
| `Extract.ExtractedIsUnion` | internal/fileserve/extract.go:102-135 | Every accepted extraction of layers whose deletion markers come first equals the declarative union of the layers. |
| `Extract.ExtractsIff` | internal/fileserve/extract.go:102-135 | With markers first, extraction succeeds if and only if every header in its turn is legal and within the limits on depth, count and bytes, and the union below has room for it. |
| `Extract.Extraction.DropModesUnder` | internal/fileserve/extract.go:475-481 | Exactly the modes at and under the victim are forgotten. |
| `Extract.Extraction.ReplaceExisting` | internal/fileserve/extract.go:424-448 | Clears the subtree at the path unless a directory meets a directory entry; fails exactly when a file is on the way. |
| `Extract.Extraction.EnsureDir` | internal/fileserve/extract.go:452-467 | Creates the missing directories with the default mode, keeping recorded ones; fails exactly when a file is on the way. |
| `Extract.Extraction.EmptyDirectory` | internal/fileserve/extract.go:273-311 | Removing the children one by one removes exactly everything strictly below. |
| `Extract.Extraction.ApplyWhiteout` | internal/fileserve/extract.go:273-311 | The marker's effect is the action it denotes, rejections included. |
| `Extract.Extraction.WriteFile` | internal/fileserve/extract.go:313-341 | Succeeds exactly when the place can be made and the byte budget covers the content; then the file is there and the bytes are counted. |
| `Extract.Extraction.WriteSymlink` | internal/fileserve/extract.go:348-395 | Succeeds exactly when the target passes the link rules and the place can be made. |
| `Extract.Extraction.WriteHardlink` | internal/fileserve/extract.go:399-418 | Succeeds exactly when the target is an extracted regular file that clearing the path does not remove; shares its content. |
| `Extract.Extraction.WriteDirectory` | internal/fileserve/extract.go:216-268 | Merges with an existing directory and records the mode; `LayerUnion.PresentAccepts` says that this always succeeds. |
| `Extract.Extraction.ApplyEntry` | internal/fileserve/extract.go:216-268 | In-place application of one header succeeds exactly when its specification does, with the same state. |
| `Extract.Extraction.ApplyLayerEntries` | internal/fileserve/extract.go:139-168 | The same for the entries of a layer. |
| `Extract.Extraction.ExtractLayers` | internal/fileserve/extract.go:102-135 | Succeeds exactly when every header is legal, allowed and has room in the union below (markers first), and then the rootfs is the union of the layers; restoring the recorded modes cannot fail. |
| `Extract.Extraction.RestoreModes` | internal/fileserve/extract.go:102-135 | Every recorded mode belongs to the rootfs or to a directory that still exists. |
| `Pack.WriteTree` | internal/fileserve/pack.go:478-558 | Packing succeeds exactly when every visited entry is acceptable and can be read unchanged, and the limits hold; then it writes the walk's headers and counts them and their bytes. |
| `Pack.WriteVisit` | internal/fileserve/pack.go:478-558 | One entry is refused exactly for its name, its setid bits, its type, its link target, the byte limit, or because reading it failed. |
| `Pack.VisitIff` | internal/fileserve/pack.go:599-671 | Packing accepts exactly the entries whose header extraction would read as a node of that depth - save setid bits, special files and targets with a NUL. |
| `Pack.WalkShape` | internal/fileserve/pack.go:478-558 | A walk lists distinct paths, each after the directory that holds it. |
| `Pack.CleanPacked` | internal/fileserve/pack.go:599-628 | A name packing accepts is read back by extraction as the same path and is never a marker. |
| `Pack.LinkRulesAgree` | internal/fileserve/pack.go:635-671 | A link target packing accepts passes the extraction rules. |
| `Pack.HeaderReadsBack` | internal/fileserve/pack.go:582-592 | A packed header is interpreted as the entry it was made from. |
| `Pack.RoundTrip` | internal/fileserve/pack.go:478-558 | Every tree packing accepts is accepted by extraction under the same limits if and only if no file exceeds the copy budget (2^63-2 bytes), and then comes back with the same paths, contents, targets and permission bits. |
| `Pack.LargestFilePacksOnly` | internal/fileserve/pack.go:478-558 | One file of 2^63-1 bytes, under limits that allow just that: accepted by packing, refused by extraction. |
| `Registry.Registry.WriteBlob` | internal/store/write.go:65-108 | A blob is committed whole or not at all. |
| `Registry.Registry.PutManifest` | internal/store/write.go:110-143 | Manifest first, tag second; a failure may fall between; each state extends the one before. |
| `Registry.ExtendsKeepsClosed` | internal/engine/transfer.go:71-129 | A repository whose images have all their blobs keeps that property through every step that only adds complete content. |
| `Graph.SkipStored` | internal/engine/transfer.go:137-185 | Skipping what the same transfer stored earlier adds exactly what a walk that only skips the initially held digests adds. |
| `Graph.WholeClosureIff` | internal/engine/transfer.go:188-233 | Held digests and walk cover the closure if and only if no held index below it lacks a child the walk does not bring. |
| `Transfer.CopyBlob` | internal/engine/transfer.go:74-129 | A present blob costs nothing; a written one is counted with its size; a failure changes nothing. |
| `Transfer.CopyImage` | internal/engine/transfer.go:74-129 | Blobs before the manifest in every state; the bytes counted are exactly the bytes gained, on failure too; on success manifest, blobs and tag are there. It fails only if its last request failed or a blob has no digest. |
| `Transfer.CopyChildren` | internal/engine/transfer.go:137-185 | Asking again before every child gains exactly what the walk over initially missing digests visits; if all selected children are held, nothing moves. |
| `Transfer.CopyNested` | internal/engine/transfer.go:188-233 | A nested index arrives with everything the walk visits, untagged, children first. |
| `Transfer.CopyIndex` | internal/engine/transfer.go:137-185 | At every step: images have their blobs, new nested indexes all their children, only the asked tag moves. On success: the exact gain, every selected child present, the tag on the original index. It fails only if its last request failed or something to copy has a blob without a digest. With all selected children held, zero bytes. |
| `Transfer.FetchPinned` | internal/engine/sync.go:569-616 | Pinned content whose tag is already on its digest is not copied; anything else arrives unless a request fails. After a success every selected child is held if and only if it was not up to date or all of them were held before. |
| `Transfer.WidenedSelection` | internal/engine/sync.go:569-583 | One platform fetched, then the selection widened under the same digest and tag: nothing fails, nothing moves, the other platform is missing. |
| `Transfer.CopyBringsClosureIff` | internal/engine/transfer.go:188-233 | A full copy brings the whole closure with its blobs if and only if no held index below lacks a child it does not bring. |
| `Transfer.SparseNestedIndexHides` | internal/engine/transfer.go:188-233 | A concrete index stored sparse hides its missing child from a later full copy. |
| `Push.PushBlob` | internal/engine/push.go:141-166 | A blob already at the destination is not read; one the source lacks is not found; only a failure may read bytes that do not arrive. |
| `Push.PushBlobs` | internal/engine/push.go:141-166 | Uploads exactly the blobs up to the first that neither side has; succeeds exactly when there is none such. |
| `Push.PushManifest` | internal/engine/push.go:78-101 | Done exactly when the source holds the manifest and each blob is on either side, and never failed when no request fails; then the destination gained exactly the deliverable walk, blobs before manifests, children before indexes, in every state; bytes moved equal bytes gained. |
| `Push.PushIndexChildren` | internal/engine/push.go:112-131 | Every deliverable child arrives; an undeliverable one is skipped and leaves only blobs. |
| `Push.PushRef` | internal/engine/push.go:72-76 | The same for a tag or a digest as callers name it; only the asked tag moves. |
| `Push.PushBringsHeldClosureIff` | internal/engine/push.go:112-131 | A successful push brings everything the store holds below the manifest if and only if all of its blobs are in the store or were at the destination. |
| `Push.ClosedSourceDelivers` | internal/engine/push.go:112-131 | From a blob-closed store the whole held closure arrives. |
| `Push.RepeatMovesNothing` | internal/engine/push.go:133-166 | Repeating a push moves zero bytes and changes nothing. |
| `Push.HeldChildSkipped` | internal/engine/push.go:112-131 | A concrete store holding a child without its blob: nothing fails, the push is done, the child is missing. |
| `SignatureTags.SignatureTagsApart` | internal/engine/promote.go:464-473 | Different digests never share a signature tag. |
| `SignatureTags.TagsOfSha256` | internal/engine/promote.go:464-479 | The two signature tags of a sha256 digest. |
| `Promote.PushInto` | internal/engine/promote.go:141-248 | Nothing is lost, closedness is kept and only the given tag moves: to the pushed digest exactly when the push is done, and then everything the source can deliver below it is held. |
| `Promote.PushWithRetries` | internal/engine/sync.go:960-988 | Only the one tag may move; success means the digest is held under it with everything deliverable below. A manifest in the store is given up only after more failed requests than retries, or one that repeating cannot mend. |
| `Promote.PushSignatures` | internal/engine/promote.go:442-458 | Only the two signature tags of the subject may move; without failures each signature the store has in full is held under its tag, and one it does not have reads what it read. |
| `Promote.CompleteIndex` | internal/engine/promote.go:278-296 | Widening a sparse index changes the store by additions and the ingredient's own tag only; afterwards every child is there, unless a request failed or one cannot be copied. |
| `Promote.PushVersion` | internal/engine/promote.go:207-231 | A push refused for a sparse index is given up only after the store holds all its children, or completing it failed. |
| `Promote.PromoteIngredient` | internal/engine/promote.go:141-248 | Reported as promoted only when the destination holds the pinned manifest under the version tag, whether it was up to date, pushed, retried or widened; every other tag but those spelled like its signatures reads what it read. Up to date, nothing changes; otherwise everything deliverable below it crosses and, without failures, its signatures do. Without failures what the store holds crosses. |
| `Promote.PromoteIngredients` | internal/engine/promote.go:110-127 | The verdict is positive only when every pinned manifest is held; then every tag reads the digest of the last ingredient addressed to it, or what it read before, and each ingredient with its places to itself is carried over with its signatures. Without failures each ingredient the store holds is held, whatever becomes of the others. |
| `Promote.PropagateRecipe` | internal/engine/promote.go:309-423 | A taken cookbook tag never moves; a free one moves only to a valid recipe artifact, and then its signatures follow; delivered means the tag carries this artifact or the same document; without failures a recipe that can land does. |
| `Promote.PromoteRecipe` | internal/engine/promote.go:88-128 | In every state: nothing lost, only announced tags move, a cookbook tag no ingredient or signature is addressed to moves only from absent to the recipe with every pinned ingredient held. In the end, if every ingredient crossed: what the cookbook tag reads is determined - the last ingredient addressed to it, else what it read, else the recipe - and recipe and ingredients with their places to themselves came with their signatures. Without failures everything in the store crosses and lands. |
| `Promote.CookbookTagsAreSafe` | internal/engine/promote.go:309-423 | In every state: an existing cookbook tag that is nobody's side place is never re-pointed; a new one is never ahead of its ingredients. |
| `Promote.CookbookTagKeptIff` | internal/engine/promote.go:309-423 | After all ingredients crossed, an existing cookbook tag reads what it read if and only if no ingredient is addressed to it or the last one that is carries the same digest. |
| `Relocate.RelocatedStartsWithHost` | internal/relocate/relocate.go:83-139 | A relocated path begins with a segment that only a host looks like. |
| `Relocate.Relocates` | internal/relocate/relocate.go:83-139 | The host is folded to lower case, the two aliases to their registry and a port to an underscore; the repository is kept. |
| `Relocate.SamePlaceIff` | internal/relocate/relocate.go:38-58 | Two references share a place if and only if they agree on canonical host and repository. |
| `Cookbook.CookbookApart` | internal/engine/destination.go:129-193 | No ingredient relocates into a cookbook whose path does not begin like a relocated one. |
| `Cookbook.CookbookIsSafe` | internal/engine/destination.go:176-193 | Then nothing but the recipe and its signatures can write a tag of the cookbook. |
| `Cookbook.DefaultCookbookIsPlain` | internal/config/config.go:787-790 | The default cookbook path is such a path. |
| `Cookbook.Repointed` | internal/engine/promote.go:141-248 | For every cookbook path that begins with a host: without any failure, a promotion re-points a published tag to an ingredient. |
| `Cookbook.HostedCookbook` | internal/engine/destination.go:176-193 | Such a cookbook path exists. |
| `MediaImport.Pushable` | internal/media/report.go:68-79 | Exactly the cleared recipes of a report that is not blocked. |
| `MediaImport.ClearedInOrder` | internal/media/report.go:72-78 | In the order and number of the report: clearing distributes over its parts. |
| `MediaImport.ImportDelivery` | internal/engine/mediaimport.go:435-479 | A delivery is pushed only when report, graph, stored tag and document agree; otherwise the destination is untouched. Landed means every pinned ingredient is held and the cookbook tag carries the recipe or the same document; without failures a delivery that is complete on the medium and whose tag is free for it lands. In every state on the way existing tags outside its side places stand, and a new one is this delivery with all it pins held. |
| `MediaImport.PushCleared` | internal/engine/mediaimport.go:233-239 | The count is the number of deliveries that landed, and all of those still have at the end; without failures each one that was ready, and whose tag none ahead of it may write, lands. In every state on the way existing tags outside the side places stand, and a new one is a cleared delivery, never ahead of its ingredients. |
| `MediaImport.ImportMedia` | internal/engine/mediaimport.go:192-253 | Blocked or failed verification: no write. Otherwise, in every state: only tags of cleared, agreeing deliveries move, existing tags that are no side place stand, a new one is a cleared delivery with all it pins held. The import is recorded exactly when every cleared delivery landed and the record can be written; without failures, if all are ready, all land. |
| `MediaImport.OneDelivery` | internal/engine/mediaimport.go:192-253 | For every recipe with one ingredient on a medium, into an empty zone: imported, published, its ingredient held, recorded. |
| `Prune.SplitRecords` | internal/engine/prune.go:347-361 | Stale and kept records partition the graph by the resolved keys. |
| `Prune.ReferencedTags` | internal/engine/prune.go:387-395 | Exactly the tags of the kept records. |
| `Prune.PruneCandidates` | internal/engine/prune.go:307-343 | The tags to unlink are exactly those a condemned candidate of a stale record takes: unreferenced, in a recipe-managed repository, or a signature of such a one; the rows name exactly the condemned candidates. |
| `Retention.RecordWants` | internal/engine/sync.go:928-937 | A record with every ingredient refers to exactly what its recipe wants. |
| `Sync.Engine.FetchIngredient` | internal/engine/sync.go:549-616 | Success leaves the pinned digest under the version tag; nothing but that tag and the digest's signature tags changes; a reference that cannot be relocated fails. Without failures the repository becomes recipe-managed and each signature tag carries what the source offers, or what it carried. |
| `Sync.Engine.StoreArtifact` | internal/engine/sync.go:784-803 | Success means the recipe's tag carries the artifact, or its item was settled before; nothing but that tag and the digest's signature tags changes. Without failures an artifact that was not there comes with its signatures and makes its repository recipe-managed. |
| `Sync.Engine.FetchIngredients` | internal/engine/sync.go:352-442 | For every interleaving and failure of the workers: either every row is there or the run is marked partial. Each ingredient has arrived unless its item counted as settled, and whatever changed was written, with the pinned digest, for one whose item was not; without failures the run stays complete. |
| `Sync.Engine.SyncRecipe` | internal/engine/sync.go:278-520 | After an entry the run is partial, or its key is kept with every ingredient recorded, exactly its items were added to the settled ones, and what is new in the store is what was not settled, with the pinned digests: all of it, if no two ingredients share a name, and nothing else but tags spelled like its signatures. |
| `Workers.RecipeExact` | internal/engine/sync.go:352-472 | The same for the two steps of a recipe: ingredients under any settled items, then the artifact - which an ingredient named like its item displaces. |
| `Sync.Engine.SyncAll` | internal/engine/sync.go:232-240 | A complete run resolved every entry and kept its key, recorded in full by the last entry with that key. With distinct ingredient names, a tag not spelled like a signature is there if and only if it was before or an entry brings it: one of whose ingredients, or artifact, has that tag and an item neither settled before the run nor among those of the entries ahead. Without failures, and with every reference relocatable, the run is complete, and what it brought came with its signatures into recipe-managed repositories. |
| `Workers.TaggedIff` | internal/engine/sync.go:352-472 | Hence everything wanted is tagged if and only if each wanted tag was there before or is brought by an entry, unless it is spelled like a signature. |
| `Workers.ApartIsInReach` | internal/engine/sync.go:352-472 | Entries whose items are apart, none of them settled before, bring everything they want. |
| `Sync.SecondFetchesNothing` | internal/engine/sync.go:352-442 | Two entries of one name and version: nothing fails, the run is complete, and what only the second wants is not there. |
| `Workers.OneKeyExample` | internal/engine/sync.go:352-442 | Such recipes exist. |
| `Sync.Engine.PruneTags` | internal/store/gc.go:172-232 | Unlinks given tags only; all of them unless it fails. |
| `Sync.Engine.Plan` | internal/engine/prune.go:307-361 | The tags to unlink and the rows to show are exactly those of the given graph, keys and provenance. |
| `Sync.Engine.ProjectPrune` | internal/engine/prune.go:109-168 | The confirmation lists exactly the condemned candidates of the graph as it is, for the keys the entries' versions resolve to; an entry that does not resolve fails it. |
| `Retention.RunKeysAreProjected` | internal/engine/prune.go:144-168 | A complete run keeps exactly the keys the confirmation was computed with. |
| `Retention.GoesIsListed` | internal/engine/prune.go:307-343 | What a prune takes is exactly the tags of its rows and the signatures of their digests. |
| `Retention.ConfirmedIff` | internal/engine/prune.go:109-134 | After a complete run every row of it is a row of the confirmation if and only if every candidate of a stale record that no current recipe wants, in a repository that is recipe-managed after the run, was in a recipe-managed one before it and not referred to by the old record of anything kept. |
| `Retention.RunRemovesConfirmed` | internal/engine/prune.go:109-134 | In particular when the records of what is kept did not change and no repository became recipe-managed: every tag the run unlinks is that of a confirmed row, or a signature of its digest. |
| `Retention.ConfirmedButKept` | internal/engine/prune.go:109-134 | A new version sharing a tag with a stale one: confirmed for removal, not removed. |
| `Retention.RemovedUnconfirmed` | internal/store/meta.go:213-218 | A run that fetches into a repository that was a unit import makes it recipe-managed: a stale tag in it is listed by the run, not by the confirmation. |
| `Retention.ReplacedVersion` | internal/store/meta.go:213-218 | Such a recipe and stale record exist. |
| `Retention.ChangedRecordUnconfirmed` | internal/engine/prune.go:109-134 | A kept key whose record no longer refers to a tag that a stale record also has: listed by the run, not by the confirmation. |
| `Retention.ChangedRecordExample` | internal/engine/prune.go:109-134 | Such recipes exist. |
| `Sync.Engine.PruneToRetriever` | internal/engine/prune.go:229-297 | A partial run prunes nothing; a complete one unlinks only, and if it gets through exactly, what the stale records condemn; kept records stay, and without failures no other does. |
| `Sync.Engine.Run` | internal/engine/sync.go:202-274 | Over a whole run: nothing pruned unless complete; only recipe-managed repositories lose tags; a tag some entry wants is lost only if it is losable in the sense below. If nothing fails, a complete run that prunes loses exactly the losable tags and keeps exactly the records of its keys. What was tagged before the prune is as in SyncAll; the confirmation covered the run exactly under the condition of ConfirmedIff. |
| `Retention.ReferencedIsCurrent` | internal/engine/prune.go:387-395 | After a complete run the spared tags are exactly those the last entry of each key wants. |
| `Retention.WantedLostIff` | internal/engine/prune.go:307-343 | A tag goes if and only if something left over has that very tag and no current recipe wants it, or it is spelled like a signature of something left over. |
| `Retention.WantedIsCurrent` | internal/engine/prune.go:229-297 | When entries of one name and version want the same tags, everything wanted is spared, and is lost if and only if it is spelled like a signature of something that goes. |
| `Retention.KeptSignatureLostIff` | internal/engine/prune.go:402-413 | A signature of a digest, in either layout, goes if and only if something left over in the same repository pins that digest or is itself tagged like the signature. |
| `Retention.SignatureTakes` | internal/engine/prune.go:307-343 | What is spelled like a signature of something a stale record leaves behind goes with it, wanted or not. |
| `Retention.SpelledTagExample` | internal/engine/prune.go:307-343 | A wanted tag that is lost that way. |
| `Retention.SharedPinExample` | internal/engine/prune.go:402-413 | A wanted digest whose signature is lost that way. |
| `Retention.TakenOverIsLost` | internal/engine/sync.go:491-519 | Two entries of one name and version: what only the first wants goes with a stale record that mentions it. |
| `Retention.TakenOverExample` | internal/engine/sync.go:491-519 | Such recipes exist. |
| `Plan.ContentSizes.Collect` | internal/engine/plan.go:468-516 | With the seen and depth guards, what is found is exactly the walk over the unseen digests below the selection, with its blobs; a source that answers everything is walked to the end if indexes nest at most eight levels deep. |
| `Plan.Dedup.Add` | internal/engine/plan.go:560-567 | The first size stays; needed once is needed. |
| `Plan.Dedup.AddAll` | internal/engine/plan.go:391-401 | The ledger depends on which digests were charged, not on order or repetition. |
| `Plan.Dedup.Totals` | internal/engine/plan.go:571-582 | Totals are the sums over all and over the needed digests, the largest is the largest needed one, and largest <= transfer <= total. |
| `Plan.PlanBounds` | internal/engine/plan.go:391-401 | Counting each digest once, the volume is at most the sum of the recipes' volumes and at least each of them. |
| `Plan.Summarize` | internal/engine/plan.go:391-401 | The plan's ledger and one per recipe, fed with the same charges: the announced transfer is at least each recipe's and at most their sum. |
| `Plan.PlanCoversCopy` | internal/engine/plan.go:341-403 | The announced blobs include every blob the copy moves, and are exactly those if every index the repository holds is whole. |
| `Trust.LeftmostSuffices` | internal/engine/trust.go:247-264 | Taking the leftmost occurrence of the next literal loses no match. |
| `Trust.MatchSegment` | internal/engine/trust.go:247-264 | True exactly when the text is the literals woven with some runs. |
| `Trust.MatchSegments` | internal/engine/trust.go:223-243 | True exactly when the path decomposes: `**` any number of segments, any other pattern one. |
| `Trust.MatchPattern` | internal/engine/trust.go:219-221 | The same on slash-separated text. |
| `Trust.Decide` | internal/engine/trust.go:107-120 | The first scope with a matching pattern decides name, unsigned content and the roots - its own configured ones, or all; without one all roots are required and nothing unsigned passes. |
| `RateLimit.RefreshTwice` | internal/auth/ratelimit.go:67-75 | Refilling lazily over an interval equals refilling at every instant of it. |
| `RateLimit.SweptAgrees` | internal/auth/ratelimit.go:123-136 | Sweeping loses no information about any origin. |
| `RateLimit.FailureLimiter.Allowed` | internal/auth/ratelimit.go:81-90 | Answers whether one unit is available and spends nothing. |
| `RateLimit.FailureLimiter.Sweep` | internal/auth/ratelimit.go:123-136 | Drops exactly the full buckets, or everything when all are hot; the table ends below its cap. |
| `RateLimit.FailureLimiter.Record` | internal/auth/ratelimit.go:96-115 | Spends one unit of the origin, keeps the cap, and reports the crossing. |
| `RateLimit.RunsAgree` | internal/auth/ratelimit.go:81-115 | Over every time-ordered run without a wholesale reset the table answers exactly like an unbounded table of eagerly refilled buckets. |
| `RateLimit.FailureBound` | internal/auth/ratelimit.go:81-115 | Failures admitted for one origin between two instants are at most the burst plus what refilled, whatever other origins do. |
| `RateLimit.TenAtOnce` | internal/auth/ratelimit.go:96-115 | An origin nobody has seen gets exactly ten failures through at one instant, and the tenth is signalled. |
| `RateLimit.OneEveryThirtySeconds` | internal/auth/ratelimit.go:67-75 | An exhausted origin has k units again exactly after k times thirty seconds, up to ten. |
| `RateLimit.SignalIsTheTransition` | internal/auth/ratelimit.go:96-115 | The signal is raised exactly when this failure takes the origin from allowed to refused. |
| `RateLimit.StartingOverForgets` | internal/auth/ratelimit.go:123-136 | A wholesale reset gives every other origin its full budget back. |
| `Accounts.Store.VerifyPassword` | internal/auth/store.go:308-331 | The verdict equals the uncached check against the current hash; a success carries the current account. The hash is computed exactly unless a success of the credential is remembered, and a computed success is remembered for a minute. |
| `Accounts.Store.Cached` | internal/auth/store.go:338-358 | A hit is the current account of a credential the check would grant now; the branch for a vanished account is unreachable. |
| `Accounts.Store.Remember` | internal/auth/store.go:362-377 | The cache never exceeds its cap and holds the new success. |
| `Accounts.Store.ForgetVerified` | internal/auth/store.go:382-390 | Exactly the entries of that name are dropped. |
| `Accounts.Store.AddAccount` | internal/auth/store.go:205-224 | Adds at the end exactly when the name is new; admins are kept. |
| `Accounts.Store.DeleteAccount` | internal/auth/store.go:232-249 | Refused exactly for an unknown name and for the last admin; otherwise removes that account and exactly its cached successes; an admin remains. |
| `Accounts.Store.SetRole` | internal/auth/store.go:257-274 | Refused exactly for an unknown name and when it would demote the last admin; changes that role only. |
| `Accounts.Store.SetPassword` | internal/auth/store.go:277-296 | Replaces the hash and drops exactly the name's cached successes; the new state is valid even if saving failed. |
| `Accounts.FindAfterRemoval` | internal/auth/store.go:232-249 | Removing an account leaves what every other name designates. |
| `Accounts.SameNameSamePassword` | internal/auth/store.go:92-100 | For one name, equal credential inputs mean equal passwords. |
| `Size.SizeRoundTrip` | internal/config/size.go:120-134 | Parsing a printed size gives it back if and only if it is at most 2^62; larger ones are refused. |
| `Size.SuffixValues` | internal/config/size.go:46-70 | What a number is worth with each of the nine suffixes, and that it is refused beyond 2^62. |
| `Size.PlainValue` | internal/config/size.go:46-70 | A number without a suffix is in bytes. |
| `Size.ParseStaysInRange` | internal/config/size.go:46-70 | Accepted sizes fit 64 bits; suffixed ones never exceed 2^62. |

## Left out

- The text of Content-Range, ETag and other headers: an answer carries the parsed range and validator.
- The stall watchdog and backoff: a stall is an attempt that ends early; only timing is lost.
- Fetch.ThirdOpen: the two lives before it are given as the disk operations they perform up to their kills, not as calls of Open.
- Spool.Spool.Reset: a seek that fails after the truncation would leave offset and digest ahead of the file; seeks in the spool file are taken to succeed.
- Spool.Spool.Append: the seek before the first write is taken to succeed.
- Fetch.Open: seeks in the spool file are taken to succeed.
- Byte-level tar, gzip, zstd, SHA-256 and argon2: headers, an arbitrary hash function and an arbitrary password check stand for them.
- Extract.ExtractedIsUnion: assumes that no entry passes through a symbolic link and that deletion markers come first; the code does write through links that stay inside the rootfs, the model counts that as a failure.
- Extract.Extraction.ReplaceExisting: under the same assumption that no symbolic link is on the way.
- Extract.Extraction.EnsureDir: under the same assumption that no symbolic link is on the way.
- Extract.Extraction.ApplyWhiteout: under the same assumption that no symbolic link is on the way.
- Extract.Extraction.WriteFile: under the same assumption that no symbolic link is on the way.
- Extract.Extraction.WriteSymlink: under the same assumption that no symbolic link is on the way.
- Extract.Extraction.WriteHardlink: under the same assumption that no symbolic link is on the way.
- Extract.Extraction.WriteDirectory: under the same assumption that no symbolic link is on the way.
- Extract.Extraction.ApplyEntry: under the same assumption that no symbolic link is on the way.
- Extract.Extraction.ApplyLayerEntries: under the same assumption that no symbolic link is on the way.
- Extract.Extraction.ExtractLayers: under the same assumption that no symbolic link is on the way.
- Pack.RoundTrip: the mode of the root directory itself is not compared, because packing writes no entry for it; the walk visits children in the order the tree lists them.
- Extract.Extraction.RestoreModes: the order in which modes are applied is not modelled.
- RateLimit.RefreshTwice: budgets are exact reals, not floating point.
- RateLimit.RunsAgree: budgets are exact reals, not floating point; excludes runs in which the table starts over, which `RateLimit.StartingOverForgets` describes.
- Size.SizeRoundTrip: stated for non-negative 64-bit sizes, the only ones the program prints.
- Transfer.CopyIndex: a child's descriptor and the fetched document are taken to agree on being an index.
- How platform labels select the children of an index, how an artifact's type is checked, and the copy of an artifact by tag: a selection of children is an input, the other two are part of whether a transfer fails.
- Sync.Engine.FetchIngredient: tags only; what the transfer copies, with the platform selection and the up-to-date shortcut, is `Transfer.FetchPinned`.
- Promote.PromoteRecipe: that signatures came along is stated for ingredients and recipes whose tags nothing else of the recipe writes.
- Sync.Engine.SyncAll: if two ingredients share a name, which of them is fetched depends on the interleaving; then only the bound from above is stated, as it is for tags spelled like signatures.
- Promote.PromoteIngredient: the version of a cooked ingredient is not empty, which recipe validation established; one writer per destination tag is assumed between the check and the write.
- Promote.PromoteRecipe: what is published is what the store's tag resolves to at that moment; that this is the digest whose signature was checked is not claimed.
- Sync.Engine.FetchIngredients: the bound on parallel workers is not modelled, every interleaving is allowed; promotion inside a run is modelled separately.
- Sync.Engine.PruneTags: removing emptied repositories and sweeping unreferenced content are not modelled.
- Prune.SplitRecords: the order of stale records, which only the log shows, is not modelled.
- Plan.Dedup.Totals: sizes are non-negative and a function of the digest.
- The repository-level prune projection of a plan: it works at another granularity than the prune itself.
- Accounts.Store.AddAccount: tokens and the encoding of the state file are not modelled; a failed save is an outcome.
- HTTP handlers, sessions, audit records, items beyond their settled state, the command line and configuration loading.
