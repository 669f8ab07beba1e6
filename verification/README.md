# ZipMania: verified models of its hard parts

This project models, in Dafny, the parts of the archive program ZipMania whose correctness depends on more than one
function at a time, and proves what those parts are for. `dafny verify dfyconfig.toml` checks everything.

**Compress requests and jobs.** The backend keeps a queue of compress requests; each window runs a coordinator that
leases a request, announces that it is about to apply it, applies it, and acknowledges it. `LeaseQueue` is the queue as
a value with its whole history, `CompressQueue` the object that the backend changes in place, `Coordinator` the state
machine of one window with its reactions to every answer, `CompressCoordinator` the object with its fields.
`LeaseProtocol` puts any number of windows and the backend together as interleaved steps. The network may lose, delay
and repeat any message, a call may fail after the backend acted, and a window may die at any step. It proves that no
request is applied twice (`AtMostOnce`). `LeaseProgress` and `LeaseDrained` prove that none is forgotten. `Jobs`
(with `WindowSessions`) does the same for starting jobs against windows that close.

**Split volumes.** `VolumeSet` writes one stream over files of a fixed size; it is proved to be one flat file, also
when the disk fails half-way. `OutStream` compares the two backings of the stream given to the 7z engine, `VolumeCommit`
is the renaming of all volumes with its rollback, and `VolumeReader` reads them back: writing, committing, opening and
reading gives what was written.

**The parallel compressor for one big file.** `Pipeline` is its reader, its workers and its collector as interleaved
steps, with an invariant that every step keeps. `PipelineOutcome` says what a zip that comes out holds,
`PipelineProgress` in which states the pipeline is stuck, `PipelineAccidents` gives runs that end in them, and
`PipelineSizes` says for exactly which sizes of file none does. `BigFile` has the loops themselves, `Container` the
layout of the file around the compressed body.

**Decoding EGG and ALZ.** `EggParser` and `AlzParser` are proved to read what a grammar on positions says and to be
sound on every byte string. `Decoder` decodes the blocks of an item within a budget for any behaviour of the inflater.
`Crc`, `CrcTable`, `StreamCipher` and `ZipCrypto` are the checksum and the cipher.

**Extraction.** `ZipExtract` and `EggExtract` extract items through staged files. "ok" makes the program delete the
archive, so it is proved that "ok" means that nothing was lost, and that an item is lost only for the reason reported.

**Folder views.** `FolderTree` builds the tree beside the list and `FolderView` the rows of one folder;
`FolderAgreement` says exactly when they agree.

## What turned out to be false

- *A rename that is taken back restores what it replaced.* The text of the error says that the existing file is kept
  (`outfile.rs:163-171`). When a later volume cannot be moved, the earlier ones are renamed back, and a file that an
  earlier one replaced is gone. A rollback that works restores the directory, whichever rename fails, exactly if none of
  the final names but the last is there before the call (`VolumeCommits.RollbackRestoresExactlyWhen`). With no
  destination there beforehand the commit is all or nothing (`VolumeCommits.AllOrNothing`).
- *The pipeline always ends.* It does exactly for files of no more than 1 MiB times twice the number of workers, if a
  worker may be lost in the middle of a chunk; if none is lost, for files of up to 1 MiB more, or with a single worker
  (`PipelineSizes.NeverStuckExactlyUpTo`). Every bigger file may be stuck for good (`PipelineSizes.BigFilesHang`): after
  one failed write with every worker in place (`PipelineAccidents.OneFailedWriteHangs`), or after one lost worker
  (`PipelineAccidents.OneLossHangs`). `PipelineProgress.StuckInTwoWays` says what is stuck: the queue is full and no
  worker is left, or the chunk that the collector waits for is lost and all slots are in use.
- *The largest size that the guard lets through makes a readable file.* The place of the central header is cut to 32
  bits, so the last 31 sizes record a wrong place (`Containers.PlaceIsRightExactlyBelow`), and the largest of them gives
  a file that does not read back (`Containers.LargestSizeIsLost`).
- *A zip holds the whole source even if workers vanish.* It does if they are lost in the middle of a chunk
  (`PipelineOutcomes.ZipIsRight`). If they could be lost while they wait, a truncated zip could come out
  (`PipelineAccidents.IdleLossWouldTruncate`).
- *Memory and volumes behave alike below the cap.* An empty write beyond the end makes the stream in memory longer, and
  the one over volumes not (`OutStreams.OneAgrees`; the caller never asks for one).
- *A seek goes where it is told.* Above 2^63 the position, or the length counted back from, wraps round
  (`Positions.SeekGoesAstrayAbove`).
- *Cancelling ends an EGG extraction.* The writer answers "interrupted", and the standard library's `write_all` tries an
  interrupted write again. A cancel that is seen in the middle of a write is never answered
  (`CancelWriters.ReturnsExactlyWhenDoneBeforeTheCancel`).
- *An ALZ entry whose size wraps is marked incomplete.* If the sum of place and size wraps to a place inside the input,
  the archive is refused instead (`AlzParsers.RefusedExactlyWhenTheSumWraps`); it is safe either way.
- *The two folder views agree.* They do, on every folder, exactly if no path has an empty part, no path is listed as a
  file while something is in it or it is a folder as well, and no file has a slash behind its path that makes up a folder
  (`FolderAgreement.AgreeEverywhereExactlyWhen`). An EGG or ALZ archive can name such a file
  (`FolderAgreement.SlashBehindAFile`).

## Assumptions

Every call carries the session token of its window. For the progress theorems, resolving the session and leasing is one
step, the backend announces a push to the one living window, and opens a window only when none lives (`Orderly`);
`LeaseDrained` also takes it that a lease is served once. For `PipelineSizes` no worker goes while it waits for work, and
a source that gave a short chunk does not grow again. Removing a temporary file works. Whether any other operation on the
disk works is open; a ghost counter `faults` tells that one did not. Deflate is a function that may fail, and the
inflater, `localeCompare` and the naming of copies are parameters or left open.

## Model

| member | source | states |
|---|---|---|
| `LeaseQueue.AcksOnceInPushOrder` | src-tauri/src/commands.rs:148-162 | over every sequence of backend calls, no request is acknowledged Ok twice and Ok acknowledgements come in push order |
| `LeaseQueue.DispatchesOnce` | src-tauri/src/commands.rs:126-145 | a request is dispatched Ok at most once, over all its generations |
| `LeaseQueue.AckAnswers` | src-tauri/src/commands.rs:78-88 | ack answers Ok iff it names the lease of the front, Already iff it repeats one of the last 32 Ok acks, else Stale |
| `LeaseQueue.TakenIsGranted` | src-tauri/src/commands.rs:91-123 | a lease gives the launch that was pushed under that id, in push order |
| `LeaseQueue.GenerationsAreNeverReused` | src-tauri/src/commands.rs:109-115 | a generation names one request and one session for ever |
| `LeaseQueue.LeaseIsIdempotent` | src-tauri/src/commands.rs:97-105 | leasing again gives the same lease and changes nothing |
| `LeaseQueue.EveryRequestIsAccountedFor` | src-tauri/src/commands.rs:66-187 | every pushed request is in exactly one of queue, acked and discarded; discarded only after dispatch and by the death of its own session |
| `LeaseQueue.DeathHurtsOnlyItsOwn` | src-tauri/src/commands.rs:165-181 | the death of a session gives back or drops only what it holds |
| `LeaseQueue.StepKeepsConsistent` | src-tauri/src/commands.rs:66-187 | every backend call keeps the invariant over queue, leases, generations, memory and history |
| `LeaseQueue.AfterIsConsistent` | src-tauri/src/commands.rs:66-187 | so does every sequence of calls |
| `CompressQueue.PendingCompress.constructor` | src-tauri/src/commands.rs:46-54 | an empty queue |
| `CompressQueue.PendingCompress.Push` | src-tauri/src/commands.rs:68-75 | a request goes to the end under a new number |
| `CompressQueue.PendingCompress.RememberAck` | src-tauri/src/commands.rs:78-84 | the last 32 acks are kept |
| `CompressQueue.PendingCompress.Lease` | src-tauri/src/commands.rs:91-123 | the whole new queue and answer are those of the specification; the window is marked ready |
| `CompressQueue.PendingCompress.Dispatch` | src-tauri/src/commands.rs:126-145 | same for dispatch, whose memory is looked at first |
| `CompressQueue.PendingCompress.Acknowledge` | src-tauri/src/commands.rs:148-162 | same for ack |
| `CompressQueue.PendingCompress.ReleaseSession` | src-tauri/src/commands.rs:165-181 | keeps, gives back or drops each request, in order, and counts those given back |
| `CompressQueue.PendingCompress.HasUnleased` | src-tauri/src/commands.rs:184-186 | whether some request is unleased |
| `CompressPlan.PlansRespectTheForm` | src/lib/compressPlan.js:39-76 | ignore iff nothing is asked; a plan resets the form only if it is not dirty; jobs start only from standalone requests; what is held applies once the form is clean |
| `Coordinator.PumpSettles` | src/lib/compressCoordinator.js:77-86 | starting work keeps the state well staged, with no signal forgotten |
| `Coordinator.CarrySettles` | src/lib/compressCoordinator.js:136-200 | so does carrying a held request on |
| `Coordinator.FinishSettles` | src/lib/compressCoordinator.js:201-206 | so does finishing, which goes on with what is left |
| `CompressCoordinator.Coordinator.constructor` | src/lib/compressCoordinator.js:22-37 | an idle coordinator; the new state is the one of the step function |
| `CompressCoordinator.Coordinator.Poke` | src/lib/compressCoordinator.js:62-66 | a state change of the window lifts failure, and blocking only with a clean form; the new state is the one of the step function |
| `CompressCoordinator.Coordinator.Signal` | src/lib/compressCoordinator.js:69-74 | a signal counts up and lifts blocking and failure; the new state is the one of the step function |
| `CompressCoordinator.Coordinator.Pump` | src/lib/compressCoordinator.js:77-86 | starts only if idle, with work, not blocked, failed or busy; the new state is the one of the step function |
| `CompressCoordinator.Coordinator.OnLease` | src/lib/compressCoordinator.js:114-125 | takes the answer of a lease, and what came in since it was asked for; the new state is the one of the step function |
| `CompressCoordinator.Coordinator.Accept` | src/lib/compressCoordinator.js:129-134 | anything but Ok or Already is an error; the new state is the one of the step function |
| `CompressCoordinator.Coordinator.OnDispatch` | src/lib/compressCoordinator.js:158-169 | goes on to apply only if the dispatch was accepted; the new state is the one of the step function |
| `CompressCoordinator.Coordinator.OnApply` | src/lib/compressCoordinator.js:172-189 | asks for the ack if apply succeeded, else fails; the new state is the one of the step function |
| `CompressCoordinator.Coordinator.OnAck` | src/lib/compressCoordinator.js:191-200 | the request is done; the new state is the one of the step function |
| `LeaseProtocol.RunKeepsInv` | src-tauri/src/commands.rs:66-187 | the invariant of the whole protocol holds in every reachable state |
| `LeaseProtocol.AtMostOnce` | src/lib/compressCoordinator.js:136-200 | in every run, apply never succeeds twice for a request and never two sessions call it for the same one |
| `LeaseProtocol.LateCallsHurtNobody` | src-tauri/src/commands.rs:126-162 | a call from one session, however late, leaves the queue alone while another holds the front |
| `LeaseProtocol.HoldersAreExclusive` | src-tauri/src/commands.rs:91-123 | what a living window holds unapplied is the front, leased to it; no other living window holds anything unapplied |
| `LeaseProtocol.NothingVanishes` | src-tauri/src/commands.rs:148-181 | a request that left the queue was acked after its session applied it (or was empty), or discarded, dispatched by a dead window |
| `LeaseProgress.NoStrandedRequest` | src/lib/compressCoordinator.js:56-126 | whenever the living window rests with nothing on its way, it holds nothing and no queued request is unleased |
| `LeaseProgress.RunKeepsProgress` | src-tauri/src/commands.rs:1359-1371 | the invariant behind that holds in every orderly run, with pushes that race with leases |
| `LeaseDrained.RestingMeansDrained` | src/lib/compressCoordinator.js:201-206 | and the queue is empty |
| `WindowSessions.NamesAreDistinct` | src-tauri/src/commands.rs:198-207 | a session name tells its label and number |
| `WindowSessions.BeginIsFresh` | src-tauri/src/commands.rs:198-207 | a new session was never handed out before |
| `WindowSessions.SessionTable.constructor` | src-tauri/src/commands.rs:189-194 | the new table and the answer are those of the specification |
| `WindowSessions.SessionTable.Begin` | src-tauri/src/commands.rs:198-207 | the new table and the answer are those of the specification |
| `WindowSessions.SessionTable.Current` | src-tauri/src/commands.rs:210-213 | the new table and the answer are those of the specification |
| `WindowSessions.SessionTable.End` | src-tauri/src/commands.rs:216-221 | the new table and the answer are those of the specification |
| `WindowSessions.SessionTable.Resolve` | src-tauri/src/commands.rs:231-246 | the new table and the answer are those of the specification |
| `Jobs.JobManager.constructor` | src-tauri/src/jobs.rs:37-51 | nothing runs |
| `Jobs.JobManager.Start` | src-tauri/src/jobs.rs:65-103 | refused when closing, retired or busy, else registered with a fresh flag |
| `Jobs.JobManager.Cancel` | src-tauri/src/jobs.rs:106-114 | flags the job if it runs |
| `Jobs.JobManager.RetireSession` | src-tauri/src/jobs.rs:118-129 | marks the session and flags all its jobs, counting them |
| `Jobs.JobManager.Finish` | src-tauri/src/jobs.rs:154-162 | takes the job out |
| `Jobs.JobManager.BeginShutdown` | src-tauri/src/jobs.rs:165-175 | flags every job and lets none in any more |
| `Jobs.HappenKeepsWorldOk` | src-tauri/src/jobs.rs:65-175 | every event keeps the invariant of sessions and jobs |
| `Jobs.NoOrphanRuns` | src-tauri/src/jobs.rs:65-129 | in every interleaving of resolve, start, retire, end and shutdown at most one job runs, and none of a retired session or after shutdown lacks its cancel flag |
| `Jobs.ShutdownOnlyDrains` | src-tauri/src/jobs.rs:154-190 | once closing, for good, and the running jobs only get fewer |
| `Jobs.LateStartsAreRefused` | src-tauri/src/commands.rs:1474-1492 | no start resolved before a session was retired is registered after it |
| `Jobs.RetiredForGood` | src-tauri/src/jobs.rs:118-129 | retired sessions stay retired |
| `Jobs.NewWindowsStartAfresh` | src-tauri/src/commands.rs:231-246 | a window opened again is not held back by its predecessor, whose token is turned away |
| `VolumeSets.VolumeSet.New` | crates/zipmania-archive/src/outfile.rs:240-251 | refuses a volume size of zero |
| `VolumeSets.VolumeSet.Len` | crates/zipmania-archive/src/outfile.rs:268-276 | the length of the flat file |
| `VolumeSets.VolumeSet.Ensure` | crates/zipmania-archive/src/outfile.rs:283-297 | volumes up to a number, full in front; the flat file padded with zeros no further than needed |
| `VolumeSets.VolumeSet.SetLen` | crates/zipmania-archive/src/outfile.rs:300-310 | the flat file resized; fails only with the disk, and then has some other length |
| `VolumeSets.VolumeSet.Write` | crates/zipmania-archive/src/outfile.rs:374-392 | writes what fits into the volume at the position, as on the flat file; an error leaves a hole or a part |
| `VolumeSets.VolumeSet.WriteAll` | crates/zipmania-archive/src/outfile.rs:374-392 | all of a buffer over volume boundaries, as one write on the flat file |
| `VolumeSets.VolumeSet.Seek` | crates/zipmania-archive/src/outfile.rs:403-415 | moves only the position, to the computed place |
| `VolumeSets.WriteInTwo` | crates/zipmania-archive/src/outfile.rs:374-392 | writing in two pieces is writing the whole |
| `VolumeSets.PartlyInTwo` | crates/zipmania-archive/src/outfile.rs:374-392 | a failure in a later piece leaves the first bytes of the whole |
| `FlatFile.WriteIntoPiece` | crates/zipmania-archive/src/outfile.rs:374-392 | writing inside one piece of a file cut into equal pieces writes into the flat file |
| `FlatFile.WriteTwice` | crates/zipmania-archive/src/outfile.rs:374-392 | two writes, one behind the other, are one |
| `FlatFile.FewerPieces` | crates/zipmania-archive/src/outfile.rs:300-310 | dropping pieces and shortening the last cuts the flat file |
| `Positions.SeekIsRightBelow2To63` | crates/zipmania-archive/src/outfile.rs:403-415 | below 2^63 a seek goes where it should or fails because that is no place |
| `Positions.SeekGoesAstrayAbove` | crates/zipmania-archive/src/outfile.rs:403-415 | some relative move goes to a wrong place from exactly the positions above 2^63, and some move from the end for exactly the lengths above it |
| `OutStreams.MemoryStaysFit` | crates/zipmania-archive/src/backend/sevenzip/streams.rs:199-289 | no operation in memory exceeds the cap |
| `OutStreams.OneAgrees` | crates/zipmania-archive/src/backend/sevenzip/streams.rs:199-289 | one operation agrees on both backings exactly if it stays within the cap and is no empty write beyond the end |
| `OutStreams.RunsAgree` | crates/zipmania-archive/src/backend/sevenzip/streams.rs:199-289 | the same for whole runs, step by step |
| `OutStreams.MemoryNeverExceedsTheCap` | crates/zipmania-archive/src/backend/sevenzip/streams.rs:199-289 | no run in memory ever exceeds the cap |
| `OutStreams.OutInner.WriteBytes` | crates/zipmania-archive/src/backend/sevenzip/streams.rs:199-243 | is the specified write on either backing; over volumes it fails exactly with the disk |
| `OutStreams.OutInner.SeekBytes` | crates/zipmania-archive/src/backend/sevenzip/streams.rs:245-271 | is the specified seek: clamped at zero, refused beyond the cap in memory |
| `OutStreams.OutInner.SetSizeBytes` | crates/zipmania-archive/src/backend/sevenzip/streams.rs:273-289 | is the specified resize; over volumes it fails exactly with the disk |
| `VolumeNames.VolumeNamesAreDistinct` | crates/zipmania-archive/src/volumes.rs:9-15 | a volume name tells its target and number |
| `VolumeNames.SplitBaseInvertsFirst` | crates/zipmania-archive/src/volumes.rs:18-28 | split_base takes back volume_name at 1 and nowhere else |
| `VolumeNames.SplitBaseMeaning` | crates/zipmania-archive/src/volumes.rs:18-28 | what counts as a first volume: a named target, a dot, at least three digits that mean one |
| `VolumeNames.TmpIsNoVolume` | crates/zipmania-archive/src/outfile.rs:58-65 | a temporary name is the name of no volume and not the target |
| `Files.Directory.OpenNewTmp` | crates/zipmania-archive/src/outfile.rs:67-94 | a new file under a name nobody uses, on the live list, or no change |
| `Files.Directory.Rename` | crates/zipmania-archive/src/outfile.rs:163-172 | a rename replaces whatever had the new name |
| `VolumeCommits.FinalsAreDistinct` | crates/zipmania-archive/src/outfile.rs:319-328 | the final names are distinct, and the stale name is none of them |
| `VolumeCommits.Commit` | crates/zipmania-archive/src/outfile.rs:314-365 | what every outcome leaves behind: the live list without the set, no temporary file, the final names that stuck, everything else as it was; a refusal moves nothing; a rename fails only with the disk |
| `VolumeCommits.RefusedMovesNothing` | crates/zipmania-archive/src/outfile.rs:329-334 | a refusal for a stale volume changes nothing but dropping the temporary files |
| `VolumeCommits.RestoresExactlyWhen` | crates/zipmania-archive/src/outfile.rs:339-362 | a failed commit leaves the directory as without the set exactly if the renames it took back had replaced nothing and those that stuck changed nothing |
| `VolumeCommits.RollbackRestoresExactlyWhen` | crates/zipmania-archive/src/outfile.rs:339-362 | whichever rename fails, a rollback that works restores the directory iff none of the final names but the last was there before the call |
| `VolumeCommits.AllOrNothing` | crates/zipmania-archive/src/outfile.rs:314-365 | with no destination there, a failed commit leaves no trace iff its renames can be taken back, else exactly the final names that stuck |
| `VolumeCommits.UnreachedIsUntouched` | crates/zipmania-archive/src/outfile.rs:339-345 | a destination that was not reached keeps its content |
| `VolumeCommits.SuccessLeavesTheFinals` | crates/zipmania-archive/src/outfile.rs:347-353 | success leaves exactly the finals with the contents of the volumes |
| `VolumeReaders.OnDiskIsUnique` | crates/zipmania-archive/src/volumes.rs:39-55 | what volumes are there is determined |
| `VolumeReaders.NumbersRunOut` | crates/zipmania-archive/src/volumes.rs:39-55 | opening ends, because numbers run out |
| `VolumeReaders.VolumeReader.Open` | crates/zipmania-archive/src/volumes.rs:39-55 | opens all consecutive volumes of the base; fails exactly for a fault of the disk, for no first volume or a missing one |
| `VolumeReaders.VolumeReader.Locate` | crates/zipmania-archive/src/volumes.rs:70-79 | the volume and offset of a position |
| `VolumeReaders.VolumeReader.Read` | crates/zipmania-archive/src/volumes.rs:83-97 | gives bytes of the flat contents from the position on, none only at the end |
| `VolumeReaders.VolumeReader.Seek` | crates/zipmania-archive/src/volumes.rs:101-117 | goes to the computed place or fails |
| `VolumeReaders.VolumeReader.ReadToEnd` | crates/zipmania-archive/src/volumes.rs:83-97 | reading on gives all the rest, or there was a fault |
| `VolumeReaders.CommittedIsOnDisk` | crates/zipmania-archive/src/outfile.rs:319-353 | a committed set of several volumes is on disk, complete and with nothing behind it |
| `VolumeReaders.CommitAndReadBack` | crates/zipmania-archive/src/outfile.rs:314-365 | committing a set and opening its first volume (or, for one volume, the target) gives what was written, from any place, exactly unless the disk failed, nothing was written or a stale volume was there |
| `Pipelines.StepKeepsInv` | crates/zipmania-archive/src/backend/unzip/bigfile.rs:244-366 | every step of reader, workers and collector, with losses, failed writes, changed sources and cancel, keeps the invariant |
| `PipelineOutcomes.ZipHoldsWhatWasSent` | crates/zipmania-archive/src/backend/unzip/bigfile.rs:361-399 | a zip that comes out holds every chunk sent, in order, then the final block, with the checksum of just those |
| `PipelineOutcomes.ZipIsWholeExactlyAtEof` | crates/zipmania-archive/src/backend/unzip/bigfile.rs:304-341 | it holds the whole source exactly if the reader saw the end |
| `PipelineOutcomes.ZipIsRight` | crates/zipmania-archive/src/backend/unzip/bigfile.rs:304-399 | it is right about the whole source of the announced size unless a worker went while it waited |
| `PipelineOutcomes.SlotsAreBounded` | crates/zipmania-archive/src/backend/unzip/bigfile.rs:49-88 | slots in use are the chunks acquired and not written, at most three for each worker, the reorder map included |
| `PipelineOutcomes.SealedFileReadsBack` | crates/zipmania-archive/src/backend/unzip/bigfile.rs:380-399 | the sealed file reads back to the chunks of the source, below the 31 bytes |
| `PipelineProgress.StuckInTwoWays` | crates/zipmania-archive/src/backend/unzip/bigfile.rs:336-366 | exactly when no step is left although nobody can be joined |
| `PipelineProgress.NeverStuckWithoutLoss` | crates/zipmania-archive/src/backend/unzip/bigfile.rs:336-366 | never without a lost worker or a failed collector |
| `PipelineProgress.EveryStepDoesWork` | crates/zipmania-archive/src/backend/unzip/bigfile.rs:304-360 | every step decreases the measure |
| `PipelineProgress.RunsAreBounded` | crates/zipmania-archive/src/backend/unzip/bigfile.rs:304-360 | so every run ends, after a bounded number of steps |
| `PipelineAccidents.IdleLossWouldTruncate` | crates/zipmania-archive/src/backend/unzip/bigfile.rs:276-282 | for every eligible source of full chunks and a last one, a run in which the workers are lost while idle lets a zip without the last chunk out |
| `PipelineAccidents.OneLossHangs` | crates/zipmania-archive/src/backend/unzip/bigfile.rs:336-341 | for every eligible file with more chunks than slots, a reachable stuck state after one lost worker |
| `PipelineAccidents.OneFailedWriteHangs` | crates/zipmania-archive/src/backend/unzip/bigfile.rs:270-282 | for every eligible file of enough chunks and any number of workers, a reachable stuck state after one failed write, with all workers in place |
| `PipelineSizes.NeverStuckExactlyUpTo` | crates/zipmania-archive/src/backend/unzip/bigfile.rs:270-366 | never stuck exactly for files of up to two full chunks for each worker if a worker may be lost at a chunk, and otherwise for one chunk more or a single worker |
| `PipelineSizes.StuckMeansBig` | crates/zipmania-archive/src/backend/unzip/bigfile.rs:41-71 | a stuck sender or acquirer has sent more chunks than that |
| `PipelineSizes.BigFilesHang` | crates/zipmania-archive/src/backend/unzip/bigfile.rs:270-366 | for every bigger file, a run that ends stuck |
| `BigFiles.Slots.Acquire` | crates/zipmania-archive/src/backend/unzip/bigfile.rs:65-82 | takes a slot only below the limit, not when canceled or dead |
| `BigFiles.Slots.Release` | crates/zipmania-archive/src/backend/unzip/bigfile.rs:83-88 | gives a slot back, never below zero |
| `BigFiles.FillChunk` | crates/zipmania-archive/src/backend/unzip/bigfile.rs:309-327 | a chunk is full unless the source ended; it fails only with a read, and loses no byte |
| `BigFiles.Collect` | crates/zipmania-archive/src/backend/unzip/bigfile.rs:152-182 | writes the chunks that arrived, in order and each once, giving their slots back, and answers how many; an error exactly for a failed chunk, a hole or a failed write |
| `BigFiles.Seal` | crates/zipmania-archive/src/backend/unzip/bigfile.rs:185-240 | leaves exactly the container around the untouched body, rewound; fails only with the disk |
| `Containers.ArchiveLength` | crates/zipmania-archive/src/backend/unzip/bigfile.rs:185-240 | the file is 31 + csize + 47 + 22 long |
| `Containers.PlaceIsRightExactlyBelow` | crates/zipmania-archive/src/backend/unzip/bigfile.rs:224-232 | the recorded place is right iff csize + 31 < 2^32 |
| `Containers.ArchiveReadsBack` | crates/zipmania-archive/src/backend/unzip/bigfile.rs:192-235 | below that the file parses back from its end record: sizes, checksum, time and body |
| `Containers.EndIsFound` | crates/zipmania-archive/src/backend/unzip/bigfile.rs:225-232 | the end record is found behind anything |
| `Containers.CentralIsFound` | crates/zipmania-archive/src/backend/unzip/bigfile.rs:214-223 | the central header is found wherever it is |
| `Containers.LocalReads` | crates/zipmania-archive/src/backend/unzip/bigfile.rs:192-204 | the local header reads back |
| `Containers.StubPlaceIsLost` | crates/zipmania-archive/src/backend/unzip/bigfile.rs:231-231 | a place that points at the stub name does not read back |
| `Containers.LargestSizeIsLost` | crates/zipmania-archive/src/backend/unzip/bigfile.rs:395-398 | nor does the largest size that the guard lets through |
| `LittleEndian.RecordReadsBack` | crates/zipmania-archive/src/backend/unzip/bigfile.rs:193-203 | numbers written in given widths read back |
| `LittleEndian.BytesKeepExactlyBelow` | crates/zipmania-archive/src/backend/unzip/bigfile.rs:200-201 | a number survives its width exactly below the power |
| `Crc.TableStep` | crates/zipmania-archive/src/crc32.rs:40-47 | the table-driven step is eight bit-by-bit steps |
| `Crc.SplitsAnywhere` | crates/zipmania-archive/src/crc32.rs:40-47 | how the input is split into updates makes no difference |
| `Crc.RegistersStayApart` | crates/zipmania-archive/src/crc32.rs:40-47 | different registers stay different under any input |
| `Crc.BurstsAreCaught` | crates/zipmania-archive/src/crc32.rs:34-52 | differences within four bytes in a row always change the checksum |
| `Crc.OneByteIsCaught` | crates/zipmania-archive/src/crc32.rs:34-52 | so does any one byte |
| `CrcTables.MakeTable` | crates/zipmania-archive/src/crc32.rs:7-27 | the table holds eight steps of every byte |
| `CrcTables.MakeCipherTable` | crates/zipmania-archive/src/backend/unegg/crypto.rs:7-24 | so does the one of the other builder |
| `CrcTables.TableIsUnique` | crates/zipmania-archive/src/backend/unegg/crypto.rs:7-24 | there is only one such table |
| `CrcTables.BothTables` | crates/zipmania-archive/src/crc32.rs:7-27 | both builders make the same |
| `CrcTables.Crc32.Update` | crates/zipmania-archive/src/crc32.rs:40-47 | is the bit-by-bit checksum of the bytes, going on from the state |
| `CrcTables.ChecksumOf` | crates/zipmania-archive/src/crc32.rs:34-52 | any two updates give the checksum of the whole |
| `StreamCiphers.DecryptionUndoesEncryption` | crates/zipmania-archive/src/backend/unegg/crypto.rs:56-64 | decryption undoes encryption, for every cipher of this kind |
| `StreamCiphers.EncryptionUndoesDecryption` | crates/zipmania-archive/src/backend/unegg/crypto.rs:56-64 | and the other way round |
| `StreamCiphers.PiecesAreTheWhole` | crates/zipmania-archive/src/backend/unegg/crypto.rs:26-31 | decrypting piece by piece is one continuous pass |
| `StreamCiphers.BehindAHeader` | crates/zipmania-archive/src/backend/unegg/crypto.rs:66-76 | what was encrypted behind a header decrypts behind it |
| `ZipCryptos.MixTwice` | crates/zipmania-archive/src/backend/unegg/crypto.rs:56-64 | the pad of this cipher takes itself back, so all that holds of it |
| `ZipCryptos.ZipCrypto.constructor` | crates/zipmania-archive/src/backend/unegg/crypto.rs:35-45 | the keys after the password |
| `ZipCryptos.ZipCrypto.UpdateKeys` | crates/zipmania-archive/src/backend/unegg/crypto.rs:47-53 | one step of the keys, through the table, equals the bitwise one |
| `ZipCryptos.ZipCrypto.Decrypt` | crates/zipmania-archive/src/backend/unegg/crypto.rs:56-64 | decrypts in place, going on where the last call ended |
| `ZipCryptos.ZipCrypto.CheckHeader` | crates/zipmania-archive/src/backend/unegg/crypto.rs:67-76 | compares the last of twelve decrypted bytes; the keys stand behind them |
| `ByteReaders.Reader.Bytes` | crates/zipmania-archive/src/backend/unegg/reader.rs:49-57 | takes bytes, or fails and stays; never out of range |
| `ByteReaders.Reader.Skip` | crates/zipmania-archive/src/backend/unegg/reader.rs:59-65 | moves, or fails and stays; never out of range |
| `ByteReaders.Reader.U16` | crates/zipmania-archive/src/backend/unegg/reader.rs:71-74 | little-endian; never out of range |
| `ByteReaders.Reader.U32` | crates/zipmania-archive/src/backend/unegg/reader.rs:76-79 | little-endian; never out of range |
| `ByteReaders.Reader.U64` | crates/zipmania-archive/src/backend/unegg/reader.rs:81-84 | little-endian; never out of range |
| `ByteReaders.Reader.PeekU32` | crates/zipmania-archive/src/backend/unegg/reader.rs:89-96 | looks without moving; never out of range |
| `ByteReaders.Reader.PeekU32At` | crates/zipmania-archive/src/backend/unegg/reader.rs:98-106 | looks ahead without moving; never out of range |
| `ByteReaders.Reader.VarUInt` | crates/zipmania-archive/src/backend/unegg/reader.rs:108-122 | a number of 0, 1, 2, 4 or 8 bytes; never out of range |
| `EggParsers.ReadExtra` | crates/zipmania-archive/src/backend/unegg/egg.rs:206-248 | reads one extra field as the grammar says |
| `EggParsers.ReadExtras` | crates/zipmania-archive/src/backend/unegg/egg.rs:206-248 | reads all of them up to END, within the limits |
| `EggParsers.ReadBlock` | crates/zipmania-archive/src/backend/unegg/egg.rs:251-274 | reads one block as the grammar says |
| `EggParsers.BlockAt` | crates/zipmania-archive/src/backend/unegg/egg.rs:251-274 | the data of a block is inside the input and ends where the block ends |
| `EggParsers.Parse` | crates/zipmania-archive/src/backend/unegg/egg.rs:277-345 | the parser is the grammar, on every byte string |
| `EggParsers.AcceptedIsSound` | crates/zipmania-archive/src/backend/unegg/egg.rs:277-345 | in whatever is accepted every block is inside the input, blocks ascend and are disjoint, and the end is inside |
| `AlzParsers.ReadFile` | crates/zipmania-archive/src/backend/unegg/alz.rs:88-147 | reads one entry as the grammar says |
| `AlzParsers.Parse` | crates/zipmania-archive/src/backend/unegg/alz.rs:157-192 | the parser is the grammar, on every byte string |
| `AlzParsers.AcceptedIsSound` | crates/zipmania-archive/src/backend/unegg/alz.rs:157-192 | in whatever is accepted complete entries are inside the input, entries ascend and are disjoint, and only the last may be incomplete |
| `AlzParsers.RefusedExactlyWhenTheSumWraps` | crates/zipmania-archive/src/backend/unegg/alz.rs:118-147 | an entry is refused for its data iff the 64-bit sum wraps to a place inside; else complete iff the data is there |
| `AlzParsers.WrappedSumRefusesTheArchive` | crates/zipmania-archive/src/backend/unegg/alz.rs:118-147 | one entry whose sum wraps to a place inside, behind any number of good ones, and the whole archive is refused |
| `Decoders.Gate.Accept` | crates/zipmania-archive/src/backend/unegg/mod.rs:265-279 | takes the checksum, refuses what exceeds the limit and passes the rest on |
| `Decoders.InflateTo` | crates/zipmania-archive/src/backend/unegg/codec.rs:130-189 | ends for every inflater; within the cap; on success the expected size |
| `Decoders.DecompressTo` | crates/zipmania-archive/src/backend/unegg/codec.rs:77-126 | stored bytes pass unchanged; what is refused is refused for its reason |
| `Decoders.OpenCipher` | crates/zipmania-archive/src/backend/unegg/mod.rs:194-213 | the keys behind the verification header, or exactly why not |
| `Decoders.ReadBlock` | crates/zipmania-archive/src/backend/unegg/mod.rs:242-293 | within what is left of the limit; a recorded checksum was verified; refused only for its reason |
| `Decoders.ReadItemTo` | crates/zipmania-archive/src/backend/unegg/mod.rs:186-295 | never more than the limit to the sink; on success the count is right, every recorded checksum verified, and all blocks deciphered as one pass; refused only for the password or the first bad block |
| `Extractions.Finish` | crates/zipmania-archive/src/backend/mod.rs:109-115 | ok iff nothing is missing; the list is cut, its count is not |
| `Extractions.NothingMissingNothingLost` | crates/zipmania-archive/src/backend/mod.rs:109-115 | no item missing means none was lost |
| `Extractions.OneMoreFate` | crates/zipmania-archive/src/backend/unzip/extract.rs:64-216 | one more item keeps what the fates say about the directory |
| `Extractions.Disk.UniquePath` | crates/zipmania-archive/src/backend/unzip/extract.rs:97-106 | a free name if there is one |
| `Extractions.Disk.MakeFolder` | crates/zipmania-archive/src/backend/unzip/extract.rs:86-92 | the folder and all above it are there afterwards, unless a file is in the way or the disk fails |
| `Extractions.Disk.CommitStaged` | crates/zipmania-archive/src/outfile.rs:203-226 | the target gets the staged content, or keeps its own; the staged file is gone |
| `ZipExtracts.Copy` | crates/zipmania-archive/src/backend/unzip/extract.rs:152-184 | copies the entry exactly, or says why not |
| `ZipExtracts.Place` | crates/zipmania-archive/src/backend/unzip/extract.rs:97-106 | skips, replaces or renames as asked if a file or a folder is there |
| `ZipExtracts.StageAndCommit` | crates/zipmania-archive/src/backend/unzip/extract.rs:140-211 | a target changes only to an entry of the listed size |
| `ZipExtracts.ExtractOne` | crates/zipmania-archive/src/backend/unzip/extract.rs:64-212 | one item is settled or lost for its reason |
| `ZipExtracts.Targets` | crates/zipmania-archive/src/backend/unzip/extract.rs:43-56 | the wanted items, if all headers can be read |
| `ZipExtracts.ExtractAll` | crates/zipmania-archive/src/backend/unzip/extract.rs:29-216 | the directory is exactly what the fates make of it, no staged file is left, each placed file holds the bytes of its entry, ok means nothing was lost, a loss has the reason reported; everything ends only for a cancel, the folder, a header or the password |
| `ZipExtracts.NoFaultNoLoss` | crates/zipmania-archive/src/backend/unzip/extract.rs:29-216 | with a good disk, sound entries of the listed size are never lost |
| `EggExtracts.DecodeInto` | crates/zipmania-archive/src/backend/unegg/extract.rs:143-155 | the staged file holds the decoded blocks, or why not |
| `EggExtracts.StageAndCommit` | crates/zipmania-archive/src/backend/unegg/extract.rs:132-191 | a target changes only to decoded content of the listed size |
| `EggExtracts.ExtractOne` | crates/zipmania-archive/src/backend/unegg/extract.rs:78-194 | an unsafe path ends everything |
| `EggExtracts.ExtractAll` | crates/zipmania-archive/src/backend/unegg/extract.rs:57-199 | as for ZIP, with decoded content; everything ends only for a cancel, a fault of the disk, an unsafe path or the password |
| `CancelWriters.NothingMovesOnceCanceled` | crates/zipmania-archive/src/backend/unegg/extract.rs:30-39 | once a round sees the flag nothing moves any more |
| `CancelWriters.ReturnsExactlyWhenDoneBeforeTheCancel` | crates/zipmania-archive/src/backend/unegg/extract.rs:30-39 | a write returns iff it was done before the flag was seen |
| `CancelWriters.ReturnsWhenNobodyCancels` | crates/zipmania-archive/src/backend/unegg/extract.rs:30-39 | and it does return if nobody cancels |
| `PathTexts.NamesMakeThePath` | src/lib/stores.js:313-321 | a path without empty parts is what its names make, perhaps with a slash behind it |
| `PathTexts.EverySlash` | src/lib/stores.js:316-321 | every slash stands behind one of the paths on the way |
| `PathTexts.CanBeSorted` | src/lib/stores.js:328-328 | a set of strings can be sorted in JavaScript order |
| `FolderTrees.AddFolders` | src/lib/stores.js:314-321 | all folders an entry names or implies, and no others |
| `FolderTrees.CollectFolders` | src/lib/stores.js:312-322 | the folders of all entries |
| `FolderTrees.ParentIsThere` | src/lib/stores.js:327-334 | in sorted order the parent of a folder is there before it, so the fallback to the root is never used |
| `FolderTrees.LinkNodes` | src/lib/stores.js:324-335 | every folder is a child of its parent once, and nothing else is a child of anything |
| `FolderTrees.SortRec` | src/lib/stores.js:338-342 | the lists below a node are sorted, the others untouched, with the same children |
| `FolderTrees.BuildFolderTree` | src/lib/stores.js:311-345 | the tree of all folders, each once under its true parent, children in order of their names |
| `FolderViews.KeysAreDistinct` | src/lib/stores.js:263-303 | one row for each name that comes up, and no other |
| `FolderViews.AddRow` | src/lib/stores.js:267-301 | an entry itself replaces the row of its name in place; an implied folder only fills a gap |
| `FolderViews.ChildrenOf` | src/lib/stores.js:263-304 | rows in order of first appearance, each of the last entry that is there itself, or derived |
| `FolderAgreement.FoldersByMaking` | src/lib/stores.js:313-322 | an entry makes a folder of the tree iff it is that folder or something is in it |
| `FolderAgreement.TreeMeans` | src/lib/stores.js:311-335 | the children in the tree are what is made right below |
| `FolderAgreement.ShownMeans` | src/lib/stores.js:263-304 | the folder rows are what is made right below, or a file with a slash behind its path, unless listed as a file |
| `FolderAgreement.AgreeEverywhereExactlyWhen` | src/lib/stores.js:263-345 | for every list of entries, the views agree on every folder iff no path has an empty part, no path is listed as a file and made a folder at once, and the slash behind the path of a file makes up no folder |
| `FolderAgreement.EmptyPartDisagrees` | src/lib/stores.js:289-300 | an empty part shows a nameless folder that the tree does not have |
| `FolderAgreement.SlashBehindAFile` | src/lib/stores.js:263-345 | a file with a slash behind its path is a folder row without a folder in the tree |

## Left out

- LeaseProgress.NoStrandedRequest: assumes that resolving the session and leasing are one step; in two steps a lease can land on a session that was already released.
- LeaseProtocol.AtMostOnce: calls without a session token, which resolve to whichever session is current, are not modelled.
- PipelineOutcomes.ZipIsRight: takes it that no worker goes while it waits for work; otherwise a truncated zip could come out, see PipelineAccidents.IdleLossWouldTruncate.
- Decoders.InflateTo: says nothing about the bytes an inflater gives, which may be any.
- VolumeReaders.VolumeReader.Open: the reader keeps the contents that the volumes have when they are opened; changes behind its back are not modelled.
- VolumeSets.VolumeSet.Write: positions and lengths are unbounded; adding to a position does not wrap at 64 bits.
- VolumeSets.VolumeSet.WriteAll: the same.
- EggExtracts.DecodeInto: the decoded bytes reach the staged file at the end, not piece by piece; a cancel in the middle of a write is in CancelWriter instead.
- ZipExtracts.ExtractAll: that the cancel flag is shared with other threads is modelled by looking at it, which may find it set at any time.
- Making an item's path safe and following links: each item already has its target, or none if the path is not safe.
- The options of a launch (level, password, volume size, verification, deleting sources) are carried along unread.
- The deadlines of the waits in the job manager: a wait is the question whether it is over.
- The panic of the collector thread and buffering inside `BufWriter`: writes may fail at any time instead.
- Names, dates, comments and attributes in EGG and ALZ archives, and the choice between their formats.
- `parse_items` refuses split archives; solid ones are parsed but not extracted.
- The bytes that a parser reads are numbers from 0 to 255, those of the checksum and cipher bit vectors.
- Progress events, error texts, the default names of windows, and everything that talks to Tauri, COM or 7z.dll.
- Sorting of rows, the flat list, and the settings of the list.
