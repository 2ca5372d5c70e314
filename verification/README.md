# newtua streaming, archive and batch: a verified model

newtua's Python layer hands one archive entry to a worker thread, a pipe and a
file object; spills archives that have no path into claim-counted temporary
files; and runs many archives in parallel. This project models those parts and
proves what they promise for every run. The extraction engine is a parameter: a
deterministic function from (file bytes, password, entry) to what it decodes,
where it stops and whether that is with an error, whether it reopens its file by
path, and the size it lists.

## How the model is built

- `TempFiles`: the claim counter with its delete outside the lock, first as a
  machine any number of threads drive, then as the class `TempFile`.
- `Streams`, `StreamProofs`: one streaming open as a step machine. The caller's
  and the worker's program counters, the one-slot handshake, the kernel pipe,
  the buffered reader and the truncation check. `CanAct` says when a step may
  happen and `Moved` what it does, for POSIX and Windows alike; a step is one
  atomic action of one thread, and the counts in `Write`, `Fetch` and `Return`
  are the scheduler's choice.
- `StreamSystem`, `SystemProofs`: the whole process. One archive, any number of
  streams, every temp file ever spilled, and a descriptor table in which closed
  numbers are handed out again. `KernelClose` closes whatever a number stands
  for, so that a wrong close would hit somebody else. The file a stream reads
  and the claim it holds are two things: a front may lose the claim and keep the
  path. `Core` is invariant over all runs whatsoever; `Inv` over those with one
  discipline (`Ordered`): no thread drops the archive's claim while an `open`
  stands between looking the temp file up and claiming it, and nobody begins an
  `open` when that claim is gone. The synchronous `Archive` has it because all
  of it happens on one thread; `AsyncArchive` has it only if every stream is
  entered before the archive is exited.
- `Guarantees`, `Liveness`, `Modes`: the theorems over whole runs. `IsRun` is
  any interleaving; a theorem that needs the discipline says `Ordered`.
- `AsyncRace`: exactly what the discipline is for, and two ways to lose a file
  without it.
- `Lookup`, `Lifecycle`, `ArchiveObject`, `AsyncFront`: entries and names, the
  lazily opened archive as functions on its fields with theorems over call
  sequences, and the two classes proved against those functions.
- `Sinks`, `EntryStreams`: the adapter the engine writes through, the buffered
  and the piped file object, and the descriptors Python has to close.
- `Calls`, `Sessions`, `AsyncSessions`: the classes as an implementation of the
  system. `Calls` says which run an uninterrupted call is; a `Session` makes
  calls on the objects and keeps the run they amount to, so that the theorems
  over runs are theorems about the objects. `AsyncSessions` does so for the
  asyncio objects.
- `Programs`: what a sequence of calls comes to, as a function of the calls, and
  the objects that come to exactly that.
- `Batch`: the runner, with any completion order, and the reassembly.

## What was found in the code

- The streamed mode drops the engine's error. If the engine fails after it has
  emitted at least the listed size (a checksum that is found wrong at the end, or
  an entry listed with size 0), `read` and `open` raise and the drained stream
  reports nothing; if it ends well below the listed size, only the stream raises.
  The modes agree exactly for entries whose size tells the engine's fate
  (`Modes.ReadThreeWays`, `Modes.ChecksumErrorIsSilent`, `Modes.ShortEntryIsLoud`).
  README.md:314-320 lists the differences of the two modes without this one.
- A stream context of `AsyncArchive` that is entered after `__aexit__` streams
  all the same as long as another stream keeps the file, but takes no claim; when
  the other stream closes, it is cut short (`AsyncRace.LateStreamIsCut`, and on the
  objects `AsyncSessions.LateEntry`). One
  entered just before may claim a file that is being deleted
  (`AsyncRace.ExitInTheWindowLosesTheFile`).
- A read of size 0 counts as the end of the data, so on a healthy stream that
  is not finished it raises the corruption error
  (`Guarantees.VerdictIsExact`, `Guarantees.ZeroSizedReadIsMistaken`). An entry
  whose listed size is 0 is never checked.
- If the backing's own `close` raises, each further `close` gives the claim
  back again (`EntryStreams.ClaimIsReleasedOnceIff`).
- A refused open of a file-object source deletes the only copy of bytes already
  read; the next attempt opens an empty file (`Lifecycle.BackingIsTheSource`,
  `Lifecycle.RefusedFileObjectIsLost`).
- On Windows a failed open can return before its worker has dropped the write
  end; on POSIX nothing is left (`Guarantees.OutcomeDecidesOwnership`).
- The integer-only shortcut for batch selections does not normalise negative
  positions (`Lookup.ShortcutIsExactForPlainPositions`).
- A failed `__aenter__` leaves a front that counts as ready, a missing path
  included; on a new front every later `open` then fails with a lookup error
  (`AsyncFront.AsyncArchive.Enter`, `AsyncFront.OpenAfterFirstEnter`).
- README.en.md says a `bytes` source makes no temporary file and that streaming
  raises on Windows. The code spills `bytes`, and streams path sources on
  Windows. It also says a stream can be opened after the archive is closed; the
  code raises, and what it does allow is reading an open one. The model follows
  the code.

## Model

| member | source | states |
|---|---|---|
| TempFiles.ProtectedIffHeldWhileClaimed | python/newtua/_archive.py:70-81 | For any threads holding, dropping and deleting in any order: a claimed file is on disk, with no deleter on its way, throughout the run exactly when no hold comes after the count has reached zero |
| TempFiles.ReleasedFileIsDeletedOnce | python/newtua/_archive.py:61-81 | With all claims back and no deleter left, the file is gone and was deleted once |
| TempFiles.HoldInsideTheWindowLosesTheFile | python/newtua/_archive.py:75-81 | The concrete bad interleaving: a hold between the last decrement and its delete ends with a claim on a missing file |
| TempFiles.ReleaseIsDropThenDelete | python/newtua/_archive.py:75-81 | An uninterrupted release is the locked half followed by the delete |
| TempFiles.TempFile.HoldOne | python/newtua/_archive.py:70-73 | One more claim, nothing else changes |
| TempFiles.TempFile.Release | python/newtua/_archive.py:75-81 | One claim less; the last one deletes the file, at most once over the object's life |
| SystemProofs.RunKeepsCore | python/newtua/_archive.py:488-524 | Claim counts, descriptors, phases, bytes and backing data are in order after every run whatsoever, disciplined or not |
| SystemProofs.RunKeepsInv | python/newtua/_archive.py:488-524 | Under the discipline every stream moreover claims the very file it reads, that file is on disk with no deleter on its way, and no worker loses it under a reader, after every run and interleaving |
| Guarantees.ClaimsAreConserved | python/newtua/_archive.py:61-81 | In every reachable state a file's count is the archive's claim plus the streams open on it or being opened |
| Guarantees.FileOutlivesItsStreams | python/newtua/_archive.py:45-59 | Under the discipline, while a stream is between hold and release its file is on disk, and no worker whose reader is still there loses the file it reopens |
| Guarantees.NothingLeaks | python/newtua/_archive.py:606-616 | Once the archive and all streams are closed, every file ever spilled has been deleted exactly once, in every run, failed opens, password retries and late entries included |
| Guarantees.DescriptorsAreLinear | src/lib.rs:365-381 | Whoever writes to, reads from or closes a number holds exactly that pipe end, in every run; an end is open exactly while it has an owner, and never has two |
| Guarantees.EachEndIsClosedExactlyOnce | python/newtua/_archive.py:492-515 | Over a whole run each pipe end is closed at most once, and exactly once when the stream has come to rest, on every path |
| Guarantees.OpenIsAtomic | src/lib.rs:466-522 | Whatever step of whichever thread comes next, POSIX and Windows both refine one atomic open: begun with both ends and no outcome, then success with both ends live or failure with neither, then only drops |
| Guarantees.OutcomeDecidesOwnership | src/lib.rs:547-597 | An opened stream's read end is the caller's and its write end the worker's alone; a failed call leaves nothing, but for a Windows worker about to drop its end |
| Guarantees.UserGetsAPrefix | python/newtua/_stream.py:99-115 | Under every schedule and chunking the user gets a prefix of the entry, in order |
| Guarantees.VerdictIsExact | python/newtua/_stream.py:174-184 | A nonzero read raises iff it reaches the end of data that stops below the listed size, be it where the engine breaks off or, without the discipline, where it lost its file; a zero-sized one iff less than the listed size was read so far |
| Guarantees.StreamedEntryIsExact | python/newtua/_archive.py:488-524 | End to end: for a decodable entry no nonzero read in any run reports corruption, and a drained stream gave exactly the entry, wherever closes, password changes and other streams fall |
| Guarantees.ZeroSizedReadIsMistaken | python/newtua/_stream.py:99-108 | A zero-sized read on an open stream raises iff less than the listed size was taken, and moves no byte |
| Liveness.WorkIsBounded | src/lib.rs:479-510 | However scheduled, opening, decoding, fetching and tearing down one stream take at most 13 + 2 x (bytes to decode) steps |
| Liveness.ReaderLoopIsBounded | python/newtua/_stream.py:99-115 | In every run the reads of nonzero size that do not see the end number at most the bytes the engine emits: a reader who goes on until a read sees the end gets there |
| Liveness.NeverStuck | src/lib.rs:479-521 | In every reachable state a stream is at rest, waits for its user, or has a step of its own: no caller is left in the handshake, worker and reader never block each other |
| Liveness.ClosedStreamComesToRest | python/newtua/_stream.py:198-208 | A closed stream with no step left has a worker that is gone and no pipe |
| Liveness.HealthyStreamReachesItsUser | src/lib.rs:482-510 | From any reachable state a stream that has not failed gets, by its own steps alone, to where its user can read or take a finished read |
| Liveness.EveryHealthyStreamCanBeReadWhole | README.md:338-338 | From any reachable state such a stream of a decodable entry can go on to hand over exactly the entry |
| Modes.ReadIsScheduleFree | python/newtua/_archive.py:516-524 | In every run a buffered read gives exactly the next bytes asked for, until the end; the result and verdict are those of the `PipeStream` class over an ideal store |
| Modes.ReadRuns | python/newtua/_stream.py:99-108 | A `read(size)` on an open stream always comes back, by the stream's own steps, with the next bytes and the right verdict, and disturbs no other stream, no file and not the archive |
| Modes.ReadThreeWays | python/newtua/_archive.py:438-476 | For every chunking, schedule and fate of the engine: `read` and the spooled `open` always agree; a drained pipe stream raises exactly when they do iff the entry's size tells the fate; and its bytes are theirs when neither raises |
| Modes.DrainedStream | python/newtua/_stream.py:174-184 | A drained stream raises iff the engine stopped below the listed size, and otherwise gave all that was emitted, whatever error the engine ended with |
| Modes.DisagreementIsReached | src/lib.rs:503-507 | Every entry whose size does not tell the fate has a run in which exactly one of `read` and the drained stream raises |
| Modes.ChecksumErrorIsSilent | src/lib.rs:503-507 | The concrete silent case: a failed checksum after the last byte, or on an entry of listed size 0, is not reported by the drained stream |
| Modes.ShortEntryIsLoud | python/newtua/_stream.py:179-184 | The reverse: an entry that ends well below its listed size makes the drained stream raise |
| Guarantees.MemoryStaysFlat | README.md:314-320 | However large the entry and fast the worker, the bytes decoded and not yet handed over never exceed the largest read plus two pipe capacities |
| AsyncRace.StreamsAreSafeIffClaimsAreInTime | python/newtua/_async.py:183-188 | Over all runs of an undisciplined asyncio front: at every moment every open stream is sure of its file, whatever happens next, iff every stream so far claimed the very file it reads while some claim was still out on it |
| AsyncRace.OrderIsEnough | python/newtua/_async.py:99-106 | Entering every stream while the archive is entered keeps all claims in time and all streams safe, under every interleaving |
| AsyncRace.LateStreamIsCut | python/newtua/_async.py:340-345 | From the start: a context entered after the exit opens a stream without a claim, and another stream's close cuts it short under its reader |
| AsyncRace.RiderIsCut | python/newtua/_async.py:183-188 | From any state with a stream that reads a file only another stream claims, the other's close takes the file away from it |
| AsyncRace.WindowIsReached | python/newtua/_async.py:183-188 | A spilled source and a started open reach the window between lookup and claim |
| AsyncRace.ExitInTheWindowLosesTheFile | python/newtua/_async.py:99-106 | From any state in the window, an exit that does not wait leaves the open with a claim on a deleted file |
| Lookup.EntriesFromRaw | python/newtua/_archive.py:115-140 | One entry for each raw one, in order, with its own path and size and its place as index; a name is in the index exactly if some raw entry bears it, and then leads to the first that does |
| Lookup.ResolveIndex | python/newtua/_archive.py:143-157 | The scan gives the place the reference means: a position from either end, a name's first bearer; the error of a reference that means nothing; and an entry's own index as it is |
| Lookup.PositionsMeanPlaces | python/newtua/_archive.py:143-157 | Every entry is meant by its position from either end and by itself; a position out of range means nothing |
| Lookup.NamesMeanFirstBearers | python/newtua/_archive.py:115-140 | A name that occurs in the listing means its first bearer, one that does not means nothing |
| Lookup.FoundIsMeant | python/newtua/_archive.py:325-339 | Indexing finds the entry the reference means, or fails with its error exactly if it means nothing |
| Lookup.IndexAgreesWithScan | python/newtua/_archive.py:325-339 | For every entry list with duplicates, indexing and resolving mean the same entry or fail alike, negative positions included |
| Lookup.FoundEntryResolvesToItself | python/newtua/_archive.py:434-436 | An entry found by position or name resolves back to the same position |
| Lookup.ShortcutIsExactForPlainPositions | python/newtua/_batch.py:84-93 | The shortcut without a listing equals resolving through it exactly when all positions lie in 0..n-1 |
| Lookup.SelectionIsResolved | python/newtua/_batch.py:84-93 | A resolved selection has for every reference the place it means, in order, or fails with the error of the first that means nothing |
| Lookup.SelectionWithNamesIsResolved | python/newtua/_batch.py:84-93 | A selection of integers alone is passed on as it is; any other is resolved through the listing |
| Lifecycle.LifeKeepsInv | python/newtua/_archive.py:230-306 | After any sequence of calls: entries and name index come together and only with a reader of the current password; a temp file only without a path; closed holds nothing |
| Lifecycle.ClosedForGood | python/newtua/_archive.py:274-277 | After a close, whatever is called, every opening access raises and changes nothing |
| Lifecycle.AccessAnswers | python/newtua/_archive.py:274-297 | The reader there is, nothing changed; without one, success exactly if there is a file and the engine lists it, else the missing file or the engine's own error; a closed object refuses |
| Lifecycle.ListingAnswers | python/newtua/_archive.py:299-306 | Listing answers with the entries of the very reader opening answers with, and fails as opening does |
| Lifecycle.SameReaderUntilReset | python/newtua/_archive.py:274-306 | Once an access has succeeded, every access up to the next close or new password answers with the same reader and every listing with its entries, whatever becomes of the file |
| Lifecycle.OpensWithTheLastPassword | python/newtua/_archive.py:390-397 | After any sequence of calls, a reader that an access answers with was listed by the engine under the password last set |
| Lifecycle.BackingIsTheSource | python/newtua/_archive.py:252-297 | The backing file equals the source always for bytes, and for a file object exactly until the engine first refuses it |
| Lifecycle.RefusedFileObjectIsLost | python/newtua/_archive.py:290-297 | The concrete case: one refused access of a file object of one byte, and an empty file stands behind the archive |
| Lifecycle.RetryReusesTheSpill | python/newtua/_archive.py:258-263 | A password change keeps the spilled file, and the next open uses it |
| Calls.OpenRuns | python/newtua/_archive.py:488-524 | A successful streaming open is the run pipe, claim, worker, grant, and leaves one more stream with both ends, its own claim and nothing else changed |
| Calls.FailRuns | python/newtua/_archive.py:500-512 | A refused open, or one whose worker dies in the handshake, is a run that ends with the pipe closed and the claim given back, on both platforms: files and descriptors are what they were |
| Calls.CloseRuns | python/newtua/_stream.py:198-208 | Closing a stream is the run that closes the read end, gives the claim back and, if it was the last, deletes the file |
| Calls.ReleaseRuns | python/newtua/_archive.py:606-616 | The archive's release is the locked decrement and, if it was the last claim, the delete |
| Programs.Play | python/newtua/_archive.py:274-524 | Whatever calls a program makes on an archive and its streams, with whatever answers of the engine: each call returns, and the objects end up, exactly as the function of the calls has it; and all of it is a run of the system from its start. What the function comes to is said by the next six rows |
| Programs.StreamsGiveTheirBytes | python/newtua/_archive.py:488-524 | Whatever is called after a stream was opened, the archive's close, password changes, failing opens and other streams included, it goes on giving its own bytes, each once and in order, until it is closed |
| Programs.ReadersGetTheirEntry | python/newtua/_archive.py:447-524 | In any program: a stream that an `open` returned is of the entry its reference means in what the engine lists; what its reads return, joined in order, is a prefix of what the engine emits of that entry, and all of it once the stream is drained and no read has raised |
| Programs.ReadsReturnWhatWasGiven | python/newtua/_stream.py:99-108 | In any program the replies of one stream's successful reads, joined in order, are all it gave, but for what a read that raised at the end withheld |
| Programs.AccessesAgree | python/newtua/_archive.py:274-306 | In any program: after an access that succeeded, every access up to the next close or new password gets the same reader, and every listing its entries |
| Programs.EachCallHasItsAnswer | python/newtua/_archive.py:274-524 | In any program each call is answered for what it asks: opening, listing and `open` out of the life the earlier calls make; a read by the closed error exactly if its stream is closed; a close shuts its stream and loses nothing of it |
| Programs.OpenAnswers | python/newtua/_archive.py:447-486 | `open(stream=True)` comes to the error of opening, the error of a reference that means nothing, what the platform cannot do, the engine's refusal, or the stream of the very entry meant, all it emits ahead |
| Sessions.Session.OpenStream | python/newtua/_archive.py:447-476 | `open(stream=True)` on the objects returns the listing's error, the lookup's, the platform's, the engine's refusal, or a new stream that has ahead of it the listed size and all the engine emits of the entry the reference means; and is a run of the system in each case |
| Sessions.Session.ReadStream | python/newtua/_stream.py:99-108 | A read of the stream object takes the next bytes asked for and returns exactly those; it raises iff it was to the end or got nothing and less than the listed size came so far, with both counts; it is a run of the system whose log grows by that very read |
| Sessions.Session.CloseStream | python/newtua/_stream.py:198-208 | A close of the stream object is a run of the system |
| Sessions.Session.Close | python/newtua/_archive.py:606-616 | A close of the archive object is a run of the system, with any number of streams open |
| Sessions.ClosedSessionLeavesNothing | python/newtua/_archive.py:606-616 | When archive and streams are closed, every temp file object ever made is deleted, once, and Python owns no descriptor |
| Sessions.OpenStreamHasItsFile | python/newtua/_archive.py:45-59 | A stream object that is open and holds a claim has its temp file on disk, whatever became of the archive |
| AsyncSessions.AsyncSession.Enter | python/newtua/_async.py:71-97 | A first entering of the asyncio objects is a run of the system: spilled, path set, and on a failure closed and deleted again |
| AsyncSessions.AsyncSession.EnterStream | python/newtua/_async.py:174-205 | Entering a context, before the exit or after it, is a run of the system; a stream comes with the listed size, all its bytes ahead, and the claim that was left to share, if any |
| AsyncSessions.AsyncSession.OpenStreamIsSafeIff | python/newtua/_async.py:183-188 | Between any calls, an open stream object is sure of its file, whatever any thread does next, iff it got a claim when it was entered or reads the user's own file |
| AsyncSessions.LateEntry | python/newtua/_async.py:340-345 | The objects of two contexts entered on either side of the exit: after the first is closed, the second is open and its file is gone |
| ArchiveObject.Archive.BackingPath | python/newtua/_archive.py:252-272 | Reuses the spilled file or spills the source into a fresh one claimed once, closed or not |
| ArchiveObject.Archive.Open | python/newtua/_archive.py:274-297 | Answers with the reader there is and changes nothing; else opens the file behind once with the current password, or fails with the missing file or the engine's own error and gives the claim back; a closed one refuses |
| ArchiveObject.Archive.Listing | python/newtua/_archive.py:299-306 | The entries of the reader, which stays the one that is open; fills both caches together, so the source's assertions cannot fire |
| ArchiveObject.Archive.GetItem | python/newtua/_archive.py:325-339 | Lists first, then gives the first raw entry of that name, or that of the position, in what the engine listed, and an error exactly if there is none |
| ArchiveObject.Archive.SetPassword | python/newtua/_archive.py:390-397 | Drops reader and caches, keeps the spilled file |
| ArchiveObject.Archive.Close | python/newtua/_archive.py:606-616 | Empties the object and gives its one claim back |
| ArchiveObject.Archive.Locate | python/newtua/_archive.py:464-468 | Lists, resolves and bounds-checks: the place and listed size of the entry the reference means, the error of one that means nothing, or that of opening |
| ArchiveObject.TargetIsTheItem | python/newtua/_archive.py:464-468 | `open(ref, stream=True)` and `archive[ref]` are about the same entry, with its own index and size, or fail alike; for an entry object it is its index, or an IndexError out of range |
| ArchiveObject.Archive.OpenPipe | python/newtua/_archive.py:478-486 | A stream carries claim, size, descriptor and bytes; a failure leaves claims and descriptors as they were; no temp-file source on Windows |
| ArchiveObject.Archive.OpenPipePosix | python/newtua/_archive.py:488-524 | Pipe, claim, handshake; on a refusal both ends are closed and the claim goes back; on success the write end is handed over and the read end belongs to the stream |
| ArchiveObject.Archive.OpenPipeWindows | python/newtua/_archive.py:526-559 | Path sources only; nothing to close on a refusal; on success the read end is adopted, without a claim |
| ArchiveObject.Archive.OpenStream | python/newtua/_archive.py:447-476 | A stream that opens has the listed size of an entry the reference means, the read end and one more claim on the temp file; a failed open leaves counts and descriptors as they were |
| AsyncFront.AsyncArchive.Enter | python/newtua/_async.py:71-97 | Succeeds exactly if there is a file behind and the engine lists it, closed or not, with one entry for each raw one, and fails with the missing file or the engine's error; a failure gives the temp file back; success or failure, a front not exited counts as ready |
| AsyncFront.EnteringIsListing | python/newtua/_async.py:71-97 | For an archive not closed, entering comes to what the synchronous listing would |
| AsyncFront.OpenAfterFirstEnter | python/newtua/_async.py:161-172 | After a first entering, which fails exactly when the engine does not list the file, every `open` fails with the lookup error of its reference and no other; after one that succeeded it gives the context of the very entry meant in that listing, or the error of a reference that means nothing |
| AsyncFront.AsyncArchive.Exit | python/newtua/_async.py:99-110 | Closes the synchronous archive; opening is refused afterwards, cached lookups are not |
| AsyncFront.AsyncArchive.Open | python/newtua/_async.py:161-172 | Refuses unless ready; otherwise the position and size of the very entry the reference means, or the error of one that means nothing; nothing is opened yet |
| AsyncFront.ContextIsMeant | python/newtua/_async.py:161-172 | A context is for the very entry that the lookup of the same reference finds, or fails as that does |
| AsyncFront.AsyncArchive.EnterStream | python/newtua/_async.py:174-226 | Does not ask whether the front is still ready: it opens after an exit as before, and then holds no claim; otherwise one more claim on the temp file for a stream that opens, none for one that fails |
| AsyncFront.LookupsCoincide | python/newtua/_async.py:126-143 | Two objects of one source, one entered as asyncio front and one synchronous: entering succeeds exactly when listing does; then every lookup and every `open` answers with the same entry of those, the one its reference means, the same on both, errors included |
| Sinks.PySink.Write | src/lib.rs:226-253 | The accepted count never exceeds the chunk; a sink's exception is kept |
| Sinks.CountsInRangeAreBelieved | src/lib.rs:243-250 | A count within the chunk is taken as reported and so much is kept; a count out of range, or none, stands for the whole chunk |
| Sinks.PySink.WriteAll | src/lib.rs:226-253 | Under a write-all loop the slice stays in bounds and the loop ends whatever the sink reports; a sink that keeps what it reports ends with the buffer, or a proper prefix and an error |
| Sinks.WriteEntryTo | src/lib.rs:334-343 | The result is the sink's own exception if it raised, else the write-zero error if it stalled, else the engine's own fate; a truthful sink that did neither has the entry once and in order, and otherwise a prefix of it |
| Sinks.ReadEntry | src/lib.rs:319-326 | The whole entry in memory, or the engine's error and none of it |
| EntryStreams.FromWriter | python/newtua/_stream.py:53-70 | The buffered stream comes back exactly when the engine finishes, and holds the whole entry |
| EntryStreams.EntryStream.Read | python/newtua/_stream.py:86-108 | A buffered read gives the next bytes; a closed stream raises |
| EntryStreams.PipeStream.Read | python/newtua/_stream.py:86-108 | The read takes the next bytes asked for, the tally follows; it returns exactly those, or raises with both counts iff it was to the end, or got nothing, and less than the listed size came so far; a closed stream raises |
| EntryStreams.PipeStream.ReadInto | python/newtua/_stream.py:110-115 | The same for a buffer, which may be filled in part |
| EntryStreams.PipeStream.Close | python/newtua/_stream.py:198-208 | Closes the descriptor once, and gives the claim back on every call that finds the stream open, and on no other |
| EntryStreams.ClaimIsReleasedOnceIff | python/newtua/_stream.py:198-208 | A series of closes gives the claim back exactly once iff the first is the only one or does not raise |
| EntryStreams.CloseAgainAndAgain | python/newtua/_stream.py:198-208 | The class gives the claim back that often, and its descriptor once if any close goes through |
| EntryStreams.NextChunk | python/newtua/_async.py:306-310 | One chunk, or the end; the end of a short stream is an error |
| EntryStreams.Iterate | python/newtua/_async.py:303-310 | Iteration ends with chunks that add up to all there was, in error exactly when they fall short of the listed size |
| Batch.TypingIsIdempotent | python/newtua/_batch.py:304-317 | Typing an error twice is typing it once |
| Batch.EngineErrorsAreTyped | python/newtua/_batch.py:304-317 | An error with a kind leaves as the class of that kind, or the common base for an unknown one, and carries none; any other leaves as it came |
| Batch.RunBackend | python/newtua/_batch.py:172-198 | For every cancel and completion order: the indices collected are, once each, exactly those before the cancel, each with its own outcome; it breaks out iff one of those is fatal, with such an error |
| Batch.BreaksOutIffFatal | python/newtua/_batch.py:192-198 | A run breaks out exactly when a submitted task was fatal |
| Batch.ExtractMany | python/newtua/_batch.py:201-242 | The list is exactly the jobs before the cancel, in job order, each with its own report or typed error; the callbacks are exactly those due to them, in completion order, at most one a job; bad arguments are refused before anything is submitted |
| Batch.CallsFollowCompletion | python/newtua/_batch.py:231-241 | With both handlers there is one call for each job, its own, in the order of completion |
| Batch.CallbacksDoNotDependOnTheSchedule | python/newtua/_batch.py:235-242 | Any two schedules make the same callbacks, each as often |

## Left out

- The engine (format detection, decoding, encodings, path safety, extraction): not part of this repository; a parameter here.
- A worker that panics in the middle of decoding counts as the engine breaking off there.
- Failures of `os.pipe`, `os.fdopen`, of writing the spill, and signals that arrive between two bytecodes: calls into the operating system.
- Garbage collection of an archive or stream that nobody closed, and temp files deleted by other programs.
- A user's own file changing while its archive is open: a path source is taken to stay as it is.
- Programs.Play: calls from several threads at once (the system model has their interleavings, the objects do not), `readinto`, and a close that raises.
- AsyncSessions.AsyncSession.Enter: a first entering only, and no reads of the streams of an undisciplined front; what interleaves between threads is in `AsyncRace`.
- EntryStreams.PipeStream.Close: two threads closing the same stream at the same moment, which could both find it open; the system model gives each stream one user.
- EntryStreams.EntryStream.Read: `seek` and `tell` of the buffered stream, and the spill threshold of its store.
- AsyncFront.AsyncArchive.Enter: cancellation in the middle of entering.
- Lookup.ResolveIndex: path normalisation; names are taken as already normalised, and `True`/`False` as integers are not considered.
- Batch.RunBackend: the executors themselves (threads, processes, gevent) are taken to resolve each submitted future once; callbacks are taken to return.
- Lifecycle.BackingIsTheSource: a path source, whose backing is the user's file by definition.
- Slices, `repr`, formats, timestamps, progress events and wrapper names: presentation and finite tables.
