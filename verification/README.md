# NOX client server: a verified model

A Dafny model of the Go server under `client_backend/internal`, with proofs of what its
design promises: what a crash cannot do to an upload, who can ever become a paired device,
why no event is lost between the log and a device, and why its lists, maps, timers and
formats agree. `dafny verify dfyconfig.toml` checks all of it.

| file | component |
|---|---|
| `Common.dfy` | optional values, bytes, big-endian integers |
| `BlobFormat.dfy` | the sealed file: chunks of 64 KiB under an AEAD, header, lengths |
| `BlobDisk.dfy` | part, record and file on a disk that may crash; what Received may report |
| `BlobUpload.dfy` | an upload: Write, Checkpoint, Suspend, Rollback, Finalize, Abort, Resume |
| `BlobRuns.dfy` | any run of requests on one file, a crash after any file operation |
| `BlobReader.dfy` | the seeking reader against the plain bytes |
| `PairingDb.dfy` | the pairing tables and every transaction as a function on them |
| `PairingInvariant.dfy` | the joint invariant and what keeps it |
| `PairingEffects.dfy` | what each transaction leaves in the tables and answers, field by field |
| `PairingRuns.dfy` | claims over whole runs: provenance of devices, outcomes, revocation, page loads |
| `PairingStore.dfy` | the transactions as the store runs them, proved against their functions |
| `ChatLog.dfy` | chats, messages, files and the event log that folds to them |
| `Envelopes.dfy` | the two shapes an event is delivered in |
| `Paging.dfy` | pages of a history and of the chat list |
| `Delivery.dfy` | commits, dispatcher, hub and connections, step by step |
| `Holds.dfy` | places, waits and deadlines of connections nobody paired |
| `WaitProtocol.dfy`, `TransferProtocol.dfy`, `AskProtocol.dfy` | register, then check again, against write, then scan |
| `Admission.dfy` | the channel's entry |
| `UploadAccess.dfy` | transfer tokens, the registry of writers, requests side by side |
| `UploadDesk.dfy` | one file's disk and the upload under way on it |
| `UploadServer.dfy` | tokens, writers, requests, rows and a file's disk together, with power cuts |
| `Addresses.dfy` | the address list on its way to the devices |
| `PairingLink.dfy` | the pairing link's payload |
| `Backup.dfy` | the backup archive and its MAC |
| `BackupLimit.dfy` | how many attachments a backup can carry and be read again |

## Reading the model

- **Laws beside functions.** A transaction or step is a function on values, and what it must do is
  said again without that function: field by field (`PairingEffects`, `ChatLog.SentFirst`), by
  position (`BlobReader.Answers`, `Paging.PageIsTheNewestBelow`), by bytes (`PairingLink.MeaningByBytes`),
  or over histories (`Delivery.CursorIsTheLog`).
- **Form.** Objects the server updates in place are classes whose methods are proved
  against functions on values; concurrent code is a state machine whose steps are the
  critical sections, single transactions and channel operations of the source, and whose
  theorems are about every sequence of steps. A step that cannot be taken changes nothing.
- **Disk.** The disk keeps the state after each file operation. A crash picks any of those
  moments, and the bytes not flushed by then are gone or arbitrary. A flush, a rename and a
  removal that returned hold, but a rename moves the name alone: bytes not flushed before it
  are as volatile after. A record that could not be written is the old one. The record
  file's temporary copy is left out, since nothing reads it. Reads from a disk succeed. The
  disk counts the operations that failed, so a contract can say what happens when none did.
- **Ideal functions.** The AEAD opens exactly what was sealed under the same key, nonce,
  associated data and bytes (section 2.8 of RFC 8439), where two nonces or data are told apart
  among those a file's chunks use; the MAC, JSON, UTF-8, case folding
  and the one-line preview are parameters with the laws the proofs name.
- **Time and chance.** `now` is an arbitrary argument. Random ids are arguments; one that is
  taken breaks a primary key and the transaction rolls back.
- **Store.** Every transaction is one atomic step, as the single writer makes it
  (`client_backend/internal/store/store.go:49-51`); uniqueness rules and foreign keys are
  those of `client_backend/migrations/001_init.sql`.
- **Upload.Write** is called only while no earlier write of the request failed: the server
  rolls back or aborts after one (`client_backend/internal/server/files.go:410-418`).
- **Delivery.** Sequence numbers are 1, 2, 3, ..., which `ChatLog.Store.AnyRun` shows. A greeting
  comes after the dispatcher has read its starting cursor. A write begun after its context
  was cancelled sends nothing. A device counts from the `since` it sent, or from the reply's
  cursor when it sent none, and drops what is not above the highest it has seen.
- **Upload server.** The disk of one file, any one, is modelled beside the tables of all; what the
  other files' disks answer is left open, so what is proved holds for every file.

## Where code and documentation differ

- `Reader.Read` comes back short at a chunk boundary (`client_backend/internal/blob/blob.go:536-549`),
  so one read is not literally a read of the plain bytes. `BlobReader.ReadAgreesIff` gives the exact
  condition, `BlobReader.ShortReadExample` an input, and `BlobReader.Replay` what callers that read on get.
- A backup with enough attachments has a manifest beyond the 16 MiB a restore reads, and
  writing does not check it (`client_backend/internal/backup/backup.go:59-60`, 241-248). `Backup.WrittenIsRestorable`
  gives the exact condition, `BackupLimit.TooManyAttachments` the failing family.
- A request that closes while it is being announced can leave a dialog open: the greeting's asks
  are followed by a second look (`client_backend/internal/server/requests.go:178-205`), the
  announcement's are not (`client_backend/internal/server/requests.go:114-123`). `AskProtocol.OnlyLateAsksStayOpen` gives the exact
  condition, `AskProtocol.LateAsk` the run.

## Model

| member | source | states |
|---|---|---|
| `BlobFormat.ChunkCipherIsIdeal` | client_backend/internal/blob/blob.go:110-139 | built on an ideal AEAD, the chunk cipher adds one tag, opens what it sealed and nothing else, and opens no chunk in another place or with the other end |
| `BlobFormat.OpensInItsPlaceOnly` | client_backend/internal/blob/blob.go:130-139 | a sealed chunk opens exactly under the number and last-flag it was sealed with |
| `BlobFormat.IdealExists` | client_backend/internal/blob/blob.go:110-139 | the laws taken for the AEAD can be had together |
| `BlobFormat.ChunksAreBoundToTheirPlace` | client_backend/internal/blob/blob.go:124-139 | nonces differ exactly when chunk numbers do; associated data differ exactly when number or last-flag does |
| `BlobFormat.HeaderBytes` | client_backend/internal/blob/blob.go:143-157 | the header's bytes: magic, version, chunk size in big-endian, a zero reserve |
| `BlobFormat.NonceAndDataBytes` | client_backend/internal/blob/blob.go:124-139 | the nonce is four zero bytes and the chunk number, the bound data the number and the last-flag |
| `BlobFormat.PlainLenOfCipherLen` | client_backend/internal/blob/blob.go:160-180 | reading the plain length off a sealed length undoes sealing |
| `BlobFormat.CipherLenOfPlainLen` | client_backend/internal/blob/blob.go:160-180 | the plain length of a part leaves out at most one tag's worth of torn bytes |
| `BlobFormat.CipherLenMonotone` | client_backend/internal/blob/blob.go:160-166 | more plain bytes always take more sealed bytes |
| `BlobFormat.HoldsAtLeast` | client_backend/internal/blob/blob.go:160-180 | a part holds `p` plain bytes exactly when it is at least as long as `p` sealed |
| `BlobFormat.EncodeLength` | client_backend/internal/blob/blob.go:160-166 | a sealed file is exactly as long as its declared size says |
| `BlobFormat.EncodeAppend` | client_backend/internal/blob/blob.go:351-361 | sealing one more chunk appends to the sealed file and changes nothing before it |
| `BlobFormat.EncodePrefix` | client_backend/internal/blob/blob.go:415-436 | cutting the plain bytes at a boundary cuts the sealed file at the matching place |
| `BlobFormat.ChunkAt` | client_backend/internal/blob/blob.go:552-567 | the chunk at its offset in a sealed file is the sealing of exactly the plain bytes of that chunk |
| `BlobFormat.SizeFromLength` | client_backend/internal/blob/blob.go:609-619 | the length of a file on disk gives a plain size back exactly when it is the sealed length of that size |
| `BlobDisk.Durable` | client_backend/internal/blob/blob.go:320-325 | never more than was recorded or than is held, and a chunk boundary unless both agree |
| `BlobDisk.StableThroughCrash` | client_backend/internal/blob/blob.go:282-325 | bytes on stable storage are there after any crash |
| `BlobDisk.SafeThroughCrash` | client_backend/internal/blob/blob.go:669-690 | a record that vouches only for stable bytes does so after any crash |
| `BlobDisk.StableBelow` | client_backend/internal/blob/blob.go:415-436 | a stable length stays stable when cut to a chunk boundary |
| `BlobDisk.ReceivedIsStable` | client_backend/internal/blob/blob.go:291-313 | what Received reports is sealed on stable storage, and is a chunk boundary or the whole file |
| `BlobDisk.ReceivedReachesTheRecord` | client_backend/internal/blob/blob.go:291-325 | Received reports all the record vouches for exactly when the record is a multiple of the chunk or the part holds just that much; otherwise the bytes past the last whole chunk are sent again |
| `BlobDisk.NoCrashOverstates` | client_backend/internal/blob/blob.go:291-325 | after a crash at any moment Received still reports only bytes really there |
| `BlobDisk.FinishedThroughCrash` | client_backend/internal/blob/blob.go:438-448 | a finished file, flushed before its rename, is itself after every crash |
| `BlobDisk.Disk.OpenPart` | client_backend/internal/blob/blob.go:220-280 | opening the part creates it empty when it is missing |
| `BlobDisk.Disk.Truncate` | client_backend/internal/blob/blob.go:415-436 | a truncation cuts the part and what of it was flushed |
| `BlobDisk.Disk.Append` | client_backend/internal/blob/blob.go:351-361 | a failed write may leave some of its bytes behind what was there |
| `BlobDisk.Disk.Sync` | client_backend/internal/blob/blob.go:384-396 | only a flush that returned makes the part stable |
| `BlobDisk.Disk.WriteSynced` | client_backend/internal/blob/blob.go:669-690 | the record is replaced whole or stays |
| `BlobDisk.Disk.RenameIntoPlace` | client_backend/internal/blob/blob.go:438-470 | the part gets the finished name in one step, and is as volatile under it as it was |
| `BlobDisk.Disk.Crash` | client_backend/internal/blob/blob.go:282-313 | after a crash in any earlier moment the disk is one the record does not overstate |
| `BlobUpload.Upload.SealTail` | client_backend/internal/blob/blob.go:351-361 | the part stays the sealing of the delivered chunks; a failed write loses nothing sealed before |
| `BlobUpload.Upload.Write` | client_backend/internal/blob/blob.go:330-348 | takes bytes up to the declared size, however they are split, and says how many; the file on disk never vouches for more |
| `BlobUpload.Upload.Checkpoint` | client_backend/internal/blob/blob.go:384-396 | after success the record is at everything sealed; after failure where it was |
| `BlobUpload.Upload.Suspend` | client_backend/internal/blob/blob.go:401-408 | leaves a part the next request can continue: without a fault, everything sealed is what Received reports |
| `BlobUpload.Upload.Rollback` | client_backend/internal/blob/blob.go:415-436 | cuts the part to the offset, the record first, so no crash finds it vouching for bytes cut away |
| `BlobUpload.Upload.LowerRecord` | client_backend/internal/blob/blob.go:415-436 | the record goes below the cut before the cut |
| `BlobUpload.Upload.Finalize` | client_backend/internal/blob/blob.go:438-470 | incomplete exactly when bytes are missing, failed exactly when the disk was; otherwise the file is exactly the header and the sealed chunks of what was delivered, wholly on stable storage, part and record gone; every moment of it survives a crash |
| `BlobUpload.Upload.Abort` | client_backend/internal/blob/blob.go:474-480 | throws the part away, record too unless the disk failed, and touches nothing finished |
| `BlobUpload.Resume` | client_backend/internal/blob/blob.go:220-280 | which requests are out of range, which find a short part, which fail by the disk alone, and that a resumed upload stands at its offset with the content before it kept |
| `BlobUpload.StartPart` | client_backend/internal/blob/blob.go:220-280 | a part started over holds the header alone |
| `BlobUpload.CutPart` | client_backend/internal/blob/blob.go:220-280 | a part continued is cut to the sealed length of its offset |
| `BlobRuns.Step` | client_backend/internal/server/files.go:345-447 | one step of any upload request keeps every moment of the disk safe |
| `BlobRuns.AnyRun` | client_backend/internal/server/files.go:345-447 | in every run of requests with a crash allowed between any two file operations Received never overstates, and a finished file is after any crash just as it was: wholly on stable storage and exactly the sealing of the declared bytes |
| `BlobRuns.Turn` | client_backend/internal/server/files.go:345-447 | one request from what Received reports to a cut: on a disk without faults everything sealed counts for the next |
| `BlobRuns.WholeUpload` | client_backend/internal/server/files.go:345-447 | an upload cut any number of times and continued each time from what Received reports ends, on a disk without faults, in the sealing of exactly its bytes |
| `BlobReader.SealedChunkOpens` | client_backend/internal/blob/blob.go:552-567 | every chunk of a sealed file opens to its plain bytes |
| `BlobReader.OpenedIsWhatLiesThere` | client_backend/internal/blob/blob.go:552-567 | a chunk that opens is served as the one plaintext whose sealing, at that place, is what lies there |
| `BlobReader.ServedInItsPlaceOnly` | client_backend/internal/blob/blob.go:130-139 | a chunk this cipher sealed is served at a place exactly when it was sealed for that place and that end |
| `BlobReader.OutOfPlaceIsCorrupt` | client_backend/internal/blob/blob.go:536-567 | every read that falls in a chunk out of its place reports the file corrupt |
| `BlobReader.SwappedChunksAreCorrupt` | client_backend/internal/blob/blob.go:130-131 | two whole chunks that changed places: a read in either reports the file corrupt |
| `BlobReader.CutFileIsCorrupt` | client_backend/internal/blob/blob.go:130-131 | a file cut short at a chunk boundary, its size claimed to match: a read in its last chunk reports it corrupt |
| `BlobReader.ReadMoved` | client_backend/internal/blob/blob.go:500-588 | a reader over a file with two chunks swapped, under the cipher files are sealed with, answers corrupt |
| `BlobReader.Reader.Load` | client_backend/internal/blob/blob.go:552-567 | loads a chunk exactly when it opens |
| `BlobReader.Reader.Read` | client_backend/internal/blob/blob.go:536-549 | reads within one chunk from the position, and moves by what it read |
| `BlobReader.Reader.Seek` | client_backend/internal/blob/blob.go:571-588 | from the start, the position or the end, to exactly the place asked for; a place before the start leaves the position where it was |
| `BlobReader.Reader.ReadFull` | client_backend/internal/blob/blob.go:536-549 | read on until enough, the bytes are the plain bytes at the position |
| `BlobReader.SealedReadIsPlain` | client_backend/internal/blob/blob.go:536-549 | one read gives the plain bytes up to the end of its chunk |
| `BlobReader.ReadAgreesIff` | client_backend/internal/blob/blob.go:536-549 | one read equals a read of the plain bytes exactly when it does not cross a chunk boundary |
| `BlobReader.ShortReadExample` | client_backend/internal/blob/blob.go:536-549 | a read across a boundary comes back short |
| `BlobReader.Open` | client_backend/internal/blob/blob.go:500-533 | opens exactly the files whose length and header are a sealed file's of that size |
| `BlobReader.SealedFileHasItsHeader` | client_backend/internal/blob/blob.go:143-157 | what sealing writes, opening accepts |
| `BlobReader.Replay` | client_backend/internal/blob/blob.go:500-588 | any sequence of seeks and full reads: each seek answers its place by whence, each read the plain bytes at the position it finds, and a refused seek moves nothing |
| `BlobReader.ServedAsAsked` | client_backend/internal/blob/blob.go:571-588 | after any operations, a seek to the end answers the size, and a seek to a place from the start and a read answer that place and the plain bytes there |
| `PairingInvariant.CloseAllKeeps` | client_backend/internal/store/requests.go:197-218 | closing requests other than by Allow, and spending their invites, keeps the joint invariant |
| `PairingInvariant.MachineLinkKeeps` | client_backend/internal/store/pairing.go:63-100 | issuing a machine link keeps it, with at most one unspent |
| `PairingInvariant.InviteKeeps` | client_backend/internal/store/pairing.go:197-217 | issuing an invite keeps it |
| `PairingInvariant.SolePersonIsThePerson` | client_backend/internal/store/pairing.go:484-509 | the person a machine link resolves to is the one there is, or a new one when there is nobody |
| `PairingInvariant.JoinKeeps` | client_backend/internal/store/pairing.go:332-366 | pairing by machine link keeps it |
| `PairingInvariant.OpenKeeps` | client_backend/internal/store/requests.go:92-146 | opening a request keeps it |
| `PairingInvariant.PairKeeps` | client_backend/internal/store/pairing.go:293-323 | any presentation of any token keeps it |
| `PairingInvariant.AllowKeeps` | client_backend/internal/store/requests.go:240-310 | an Allow keeps it |
| `PairingInvariant.AllowInTimeSucceeds` | client_backend/internal/store/requests.go:240-310 | an in-time Allow from the issuer of a waiting request succeeds: the token is unspent, the issuer paired, the key free or the person's own |
| `PairingInvariant.RevokedToken` | client_backend/internal/store/devices.go:93-159 | what a revocation makes of each token |
| `PairingInvariant.RevokedRequest` | client_backend/internal/store/devices.go:93-159 | what a revocation makes of each request |
| `PairingInvariant.RevokedKeeps` | client_backend/internal/store/devices.go:93-159 | a revocation keeps the joint invariant |
| `PairingInvariant.ResolveKeeps` | client_backend/internal/store/identity.go:61-91 | a greeting keeps it |
| `PairingEffects.WhoMayAnswer` | client_backend/internal/store/requests.go:240-264 | an answer is taken exactly from the issuer of a request still waiting and in time; which error anybody else gets |
| `PairingEffects.DenyInTimeCloses` | client_backend/internal/store/requests.go:265-272 | a Deny answers its request as denied now, spends its invite by the key that asked and for nobody, and changes nothing else |
| `PairingEffects.AllowInTimeLetsIn` | client_backend/internal/store/requests.go:273-310 | an Allow makes the key a device of the issuer's person, spends the invite by it for that person, answers the request, and changes nothing else |
| `PairingEffects.WithdrawalCloses` | client_backend/internal/store/requests.go:321-346 | the key that asked withdraws what still waits: cancelled in time, expired after; anything else of a withdrawal changes nothing |
| `PairingEffects.PresentedAgain` | client_backend/internal/store/requests.go:154-186 | an invite presented again, by whose it is and how its request stands: refused, waiting, run out and closed as expired, paired, or the outcome |
| `PairingEffects.FirstPresentation` | client_backend/internal/store/requests.go:92-146 | an invite nobody presented: spent, run out or a taken id refuse it; otherwise a request with the invite's issuer and deadline, and nothing else |
| `PairingEffects.SpentLinkPresented` | client_backend/internal/store/pairing.go:332-350 | a machine link run out is expired; a spent one answers again the device it paired while that is still the person's, and nobody else |
| `PairingEffects.LiveLinkPairs` | client_backend/internal/store/pairing.go:332-366 | a live machine link always pairs: the one person or a new one when there is nobody, the device, and the link spent by it for that person |
| `PairingEffects.MachineLinkIssued` | client_backend/internal/store/pairing.go:63-100 | a new link lives ten minutes, every other unspent one is voided now, and nothing else changes |
| `PairingEffects.PageShown` | client_backend/internal/store/pairing.go:127-183 | the page shows the unspent machine link, or none while a device is paired, and mints one otherwise |
| `PairingEffects.InviteIssued` | client_backend/internal/store/pairing.go:197-217 | an invite is for the issuer's person, of a paired device only, and lives ten minutes |
| `PairingEffects.OverdueExpire` | client_backend/internal/store/requests.go:387-420 | exactly the overdue requests expire now, their invites spent by the keys that asked; nothing else changes |
| `PairingEffects.RevocationAnswers` | client_backend/internal/store/devices.go:93-121 | who may revoke, what is answered, and that exactly the device's row goes |
| `PairingEffects.RevocationEndsRequests` | client_backend/internal/store/requests.go:422-452 | requests the device takes part in end as denied, or as expired when overdue; the others stay |
| `PairingEffects.RevocationEndsTokens` | client_backend/internal/store/devices.go:122-159 | which tokens a revocation spends, by whom, which it voids, and that it leaves the others alone |
| `PairingEffects.TheRest` | client_backend/internal/store/identity.go:61-91 | a greeting changes when the device was seen, a new label the person's name, a rekey everything but the person |
| `PairingRuns.AfterKeeps` | client_backend/internal/store/requests.go:92-218 | every transaction keeps it |
| `PairingRuns.ReachableIsJoint` | client_backend/internal/store/requests.go:92-218 | in every state of every run: a waiting request has an unspent token, a paired issuer and its token's issuer and deadline; a closed one a spent token; one request per token; one machine link; one person |
| `PairingRuns.SpentStaysSpent` | client_backend/internal/store/pairing.go:374-388 | a spent token's row never changes again until a rekey |
| `PairingRuns.OutcomeStands` | client_backend/internal/store/requests.go:197-218 | an outcome once set never changes |
| `PairingRuns.OutcomeStandsForGood` | client_backend/internal/store/requests.go:197-218 | over whole runs |
| `PairingRuns.OnlyTwoWaysIn` | client_backend/internal/store/pairing.go:293-413 | a device row appears only by spending a then unspent, unexpired machine link, or by an Allow of the still-paired issuer on a request that very key opened |
| `PairingRuns.DeviceProvenance` | client_backend/internal/store/pairing.go:293-413 | every device of every reachable state has that transaction in its past and has been there since |
| `PairingRuns.DevicesBelongToThePerson` | client_backend/internal/store/pairing.go:484-509 | every device belongs to the one person |
| `PairingRuns.PersonStays` | client_backend/internal/store/pairing.go:484-509 | the person, once there, is never replaced nor joined by another |
| `PairingRuns.RequestIdentity` | client_backend/internal/store/requests.go:92-146 | a request keeps all but its outcome; a new one was opened, in time, by the key it names |
| `PairingRuns.RequestProvenance` | client_backend/internal/store/requests.go:92-146 | every request was opened by its own key's presentation and has been there since |
| `PairingRuns.UnspentSinceOrMinted` | client_backend/internal/store/pairing.go:374-388 | a token unspent now was unspent at the start or minted since |
| `PairingRuns.ReturnNeedsAToken` | client_backend/internal/store/devices.go:93-159 | a key that is not paired comes back only through a token unspent then or minted later |
| `PairingRuns.WaitingSinceOrOpened` | client_backend/internal/store/requests.go:92-146 | a request waiting now waited at the start or was opened since by its own key |
| `PairingRuns.ReturnNeedsAPresentation` | client_backend/internal/store/requests.go:422-452 | a revoked device comes back only by presenting a token anew, never through an Allow on a request it opened before |
| `PairingRuns.RevocationClosesEveryDoor` | client_backend/internal/store/devices.go:93-159 | a revocation leaves the key no device row, no waiting request on either side and no unspent invite |
| `PairingRuns.PageShowsTheLink` | client_backend/internal/store/pairing.go:166-183 | the page shows the one unspent machine link |
| `PairingRuns.PageLoadsAgree` | client_backend/internal/store/pairing.go:127-183 | two page loads with nothing between show the same link, expired or not |
| `PairingRuns.PageLoadIsOneStep` | client_backend/internal/store/pairing.go:127-161 | whatever ran between its halves, a page load is the one transaction at one of its two moments |
| `PairingRuns.RacingLoadsAgree` | client_backend/internal/store/pairing.go:143-160 | two loads racing show the same link and mint once |
| `PairingRuns.LastDeviceGoneShowsALiveLink` | client_backend/internal/store/devices.go:139-154 | after the last device is revoked, a page load at that moment shows a live link |
| `PairingStore.OneMoreClosed` | client_backend/internal/store/requests.go:431-452 | closing requests one by one, in any order, is closing them at once |
| `PairingStore.Store.SpendToken` | client_backend/internal/store/pairing.go:374-388 | spends exactly an unspent token and reports whether it did |
| `PairingStore.Store.CloseRequest` | client_backend/internal/store/requests.go:197-218 | closes exactly a waiting request and spends its invite |
| `PairingStore.Store.IssueMachineLink` | client_backend/internal/store/pairing.go:63-100 | the statements run as the transaction's function says, all or nothing, keeping the joint invariant |
| `PairingStore.Store.PageMint` | client_backend/internal/store/pairing.go:137-160 | the second half of a page load: asked again in a transaction of its own, and a link minted when there is still neither link nor device |
| `PairingStore.Store.PageRead` | client_backend/internal/store/pairing.go:127-136 | the first half: what the page shows, and whether that is enough |
| `PairingStore.Store.IssueDeviceInvite` | client_backend/internal/store/pairing.go:197-217 | likewise for an invite |
| `PairingStore.Store.BindDevice` | client_backend/internal/store/pairing.go:404-413 | writes the row unless the key is somebody else's |
| `PairingStore.Store.ResolveSolePerson` | client_backend/internal/store/pairing.go:484-509 | finds the one person or writes a new one when there is nobody |
| `PairingStore.Store.Join` | client_backend/internal/store/pairing.go:332-366 | spend, person, device and outcome together or not at all |
| `PairingStore.Store.PairByMachineLink` | client_backend/internal/store/pairing.go:332-366 | a repeat answers what happened; a spent, run-out or live link each as promised |
| `PairingStore.Store.RepeatRequest` | client_backend/internal/store/requests.go:154-186 | a repeat answers the request as it stands and closes one that ran out |
| `PairingStore.Store.Pair` | client_backend/internal/store/pairing.go:293-323 | a presentation of any token, machine link or invite, as the transaction's function says |
| `PairingStore.Store.OpenByInvite` | client_backend/internal/store/requests.go:92-146 | every check of an invite and its key in order, then the request, as the transaction's function says |
| `PairingStore.Store.DecidePairRequest` | client_backend/internal/store/requests.go:240-310 | Allow and Deny as one transaction, whose effect `PairingEffects` gives field by field |
| `PairingStore.Store.CancelPairRequest` | client_backend/internal/store/requests.go:321-346 | a withdrawal, expired when its time ran out |
| `PairingStore.Store.CloseEach` | client_backend/internal/store/requests.go:431-452 | the loop over affected requests closes exactly them |
| `PairingStore.Store.ExpirePairRequests` | client_backend/internal/store/requests.go:387-420 | closes exactly the waiting requests past their deadline |
| `PairingStore.Store.RevokeDevice` | client_backend/internal/store/devices.go:93-159 | row, requests, invites and a run-out link in one transaction; a caller revoked meanwhile changes nothing |
| `PairingStore.Store.ResolveIdentity` | client_backend/internal/store/identity.go:61-91 | finds the person behind a paired key and touches the device, never writing either |
| `PairingStore.Store.Rekey` | client_backend/internal/store/serverkey.go:163-186 | lets every device, token and request go and keeps the person |
| `ChatLog.FileBoundOnce` | client_backend/internal/store/store.go:596-619 | a file is bound to at most one message |
| `ChatLog.OneMessagePerSendKey` | client_backend/internal/store/store.go:580-584 | at most one message per author and client id |
| `ChatLog.SeqNoIdentifies` | client_backend/internal/store/store.go:621-630 | no two messages share a sequence number |
| `ChatLog.PreviewShowsWhatThereIs` | client_backend/internal/store/store.go:725-736 | a preview is empty only when there is neither a text line nor a file name, and a text line comes first |
| `ChatLog.LogTellsEverything` | client_backend/internal/store/store.go:630-675 | whoever folds the log knows every chat and message, each field as its row has it |
| `ChatLog.SentIsFirst` | client_backend/internal/store/store.go:621-682 | what a send leaves, field by field: the answer, the event, the row, the chat and the file |
| `ChatLog.CardKeepsFold` | client_backend/internal/store/store.go:499-565 | a chat row written beside its event keeps the log folding to the tables |
| `ChatLog.SentKeepsFold` | client_backend/internal/store/store.go:621-675 | so does a message with its file and its chat's preview, the event's body respelled |
| `ChatLog.SentKeeps` | client_backend/internal/store/store.go:573-682 | a send keeps the whole invariant and takes nothing back |
| `ChatLog.FilesKeep` | client_backend/internal/store/store.go:258-268 | file rows no message has may come, change and go |
| `ChatLog.Store.CreateChat` | client_backend/internal/store/store.go:499-565 | by case: a known id comes back with its row's fields and writes nothing, before the name is looked at; a taken folded name; a broken constraint; or row and event together, answer and event with the name, creator and moment given |
| `ChatLog.Store.RenameChat` | client_backend/internal/store/store.go:427-481 | by case: unknown chat, the same name again, a taken name, or row and event with the new name and all else, last activity included, untouched |
| `ChatLog.Store.SendMessage` | client_backend/internal/store/store.go:573-682 | a repeat answers the stored message, field by field its row's, and writes nothing; otherwise each refusal in order, or answer, event and row with the author, label, chat, client id, moment, body and file given, the file bound and the chat's preview and activity set |
| `ChatLog.Store.CreateUpload` | client_backend/internal/store/store.go:238-253 | a declared file, not uploaded, not bound |
| `ChatLog.Store.MarkUploaded` | client_backend/internal/store/store.go:258-268 | exactly a file not yet marked is marked |
| `ChatLog.Store.DeleteFiles` | client_backend/internal/store/store.go:344-351 | rows go one by one up to the first some message has, which its foreign key holds |
| `ChatLog.Store.AnyRun` | client_backend/internal/store/store.go:427-682 | in every reachable state the log folds to the tables, names are unique folded, sequence numbers have no hole, and nothing written is ever taken back |
| `ChatLog.Store.SendAgain` | client_backend/internal/store/store.go:580-584 | a send repeated after any other transactions is answered with the first message, attachment included |
| `Envelopes.FrameShowsOwnIdsOnly` | client_backend/internal/server/handlers.go:548-572 | the author's copy is the event itself; anybody else's has an empty client id and every other field the same |
| `Envelopes.FramesFoldToTheWorld` | client_backend/internal/hub/hub.go:24-29 | folding the frames one recipient gets is the fold of the log, other people's client ids left out |
| `Envelopes.FramesFoldToTheTables` | client_backend/internal/server/handlers.go:548-572 | so a recipient of every frame knows every chat and message, each field its row's, client ids its own only |
| `Paging.HistoryAscends` | client_backend/internal/store/store.go:190-227 | a chat's history is in strictly ascending order |
| `Paging.HistoryIsTheRows` | client_backend/internal/store/store.go:190-227 | it holds exactly the chat's rows |
| `Paging.HistoryGrows` | client_backend/internal/store/store.go:190-227 | later transactions only append to it |
| `Paging.OlderPage` | client_backend/internal/store/store.go:190-227 | the page below an entry seen earlier is the stretch right before it, whatever was sent since |
| `Paging.ListMessages` | client_backend/internal/store/store.go:190-227 | a page is the last `limit` rows below, oldest first, with whether older ones remain |
| `Paging.PageIsTheNewestBelow` | client_backend/internal/store/store.go:190-227 | a page holds, in order and field by field, the newest messages of the chat below the bound: at most the limit, every one newer than what is left out, and full whenever something is |
| `Paging.WalkBack` | client_backend/internal/store/store.go:190-227 | following before_seq with any positive limits, other transactions between the pages, shows every message there was exactly once in order |
| `Paging.OneOrder` | client_backend/internal/store/store.go:128-136 | newest activity first, id as tiebreaker: the order determines the list |
| `Paging.ChatsInOrder` | client_backend/internal/store/store.go:134-139 | every chat of the table once, in that order |
| `Paging.PageOfList` | client_backend/internal/store/store.go:156-170 | the guard before the product: the stretch of the page, and nothing wraps |
| `Paging.MatchingKeepsOrder` | client_backend/internal/store/store.go:140-155 | filtering keeps exactly the chats that match, in their order |
| `Paging.ListChats` | client_backend/internal/store/store.go:134-171 | a page is its stretch of the matching chats in the list's order, for every page number 64 bits hold |
| `Paging.PagesConcatenate` | client_backend/internal/store/store.go:134-171 | pages one after another are the list |
| `Paging.AllChats` | client_backend/internal/store/store.go:134-171 | asking while there is more gives exactly the chats that match, each field its row's, newest activity first |
| `Delivery.NoJumpNoGap` | client_backend/internal/server/handlers.go:151-156 | frames that never jump more than one ahead are, deduplicated, consecutive |
| `Delivery.CursorKeeps` | client_backend/internal/server/handlers.go:151-171 | reading the cursor after subscribing keeps a connection's frames, present and to come, free of jumps |
| `Delivery.GreetingKeeps` | client_backend/internal/server/handlers.go:180-227 | so do the reply, the replay's read and going live |
| `Delivery.ReplayKeeps` | client_backend/internal/server/handlers.go:204-224 | so does each replay frame, lost ones after cancellation included |
| `Delivery.ForwardKeeps` | client_backend/internal/server/client.go:171-259 | so does each live frame, and a full queue that ends them |
| `Delivery.QueueKeeps` | client_backend/internal/server/client.go:150-214 | so do other frames, the writer, a failed write and cancellation |
| `Delivery.HubKeeps` | client_backend/internal/server/server.go:292-331 | commits, kicks, the dispatcher and unregistering keep all connections so, and no commit is forgotten |
| `Delivery.FanOutKeeps` | client_backend/internal/hub/hub.go:71-103 | so does the fan-out, which drops a full subscriber and never skips one |
| `Delivery.RunKeeps` | client_backend/internal/server/server.go:292-331 | all of it holds in every interleaving |
| `Delivery.GapFree` | client_backend/internal/server/handlers.go:151-227 | in every interleaving what a device has received, counted from its mark and deduplicated, is the events right after the mark with no gap, the reply before all of them, also when it was dropped |
| `Delivery.NoLostWakeup` | client_backend/internal/server/server.go:279-331 | a commit not yet broadcast always has a kick waiting or owed or the dispatcher up |
| `Delivery.AllDelivered` | client_backend/internal/server/server.go:292-331 | once everything has settled a connection that holds has every event after its mark |
| `Delivery.CursorIsTheLog` | client_backend/internal/server/handlers.go:151-185 | every cursor on the wire, with or without `since`, is the log as it stood at one moment after the connection subscribed: nothing broadcast before is past it |
| `Delivery.NothingMissedSince` | client_backend/internal/server/handlers.go:151-227 | a device past the reading of its cursor has, once all has settled, every event committed after that moment and after its `since`, deduplicated from its `since` or from the cursor it was told |
| `Delivery.LogCountsCommits` | client_backend/internal/server/server.go:292-331 | the log holds one event for each commit |
| `Delivery.GreetedListens` | client_backend/internal/server/handlers.go:151-227 | a device that connects is told where the log stands and listens from there |
| `Delivery.CommitArrives` | client_backend/internal/server/server.go:292-331 | a commit goes through kick, dispatcher, hub and connection to the device |
| `Holds.LetGoKeeps` | client_backend/internal/server/unpaired.go:362-376 | letting go frees one connection, renumbers it and touches no other |
| `Holds.OldestLetGo` | client_backend/internal/server/unpaired.go:285-302 | taking out the oldest takes them in order and no wait |
| `Holds.PlaceKeeps` | client_backend/internal/server/unpaired.go:285-302 | a newcomer is the newest place, the places stay within the cap, only the oldest go |
| `Holds.PlaceTakes` | client_backend/internal/server/unpaired.go:285-302 | below the cap nobody goes, at the cap the oldest does; the newcomer is the newest with a deadline of its own, and nothing else changes |
| `Holds.WithoutKeepsOrder` | client_backend/internal/server/unpaired.go:362-376 | who stays, stays in order |
| `Holds.AwaitKeeps` | client_backend/internal/server/unpaired.go:207-234 | one holder per wait; only the holder it was taken from is let go of |
| `Holds.AwaitTakes` | client_backend/internal/server/unpaired.go:207-234 | whoever waits has left its place, whoever held the wait is held to nothing, and nothing else changes |
| `Holds.EndWaitKeeps` | client_backend/internal/server/unpaired.go:264-276 | the wait is gone and its holder free or the newest stranger |
| `Holds.EndWaitEnds` | client_backend/internal/server/unpaired.go:264-276 | an allowed holder is free; any other takes a place as a newcomer does; nothing else changes |
| `Holds.Registry.LetGoLocked` | client_backend/internal/server/unpaired.go:362-376 | the list, the map and the hold change together |
| `Holds.Registry.ArmLocked` | client_backend/internal/server/unpaired.go:322-329 | the hold gets a deadline under its next number, on record for what it was armed |
| `Holds.Registry.MakeRoom` | client_backend/internal/server/unpaired.go:285-292 | the eviction loop takes exactly the excess, oldest first |
| `Holds.Registry.PlaceUnpairedLocked` | client_backend/internal/server/unpaired.go:285-302 | room made, then a place with its deadline |
| `Holds.Registry.HoldUnpaired` | client_backend/internal/server/unpaired.go:165-171 | below the cap nobody is cut, at the cap the oldest, never one that waits |
| `Holds.Registry.AwaitLocked` | client_backend/internal/server/unpaired.go:207-234 | the wait taken over and whom to close for it |
| `Holds.Registry.EndWaitLocked` | client_backend/internal/server/unpaired.go:264-276 | the end of a wait |
| `Holds.Registry.FireTimer` | client_backend/internal/server/unpaired.go:322-329 | a deadline that went off and waits for the lock |
| `Holds.Registry.OutOfTimeOf` | client_backend/internal/server/unpaired.go:333-349 | closes exactly the connection still in the hold the deadline was armed for; a stale one does nothing |
| `Holds.Registry.DropDevice` | client_backend/internal/server/server.go:434-453 | a revoked device's connections are held to nothing |
| `Holds.Registry.AnyRun` | client_backend/internal/server/unpaired.go:165-376 | in every run: place, wait or free and only one; waits and waitsOn agree; no place twice; the cap holds; one current-number deadline for each held connection |
| `WaitProtocol.RegisterKeeps` | client_backend/internal/server/unpaired.go:207-234 | taking a wait, over from another connection or not, keeps every wait on a closed request attended: its end owed, its holder about to look, or about to be let go of |
| `WaitProtocol.CloseKeeps` | client_backend/internal/store/requests.go:197-218 | closing a request keeps every wait on a closed request attended |
| `WaitProtocol.CheckKeeps` | client_backend/internal/server/unpaired.go:236-256 | so does the second look at the store |
| `WaitProtocol.EndWaitStepKeeps` | client_backend/internal/server/unpaired.go:264-276 | so does ending a wait |
| `WaitProtocol.NoWaitOutlivesItsRequest` | client_backend/internal/server/unpaired.go:207-276 | in every interleaving, takeovers included, once all have finished nobody waits on a closed request |
| `WaitProtocol.EndsOnlyTheClosed` | client_backend/internal/server/unpaired.go:242-276 | nobody ends the wait on a request that still waits |
| `WaitProtocol.RegisterTakes` | client_backend/internal/server/unpaired.go:207-234 | a connection that found a request waiting, and is held to something, becomes the holder of its wait |
| `WaitProtocol.WaitStands` | client_backend/internal/server/unpaired.go:207-276 | a wait ends only by its request's end, a takeover, its holder's other wait, or its holder's going |
| `WaitProtocol.EndWaitAnswers` | client_backend/internal/server/unpaired.go:264-276 | an end owed frees its holder when the request was allowed, and gives it a place otherwise |
| `TransferProtocol.NextKeeps` | client_backend/internal/server/files.go:314-337 | each step keeps: a transfer let in before a revocation is cut or is about to be |
| `TransferProtocol.RevocationCutsTransfers` | client_backend/internal/server/server.go:434-460 | when a key's revocations have finished, its transfers still running uncut were let in after the last of them, by a paired key |
| `TransferProtocol.LetInExactlyThePaired` | client_backend/internal/server/files.go:314-337 | a registered transfer is let in exactly when its key is paired |
| `TransferProtocol.OnlyTheRevokedAreCut` | client_backend/internal/server/server.go:434-460 | a transfer is cut only for a revocation of its own key |
| `TransferProtocol.RevocationFinds` | client_backend/internal/server/server.go:434-453 | a revocation takes the key off the list first, and its walk finds exactly the transfers of the key |
| `AskProtocol.NextKeeps` | client_backend/internal/server/requests.go:107-205 | each step keeps: a waiting request was asked on each greeted connection of its issuer or is about to be; a dialog of a closed request has its end to come or was opened late |
| `AskProtocol.EveryRequestReachesItsIssuer` | client_backend/internal/server/requests.go:154-177 | when both sides have finished every waiting request was asked on every greeted connection of its issuer, and is still shown there |
| `AskProtocol.AskedWhomItConcerns` | client_backend/internal/server/requests.go:107-205 | a request asked about and still waiting is shown, on a connection of its issuer, in every state |
| `AskProtocol.GreetingAsks` | client_backend/internal/server/requests.go:154-177 | a greeting reads and shows any request waiting for its device |
| `AskProtocol.OnlyLateAsksStayOpen` | client_backend/internal/server/requests.go:107-205 | when all have finished, a dialog of a closed request is open exactly where the announcement asked late: after the close, with no frame that ends it left to come |
| `AskProtocol.AnnouncedInTimeLeavesNone` | client_backend/internal/server/requests.go:107-123 | a request announced to its end before it closes leaves no dialog behind, whatever follows |
| `AskProtocol.LateAsk` | client_backend/internal/server/requests.go:107-123 | it happens on any greeted connection: the close told between the announcement's walk and its ask |
| `Admission.First` | client_backend/internal/server/channel.go:414-421 | the first of a source, the length when it has none |
| `Admission.CountedIsThere` | client_backend/internal/server/channel.go:378-383 | a source that is counted is found, so the walk never comes back empty |
| `Admission.AtItsShare` | client_backend/internal/server/channel.go:366-391 | a source at its share gives up its own oldest and nobody else goes |
| `Admission.BelowItsShare` | client_backend/internal/server/channel.go:392-397 | the oldest of all goes only when the source had room and the entry had none |
| `Admission.LimitsHold` | client_backend/internal/server/channel.go:366-408 | within the limits before, within all of them after |
| `Admission.ComesOutAtTheLimit` | client_backend/internal/server/channel.go:376-397 | whatever was under way, a limit shrunk meanwhile included, the entry and the newcomer's source come out at their limits |
| `Admission.OneForOne` | client_backend/internal/server/channel.go:366-408 | the policy whole: every newcomer taken, at most one cut and which, by the local or the common share, everybody else in the order they came |
| `Admission.Conserved` | client_backend/internal/server/channel.go:366-408 | for any limits: who was under way and the newcomer are under way or cut, nobody twice |
| `Admission.CountIsTheNumber` | client_backend/internal/server/channel.go:366-391 | a source's count is the number of its handshakes |
| `Admission.Entry.TakeOut` | client_backend/internal/server/channel.go:439-446 | list and counts stay in step, a source left with none uncounted |
| `Admission.Entry.ForgetLocked` | client_backend/internal/server/channel.go:439-446 | a handshake gone is cut or left, on record |
| `Admission.Entry.OldestFromLocked` | client_backend/internal/server/channel.go:414-421 | the walk finds the first, and finds one exactly when the count says so |
| `Admission.Entry.CutOwn` | client_backend/internal/server/channel.go:376-391 | the loop within a source cuts exactly its excess |
| `Admission.Entry.CutOldest` | client_backend/internal/server/channel.go:392-397 | the entry-wide loop cuts exactly the excess |
| `Admission.Entry.Admit` | client_backend/internal/server/channel.go:366-408 | what the entry holds after and whom it cut, for any limits, nobody lost; with limits of at least one, within the entry's and the newcomer's source's |
| `Admission.Entry.Leave` | client_backend/internal/server/channel.go:426-434 | of handshakes not yet gone, exactly those never cut are told they were still there |
| `Admission.Entry.AnyRun` | client_backend/internal/server/channel.go:366-446 | in every run the counts are the list's, limits once met stay met, and no handshake is both cut and left |
| `UploadAccess.IssueKeepsOne` | client_backend/internal/server/tokens.go:56-76 | a new upload token leaves no other of its file |
| `UploadAccess.TokenStore.Issue` | client_backend/internal/server/tokens.go:56-76 | a token of its file, operation and offset for ten minutes; the sweep takes exactly the expired and the superseded |
| `UploadAccess.TokenStore.Consume` | client_backend/internal/server/tokens.go:84-96 | redeems exactly a token there, of its operation and in time, as it was issued; the first presentation removes it whatever comes of it |
| `UploadAccess.TokensAreIssuedFor` | client_backend/internal/server/files.go:57-144 | a declared file gets a token from its start, a continuation one from what it was told is there, each for ten minutes; which others live on |
| `UploadAccess.PresentedStartsItsPut` | client_backend/internal/server/tokens.go:84-96 | presented in time a token starts a PUT of its file at its offset; presented at all it is gone |
| `UploadAccess.TokenStays` | client_backend/internal/server/tokens.go:56-96 | until presented, superseded, swept or lost in a restart a token stays what it was issued as |
| `UploadAccess.PutSteps` | client_backend/internal/server/files.go:345-502 | who takes a file, what a look at it decides, a finished one's lost commit included, whose row is told, and that a release is one |
| `UploadAccess.OneWriter` | client_backend/internal/server/writers.go:45-66 | in every interleaving at most one request holds a file's part |
| `UploadAccess.RedeemedOnce` | client_backend/internal/server/tokens.go:84-96 | no token is redeemed twice, restarts included, and one upload token per file is live |
| `UploadDesk.Desk.Open` | client_backend/internal/blob/blob.go:220-280 | the part opens only where the bytes before the offset are sealed on stable storage |
| `UploadDesk.Desk.Send` | client_backend/internal/server/files.go:404-418 | more bytes; a failed write rolls back or throws away, and ends the upload |
| `UploadDesk.Desk.Stop` | client_backend/internal/server/files.go:420-433 | what was delivered is kept, or taken back when it was more than the file |
| `UploadDesk.Desk.Finish` | client_backend/internal/server/files.go:434-446 | the part becomes the file exactly when every byte is in and the disk does not fail |
| `UploadDesk.Desk.PowerOff` | client_backend/internal/blob/blob.go:282-325 | a power cut at any moment of the past leaves a disk in order and a finished file as it was |
| `UploadServer.RestagedLinked` | client_backend/internal/server/files.go:383-446 | the writer's moves keep: who writes has the part open on a file not finished, who has it all finds it finished |
| `UploadServer.RestartLinked` | client_backend/internal/server/tokens.go:34-38 | a restart drops tokens, writers and requests and leaves what the row promises |
| `UploadServer.Server.ReadProgressOf` | client_backend/internal/server/files.go:114-144 | a continuation is told everything of a finished file, the durable bytes of another |
| `UploadServer.Server.OpenPartOf` | client_backend/internal/server/files.go:383-400 | the one writer looks again: a finished file it leaves alone; the part opens exactly at a durable boundary on a disk that does not fail, with the content before it, on record with the disk as it was |
| `UploadServer.Server.WriteOf` | client_backend/internal/server/files.go:404-447 | bytes, checkpoints and endings: what each leaves of the request, the delivered bytes and the file, memory, row and disk in agreement |
| `UploadServer.Server.PutWhole` | client_backend/internal/server/files.go:345-502 | a file declared, its token presented and its bytes sent: on a disk without faults the file is the sealing of those bytes, its row says uploaded, and the request has let go |
| `UploadServer.Server.PowerCutAt` | client_backend/internal/server/files.go:345-447 | so does a power cut in the middle of any of them, with a finished file as it was |
| `UploadServer.Server.UploadedIsFinished` | client_backend/internal/server/files.go:481-502 | a row that says uploaded has its file, wholly on stable storage, the sealing of as many bytes as it declares |
| `UploadServer.Server.AnyRun` | client_backend/internal/server/files.go:345-447 | in every run of requests and power cuts: every time a part was opened its file was not finished and the bytes before the offset were sealed on stable storage; a finished file stays as it is and is not opened again |
| `Addresses.GreetingStep` | client_backend/internal/server/handlers.go:172-192 | a greeting's step keeps the reply first and the version on record the one shown |
| `Addresses.WatcherKeeps` | client_backend/internal/server/addresses.go:243-256 | the watcher's steps keep versions growing and everybody behind provided for |
| `Addresses.SendKeeps` | client_backend/internal/server/addresses.go:267-292 | sending an event keeps versions strictly growing |
| `Addresses.VersionsGrow` | client_backend/internal/server/addresses.go:267-305 | every device sees the reply first and strictly growing versions |
| `Addresses.NobodyIsLeftBehind` | client_backend/internal/server/addresses.go:233-292 | a greeted connection behind has a poke waiting, a pass that has yet to collect, or a greeter about to poke |
| `Addresses.AtRestEveryoneIsCurrent` | client_backend/internal/server/addresses.go:243-305 | at rest every greeted device was shown the current list last |
| `Addresses.RefreshTakesTheList` | client_backend/internal/server/addresses.go:243-256 | a pass takes the list it read: it is the current one, a version more exactly when it is another |
| `Addresses.GreetingShowsTheCurrent` | client_backend/internal/server/handlers.go:172-196 | a greeting ends with the current list in its reply, the device on record with it, and the watcher poked |
| `Addresses.PassReachesThoseBehind` | client_backend/internal/server/addresses.go:267-292 | a pass brings a greeted device behind to the current version and shows it |
| `PairingLink.SplitOfJoin` | client_backend/internal/server/pairing_link.go:166-176 | entries come apart as they were put together |
| `PairingLink.JoinOfSplit` | client_backend/internal/server/pairing_link.go:166-176 | bytes that are entries are those entries' bytes and no others |
| `PairingLink.SaidStands` | client_backend/internal/server/pairing_link.go:177-190 | later entries only add addresses behind; a link that names several onion keys keeps the first |
| `PairingLink.UnknownEntriesChangeNothing` | client_backend/internal/server/pairing_link.go:191-195 | well-formed entries of unknown types put in or left out anywhere change nothing |
| `PairingLink.FitsItsLength` | client_backend/internal/server/pairing_link.go:131-139 | the one-byte length never loses a name |
| `PairingLink.DirectReadsBack` | client_backend/internal/server/pairing_link.go:204-228 | an address is read back as itself in its one spelling |
| `PairingLink.BuiltReadsBack` | client_backend/internal/server/pairing_link.go:81-110 | a built payload means the key, token, addresses in order and onion key it was built from |
| `PairingLink.AppendDirectAddress` | client_backend/internal/server/pairing_link.go:115-141 | refuses exactly what no link can carry, and spells the rest byte by byte |
| `PairingLink.AppendAll` | client_backend/internal/server/pairing_link.go:97-101 | every address in order or none |
| `PairingLink.Build` | client_backend/internal/server/pairing_link.go:81-110 | refuses exactly by the stated rules, and otherwise a version 3 payload that reads back |
| `PairingLink.WalkEntries` | client_backend/internal/server/pairing_link.go:165-200 | the walk ends on every payload and gathers what the entries say |
| `PairingLink.Parse` | client_backend/internal/server/pairing_link.go:146-201 | every payload gets its meaning: short is malformed, a later version newer, an earlier malformed |
| `PairingLink.EntryByBytes` | client_backend/internal/server/pairing_link.go:177-228 | what each entry says, by its bytes: its host and port, an onion key, broken by a wrong length, a name no name or a zero port, or unknown |
| `PairingLink.MeaningByBytes` | client_backend/internal/server/pairing_link.go:146-201 | malformed exactly when entries do not come apart, one of a known type is broken or none is known; otherwise key, token, addresses in order and the first onion key, as the bytes have them |
| `Backup.Fixed64Injective` | client_backend/internal/backup/backup.go:130-142 | a signed 64-bit number is read back from its eight bytes |
| `Backup.FirstByte` | client_backend/internal/backup/backup.go:137-142 | the closing mark is told from an entry by the first byte |
| `Backup.FedApart` | client_backend/internal/backup/backup.go:130-134 | an entry at the head of a stream is read off it in one way |
| `Backup.StreamInjective` | client_backend/internal/backup/backup.go:109-142 | two backups that feed the MAC the same bytes have the same entries, contents and moment |
| `Backup.FileIdOf` | client_backend/internal/backup/backup.go:621-630 | an entry name carries an id only as the prefix and that id |
| `Backup.FileIdFoundAgain` | client_backend/internal/backup/backup.go:621-630 | and every id is found again in its entry's name |
| `Backup.WrittenIsRestorable` | client_backend/internal/backup/backup.go:543-618 | a written backup is accepted, as its own entries in order, exactly when its manifest is within the bound a restore reads |
| `BackupLimit.IdsDistinct` | client_backend/internal/store/store.go:238-242 | ids of sixteen hex digits for any number of attachments, no two alike |
| `BackupLimit.TextLenAtLeast` | client_backend/internal/backup/backup.go:97-107 | a manifest is as long as its entries in JSON |
| `BackupLimit.EveryEntryIsLong` | client_backend/internal/backup/backup.go:222-240 | every attachment takes at least forty-five bytes of it |
| `BackupLimit.TooManyAttachments` | client_backend/internal/backup/backup.go:241-248 | a backup of 372 828 attachments or more is written, and no restore accepts it |
| `BackupLimit.LawsCanBeHad` | client_backend/internal/backup/backup.go:97-107 | there are codecs with the laws asked for, and files for any number of ids |
| `Backup.AcceptedIsWritten` | client_backend/internal/backup/backup.go:606-615 | accepted with the MAC of a written backup, an archive holds that backup's entries, bytes and moment |
| `Backup.Writer.Add` | client_backend/internal/backup/backup.go:349-373 | archive, MAC and list get the same entry |
| `Backup.Writer.AddFiles` | client_backend/internal/backup/backup.go:222-240 | the rows' finished files in order, the others counted |
| `Backup.ContentsInOrder` | client_backend/internal/backup/backup.go:214-240 | what is written stands in a backup's order |
| `Backup.Write` | client_backend/internal/backup/backup.go:171-267 | the archive of the key, the snapshot and the finished files, refused exactly for a key file too large |
| `Backup.HasItsPlace` | client_backend/internal/backup/backup.go:577-596 | in an acceptable archive every entry but the last has its place |
| `Backup.TheManifestDecides` | client_backend/internal/backup/backup.go:606-615 | with the rest in place the manifest decides |
| `Backup.ReadEntries` | client_backend/internal/backup/backup.go:508-604 | what stops the walk is in no acceptable archive |
| `Backup.Unpack` | client_backend/internal/backup/backup.go:543-618 | succeeds exactly on the acceptable archives, with their entries, the moment, and a manifest that names each entry with its size |
| `Backup.WriteThenUnpack` | client_backend/internal/backup/backup.go:171-267 | what is written is restored: key, database, and of the rows' files exactly those that are there, in the rows' order, each with its own bytes, and the moment; nothing is, exactly when the manifest is past the bound |

## Left out

- Cryptography itself (ChaCha20-Poly1305, HKDF, HMAC, Argon2id, Adiantum, the secure box): ideal functions with their laws.
- TLS, HTTP, WebSocket framing, read deadlines and sockets: library behaviour; the protocol steps around them are modelled.
- SQLite, pragmas and the migration runner; checks that a text column is not empty are modelled for chats and files only.
- Base64, UTF-8, the text form of IP addresses, JSON: library code; links are modelled as payloads, bodies by what they read as.
- Unicode case folding and the 120-rune one-line preview: parameters, since only their being functions matters to the proofs.
- Store read failures, marshal failures, and a greeting that races the dispatcher's first cursor read: taken not to happen.
- The retry loop for an assigned label, journal id and server key rows: a name arrives as an argument; they add only easy members.
- The order of requests closed together: sets, with order shown not to matter by `PairingStore.OneMoreClosed`.
- The orphan sweep beside running uploads: `ChatLog.Store.DeleteFiles` models the rows, the upload steps do without it.
- The copy loop of `receive` and its checkpoint interval: any order of writes and checkpoints is covered by `BlobRuns.AnyRun`.
- Counting of closed connections for the log, `sourceOf` and first-byte deadlines of the entry: no bearing on the lists.
- 64-bit wrap-around of hold numbers, versions and sequence numbers: they count up from zero.
- Which addresses a machine finds on its interfaces: the list arrives as a value.
- The vault, the gate, the service page, the command line, and everything outside `client_backend`.
- BlobDisk.Disk.Append: a failed write keeps the bytes before it and may leave any bytes behind them, since the file system promises no more.
- TransferProtocol.RevocationCutsTransfers: what a transfer does after it was cut is the socket's and is not modelled.
- Paging.ListChats: assumes that a hundred times the number of chats fits 63 bits, as any list in memory does.
- Backup.StreamInjective: for names under 0xff00 bytes and sizes of 63 bits; the names a backup is written with and a restore accepts are always shorter.
- A chunk moved from one file into another: every file has a key of its own, and the laws are those of one key.
- A close by revoking the issuer tells its connections nothing, since they are being dropped; here every close tells the greeted connections.
- Steps of one blob operation interleaved with another request's: the registry of writers rules them out, and power cuts fall between any two of them.
