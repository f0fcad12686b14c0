# ESPRack: what its code promises, proved

A Dafny 4.11 model of the parts of ESPRack where a mistake costs a device its
configuration, its firmware or its uptime, with proofs about every run, every
interleaving and every input. `dafny verify dfyconfig.toml` checks it all.

| files | component |
|---|---|
| `ConfigFlash`, `ConfigStore`, `ConfigAnswers`, `ConfigRuns`, `ConfigPending`, `ConfigManager` | the crash-safe configuration store: files and their instants, one entry's operations and exactly what they answer, all runs, the saves that are put off, and the classes that carry them out |
| `SaveBackup` | the queued Save Backup |
| `FlashSlot`, `ImageRules`, `TailHold`, `ImageWriter`, `OtaTrailer` | the loader's image writer and the signature trailer |
| `Chunked`, `HttpHead`, `LoaderPull` | the loader's download, from the response's bytes to the slot |
| `LoaderSession` | the loader's two tasks over the slot, the mutex, the event bits and the flags |
| `PinTable`, `PinProtocol` | pins on WebSocket clients, and their release |
| `WsRoster`, `WsRecords` | the WebSocket caps and evictions, and what the roster knows of a client |
| `Restart` | the graceful restart |
| `KahnSort` | the install order of modules |
| `Ecdsa`, `Der` | the signing tool |
| `SecretsVault`, `SecretFields`, `WriteAuth` | secrets at rest, secrets in the web interface, write levels |
| `TarStream` | the streamed archive |

Code that changes things step by step is imperative here too: classes, arrays
and loops, each method proved against a function whose properties are lemmas.
Protocols of several tasks are state machines whose steps are the tasks' single
accesses to what they share, and whose runs are arbitrary interleavings.

## Where the code does less than it says

Each of these is a lemma with a concrete run or input, next to one that says
exactly when the code does meet the promise.

- The FlashWriter checks whether a backup copy is due, and if none is, saves in a
  later locked step that is told that the copy is made. If a first save by another
  task completes in between, that step overwrites the only good file with no
  backup beside it (`FirstSaveCanBeLost`, `WriterSaveSafeIff`).
- Save Backup looks at the stale flag and not at the held one
  (`BothCanBeLost`, `SaveBackupSafeIff`). A restore copies a backup it has not
  verified (`RestoreCanLoseIt`, `RestoreSafeIff`).
- A queued Save Backup copies and renames in two locked steps, over the temporary
  file that the backup copy of a save uses too. If that copy breaks between them
  and is not removed, the rename brings it over the good backup
  (`BackupCanBeSpoiled`, `SnapRenameSafeIff`).
- A save that did not get the lock is only noted. The FlashWriter's first step
  takes the note down before it has read the state, so if that read times out
  the change is not written until the next one (`NoteCanBeForgotten`,
  `OwedIff`). A save that was put off is not open to this (`StaysOwed`).
- A direct Save Backup can report Done over the failure of a request queued
  after it had walked the entries (`DirectDoneCanBeOutdated`,
  `DirectDoneOutdatedIff`).
- returnToApp() restarts without the writer's mutex. An upload past its check
  can erase the slot after it was validated (`ReturnSpoiledIff`, `NoWayBackIff`,
  `BackDuringAnUpload`). activate() is not open to this (`ActivationIsSafe`).
- serve() reads the event bits and clears them in two calls. An upload that
  begins and fails between them, while serve has just read an earlier end, leaves
  it waiting without a time limit for an upload that is over (`CanGetStuck`,
  `StuckIff`).
- The restart deadline is armed with the writes put off at the call, and the
  caller's wait for the hooks is measured again later. Saves that the hooks put
  off make the wait the longer one: the chip is reset before the caller can take
  over (`DeadlineCanBeShort`, `DeadlineIsLongerIff`, `SavesInBetween`).
- The chunk decoder counts size digits in 8 bits: a multiple of 256 of them reads
  as none (`LongSizeIsBad`, `DecodesIff`). Trailer lines of a multiple of 65536
  bytes end the body early, with the same data (`LongTrailerEndsEarly`,
  `AlmostRead`).
- With two tasks that free clients the pin table can lose a wake-up, at the cost
  of the bounded wait (`TwoClosersCanLoseOne`, `LostIff`, `WakeUpsLostIff`). The
  firmware frees them on async_tcp only (WsManager.h:852-857 and 1350), where
  none is lost (`NoLostWakeUp`).
- A secret that is null in a state comes back from its masked reading as an
  empty text, and what the form's pass masks outside the listed keys comes back
  as the mask (`WritingBackCanChange`, `WritingBackIff`).

## What is assumed

- A file verifies just when it is whole; a write or copy that reports success
  stored all its bytes; a rename on LittleFS is atomic; an open for writing
  empties the file at once. An entry is loaded once per boot before it is saved.
  `RunRecovers` adds that a load reads back what it applied, by its CRC.
- A sector erase and the 16-byte head write of the app slot are atomic; any
  other write may stop after any byte; every flash call may fail.
- SHA-256, CRC-32, the verification of a hash by a signature, the chip-revision
  check and the bootloader's own check are functions given from outside. A slot
  with a blank head never boots.
- ECDSA: the curve's points form a group under the tool's addition, N is the
  order of G, numbers have inverses modulo N. The block cipher of the vault has
  an inverse.
- recv gives an error, the peer's close, or some of what the peer sent, in any
  pieces. A file read gives some of what is left, and an error only at its end.
- A bounded wait may expire at any time. Ids of WebSocket clients are not used
  again, and no task nests 65536 pins of one client.

## Model

| member | source | states |
|---|---|---|
| `ConfigRuns.RunSafe` | lib/ESPRack/include/ConfigManager.h:540-858 | Over every run of saves, deferred saves in two steps, loads, resets, Save Backups (at once, or queued in locked steps over the temporary file that saves use too) and power cuts: once something is saved or recovered, each instant keeps a primary or a backup that verifies, and a backup that verifies is only replaced by one that verifies; the three steps that do not look for themselves are guarded |
| `ConfigRuns.EveryBootIsSafe` | lib/ESPRack/include/ConfigManager.h:573-681 | The same from power-on over any file system, torn files included |
| `ConfigRuns.EventKeepsInv` | lib/ESPRack/include/ConfigManager.h:540-858 | Every operation keeps: a primary that fails beside something recoverable is remembered as stale or held until rewritten, or a load is still to come |
| `ConfigRuns.FirstSaveCanBeLost` | lib/ESPRack/src/ConfigManager.cpp:376-420 | A concrete run in which the FlashWriter's second step overwrites the only good file without a copy, and a power cut leaves nothing that verifies |
| `ConfigRuns.WriterSaveSafeIff` | lib/ESPRack/include/ConfigManager.h:688-858 | The FlashWriter's second step is safe whatever the flash does just when no copy is due or the backup verifies |
| `ConfigRuns.SaveBackupSafeIff` | lib/ESPRack/src/ConfigManager.cpp:613-644 | Save Backup is safe just when a good backup meets a good, a stale or no primary: it does not look at the held flag |
| `ConfigRuns.BothCanBeLost` | lib/ESPRack/src/ConfigManager.cpp:613-644 | A concrete run: a failed write tears the primary, Save Backup copies it over the good backup, and nothing verifies |
| `ConfigRuns.SnapRenameSafeIff` | lib/ESPRack/src/ConfigManager.cpp:732-814 | The rename of a queued Save Backup is safe just when the temporary file verifies or is gone, or there is no good backup |
| `ConfigRuns.BackupCanBeSpoiled` | lib/ESPRack/src/ConfigManager.cpp:776-777 | A concrete run: a save's backup copy breaks between the two steps, and the rename brings the broken file over the good backup |
| `ConfigRuns.RestoreSafeIff` | lib/ESPRack/src/ConfigManager.cpp:1293-1327 | restoreFromBackup keeps a file that verifies just when the backup it copies unseen verifies |
| `ConfigRuns.RestoreCanLoseIt` | lib/ESPRack/src/ConfigManager.cpp:1293-1327 | A concrete run from a boot with a torn backup: restored, it goes over what was saved since |
| `ConfigRuns.RunRecovers` | lib/ESPRack/include/ConfigManager.h:540-858 | Over every run within the conditions of Strict, a boot after any cut loads the value saved last or the one being saved |
| `ConfigRuns.WriterSaveRecoversIff` | lib/ESPRack/include/ConfigManager.h:688-858 | For the FlashWriter's second step its condition in Strict is exact: no value lost at any instant just when no copy is due or the backup holds the value saved last |
| `ConfigRuns.SaveBackupRecoversIff` | lib/ESPRack/src/ConfigManager.cpp:613-644 | For a Save Backup at once it is exact: no value lost at any instant |
| `ConfigRuns.SnapRenameRecoversIff` | lib/ESPRack/src/ConfigManager.cpp:732-814 | For the rename of a queued Save Backup its condition in Strict is exact: no value lost then, or open to be lost at a later save |
| `ConfigRuns.TrueMeansDurable` | lib/ESPRack/include/ConfigManager.h:688-858 | A save that returns true, also one skipped as unchanged, leaves a disk from which a boot loads a value of that CRC |
| `ConfigPending.TurnedAwayIsOwed` | lib/ESPRack/include/ConfigManager.h:688-858 | A save that cannot lock, read, pass the gate or write returns false and is owed, unless the restart has closed the store |
| `ConfigPending.OwedIff` | lib/ESPRack/include/ConfigManager.h:540-858 | What is owed stays owed over an event just when that neither settles it (reads the state and writes it, finds it unchanged, invalid or too large) nor is the first deferred step that takes down a mere note |
| `ConfigPending.StaysOwed` | lib/ESPRack/src/ConfigManager.cpp:376-420 | Over every run up to a power cut: a save put off stays put off until it is settled |
| `ConfigPending.NoteCanBeForgotten` | lib/ESPRack/src/ConfigManager.cpp:376-420 | A concrete run: a save that did not get the lock is forgotten once the FlashWriter's first step gets it but cannot read the state |
| `ConfigAnswers.LoadAsks` | lib/ESPRack/include/ConfigManager.h:573-681 | A load asks for a reset just when the data found is not valid, for the defaults just when neither file exists, for a normalize save just when valid data is of an older form, holds a plain secret or comes from a primary that failed; else for nothing |
| `ConfigAnswers.FollowupIsWritten` | lib/ESPRack/include/ConfigManager.h:657-675 | The save that a load asks for is not skipped as unchanged: with the lock, the gate and the flash the primary holds the state's value after it, and a backup that was needed stays |
| `ConfigAnswers.SaveAnswers` | lib/ESPRack/include/ConfigManager.h:688-858 | A save touches the disk, and is true, exactly under which answers of lock, restart, state, validation, gate and flash; and its flags after it |
| `ConfigAnswers.FirstStepAnswers` | lib/ESPRack/include/ConfigManager.h:540-572 | Which of its five answers the FlashWriter's first step gives, exactly, and what it leaves |
| `ConfigAnswers.DeferredIsWritten` | lib/ESPRack/src/ConfigManager.cpp:376-420 | What is owed is written by the FlashWriter's check and two steps when the flash lets them, with the copy that was due, and nothing stays owed |
| `ConfigAnswers.WriteAnswers` | lib/ESPRack/src/ConfigManager.cpp:1386-1471 | A write goes through exactly if PowerGuard, the gate, the copy that is wanted, the open and the write do; refused, it leaves the disk alone |
| `ConfigAnswers.LoadAnswers` | lib/ESPRack/src/ConfigManager.cpp:1329-1375 | Which outcome a load has, exactly, and what data it finds |
| `ConfigAnswers.RestoreAnswers` | lib/ESPRack/src/ConfigManager.cpp:1293-1327 | A restore goes through exactly if there is a backup, the gate lets it, and the copy gets into place |
| `ConfigAnswers.QueuedIsAtOnce` | lib/ESPRack/src/ConfigManager.cpp:732-814 | A queued Save Backup that nothing comes between leaves what one at once does |
| `ConfigFlash.CopyReplaceFacts` | lib/ESPRack/src/ConfigManager.cpp:947-953 | Through the temporary file: at each instant the backup is the old one or the whole copy, the primary is untouched |
| `ConfigFlash.AtomicWriteFacts` | lib/ESPRack/src/ConfigManager.cpp:1386-1471 | Which primary and backup each outcome and each instant of a write leaves, and that "held" is reported whenever the primary may be torn |
| `ConfigFlash.RestoreFacts` | lib/ESPRack/src/ConfigManager.cpp:1293-1327 | Each instant of a restore leaves the backup as it was, and a primary that is old, torn or the backup |
| `ConfigFlash.LoadFacts` | lib/ESPRack/src/ConfigManager.cpp:1329-1375 | What each load outcome says of the two files, and that the backup is never changed |
| `ConfigManager.Manager.Write` | lib/ESPRack/src/ConfigManager.cpp:1386-1471 | The disk goes through the states of the write that AtomicWriteFacts is about, with its early returns and its "held" answer |
| `ConfigManager.Manager.Restore` | lib/ESPRack/src/ConfigManager.cpp:1293-1327 | The disk goes through the states that RestoreFacts is about, with the test write and the fallback copy |
| `ConfigManager.Manager.Recover` | lib/ESPRack/src/ConfigManager.cpp:1329-1375 | The disk goes through the states that LoadFacts is about: primary, else backup, else defaults |
| `ConfigManager.Entry.Save` | lib/ESPRack/include/ConfigManager.h:688-858 | The flags and the disk go on as in the saves of RunSafe, RunRecovers and SaveAnswers, for every answer of the environment |
| `ConfigManager.Entry.KeepBackup` | lib/ESPRack/include/ConfigManager.h:540-572 | The FlashWriter's first step is that of RunSafe and OwedIff, with all its five answers |
| `ConfigManager.Entry.EnsureLoaded` | lib/ESPRack/include/ConfigManager.h:573-681 | The load is that of RunSafe, RunRecovers and LoadAsks, with the save or reset it goes on to |
| `ConfigManager.Entry.StartDeferred` | lib/ESPRack/src/ConfigManager.cpp:376-412 | The copy is made exactly when it is due; without one the second step goes ahead at once (the case of FirstSaveCanBeLost) |
| `SaveBackup.DoneIsEarned` | lib/ESPRack/src/ConfigManager.cpp:684-814 | A run for the latest request ends with Done only when every entry had its copy and rename after the latest queued request, or had no primary; nothing else takes a request off the queue |
| `SaveBackup.FailedIsEarned` | lib/ESPRack/src/ConfigManager.cpp:732-814 | The other half: with no stale entry, failed copy or failed rename since the request was queued, the run that ends for it reports Done |
| `SaveBackup.FailureIsNoted` | lib/ESPRack/src/ConfigManager.cpp:776-808 | A copy or rename that fails, and a stale entry, are noted |
| `SaveBackup.FailedStays` | lib/ESPRack/src/ConfigManager.cpp:684-814 | What is noted stays so until the next request is queued |
| `SaveBackup.EndTells` | lib/ESPRack/src/ConfigManager.cpp:808-814 | and a run that comes to its end for the request says so, else Done |
| `SaveBackup.CoveredBy` | lib/ESPRack/src/ConfigManager.cpp:776-777 | An entry counts as backed up only by a copy that went through, made since that request, and its rename |
| `SaveBackup.RunGoesOn` | lib/ESPRack/src/ConfigManager.cpp:732-814 | Each step brings a run nearer its end, or it finds that a newer request is waiting and starts over |
| `SaveBackup.WholeRun` | lib/ESPRack/src/ConfigManager.cpp:712-814 | For any number of entries a run from the request to Done |
| `SaveBackup.AtOnceIff` | lib/ESPRack/src/ConfigManager.cpp:695-712 | A request is done at once just when nothing is put off or pending and the task could, and says Done just when its copies went well |
| `SaveBackup.DirectDoneIsEarned` | lib/ESPRack/src/ConfigManager.cpp:695-710 | A request done at once reports Done rightly if none was queued since it walked the entries, whatever other direct ones did |
| `SaveBackup.DirectDoneOutdatedIff` | lib/ESPRack/src/ConfigManager.cpp:695-710 | From every state in which a direct request has walked the entries and none was queued since: the next event opens a way, on which nothing more is queued, to reporting Done over a failed queued request just when it queues one |
| `SaveBackup.DirectDoneCanBeOutdated` | lib/ESPRack/src/ConfigManager.cpp:695-710 | A concrete run to that with two requests |
| `SaveBackup.QueuedIsPending` | lib/ESPRack/src/ConfigManager.cpp:712-724 | While the state says queued, the request is pending |
| `OtaTrailer.SignedSplitsBack` | tools/ota_sign.py:422-445 | An image with the trailer made for it splits into that image and that signature |
| `OtaTrailer.TrailerLayout` | tools/ota_sign.py:422-428 | The trailer byte by byte, and which lengths are refused |
| `OtaTrailer.VerdictIs` | tools/ota_sign.py:430-446 | A file is signed just when its last 128 bytes bear the name, the right length, a signature of 1 to 72 bytes and the right CRC, and damaged when they bear the name alone |
| `OtaTrailer.LoaderAgrees` | lib/ESPRack/src/system/OtaHandoff.cpp:308-323 | The loader and the signing tool give every file of at least 128 bytes the same verdict and the same parts |
| `ImageRules.UnfitIsHopeless` | loader/main/image_writer.cpp:54-84 | When the first bytes already doom a file, no way to go on makes it acceptable |
| `ImageRules.SignatureIff` | loader/main/image_writer.cpp:26-31 | With a production key an otherwise acceptable file passes just when the wanted signature, or if none is wanted its trailer's own, is there and verifies |
| `ImageRules.DevKeyAcceptsIff` | loader/main/image_writer.cpp:101-126 | Without one no signature is asked for or refused; then only the head, the slot, the announced size and the wanted hash count |
| `ImageRules.HeadOkIff` | loader/main/image_rules.cpp:40-52 | A head is good just when it is an app image for this chip with its description that is not the loader's own |
| `TailHold.Hold.Shift` | lib/ESPRack/include/system/OtaHandoff.h:264-269 | The hold lets the oldest bytes go and keeps the last 128 |
| `ImageWriter.FlushHolds` | loader/main/image_writer.cpp:72-99 | After a sector's flush the slot has the image so far but its blank head, and its old bytes past the last sector |
| `ImageWriter.FlushPasses` | loader/main/image_writer.cpp:86-94 | Every state that flush passes through has a blank head |
| `ImageWriter.Writer.Begin` | loader/main/image_writer.cpp:34-47 | A new image under way; a slot that was not touched is left alone |
| `ImageWriter.Writer.Feed` | loader/main/image_writer.cpp:49-70 | The bytes are taken in order, all but the last 128; an early refusal means that a call of the flash did fail, or that nothing can make the file acceptable; from the first erase on every state of the slot has a blank head |
| `ImageWriter.Writer.FlushSector` | loader/main/image_writer.cpp:72-99 | The flash gets one erase per sector, in order; the written bytes and the hash go on together |
| `ImageWriter.Writer.Finish` | loader/main/image_writer.cpp:101-136 | True just for an acceptable file (size, hash, signature policy) whose image the slot then holds, the flash having been asked to erase its sectors once each, in order, and none past its last; else a call of the flash did fail, the image that was written does not boot, or the file is not acceptable |
| `ImageWriter.Writer.Seal` | loader/main/image_writer.cpp:127-135 | The head goes in last, over a slot that holds the rest of a checked image |
| `ImageWriter.Writer.Abandon` | loader/main/image_writer.cpp:138-148 | A touched slot gets one erase, of its first sector, and is left blank-headed unless that fails; an untouched one is neither erased nor written |
| `Chunked.SplitAnywhere` | loader/main/http_lite.cpp:125-182 | The same bytes over two calls give the same data and verdict as in one |
| `Chunked.Decoder.Feed` | loader/main/http_lite.cpp:125-182 | In place or not, the output is that of the bytewise decoder, and output never runs ahead of input |
| `Chunked.DecodesIff` | loader/main/http_lite.cpp:125-182 | Any encoding of a chunk list decodes to its data and ends just when every size is below 2^32 and no count of size digits is a multiple of 256; else it is bad |
| `Chunked.ExampleBody` | loader/main/http_lite.cpp:125-182 | A body as a server may write it, with an extension and a letter in its size |
| `Chunked.LongSizeIsBad` | loader/main/http_lite.cpp:139-146 | 256 zeros for a size are refused |
| `Chunked.AlmostRead` | loader/main/http_lite.cpp:168-176 | All of a body but its last byte leaves the trailer open just when no trailer line has a multiple of 65536 bytes |
| `Chunked.LongTrailerEndsEarly` | loader/main/http_lite.cpp:168-176 | A trailer line of 65536 letters ends the body |
| `Chunked.NothingPastTheEnd` | loader/main/http_lite.cpp:128-128 | Bytes after the body change nothing |
| `Chunked.CutOffIsSeen` | loader/main/http_lite.cpp:168-176 | A body cut short anywhere is neither ended nor bad, and its data so far is right |
| `HttpHead.SplitAnywhere` | loader/main/http_lite.cpp:71-89 | However the head is cut up, the same is read and the body starts at the same byte |
| `HttpHead.Head.Feed` | loader/main/http_lite.cpp:71-123 | The parser's fields and the count of bytes taken are those of the bytewise one |
| `HttpHead.HeadRead` | loader/main/http_lite.cpp:71-105 | A head of up to 8192 bytes is read to its blank line and no further, a longer one is bad |
| `HttpHead.FieldsTell` | loader/main/http_lite.cpp:107-123 | The last Content-Length and Location count, one "chunked" is enough, other fields change nothing |
| `HttpHead.NamesRead` | loader/main/http_lite.cpp:107-123 | Three field names are known, letter by letter, in any case |
| `HttpHead.WordsRead` | loader/main/http_lite.cpp:92-120 | So are the version and the word chunked |
| `HttpHead.LengthRead` | loader/main/http_lite.cpp:111-114 | A Content-Length field in any case gives the number its digits spell |
| `HttpHead.NumberRead` | loader/main/http_lite.cpp:92-114 | A number is read as strtoll does: white space, a sign, digits |
| `HttpHead.StatusRead` | loader/main/http_lite.cpp:92-101 | A status line gives its three digits, and is bad outside 100 to 599 |
| `LoaderPull.Request` | loader/main/loader_pull.cpp:114-133 | However recv splits the response, its facts and the first body byte are found, or there is none |
| `LoaderPull.Puller.PullBody` | loader/main/loader_pull.cpp:188-225 | However recv splits it, the writer gets exactly the decoded body, or the outcome says why not |
| `LoaderPull.Puller.PullOnce` | loader/main/loader_pull.cpp:138-243 | Ok just when the slot holds the image of an acceptable file that the servers' answers carry; Before leaves the slot untouched; from the first erase on every flash state has a blank head or is that file's checked image; the cause that is told of a refusal is the one there was: the URL, the answer, its length, its body, recv, the flash, the boot check or the file |
| `LoaderPull.ServedIsDelivered` | loader/main/loader_pull.cpp:164-225 | A file sent with its length or in chunks is what gets delivered, whatever follows it |
| `LoaderPull.RedirectFollowed` | loader/main/loader_pull.cpp:151-163 | A 301, 302, 303, 307 or 308 of one of the first three servers is followed where it leads |
| `LoaderPull.AnswerStays` | loader/main/loader_pull.cpp:151-163 | Any other status, 304 with them, and a redirect of the fourth server, is the answer |
| `LoaderPull.BehindRedirects` | loader/main/loader_pull.cpp:144-180 | So a file is delivered from behind up to three redirects, and none from behind a fourth, with any status but 200, or for no URL |
| `LoaderPull.WelcomeIff` | loader/main/loader_pull.cpp:164-178 | A 200 is welcome just when its length fits the slot and the announced size, by itself or with 128 bytes of trailer |
| `LoaderSession.OnlyTheHolderWrites` | loader/main/loader_pull.cpp:226-242 | In every interleaving the slot changes only by the mutex holder, and never while an image is in |
| `LoaderSession.ActivationIsSafe` | loader/main/loader_main.cpp:134-150 | A restart from activate() follows a validation of the slot as it still is, a whole checked image |
| `LoaderSession.NothingElseBoots` | loader/main/loader_main.cpp:115-150 | Over every run in which returnToApp never validates the slot while an upload may still write to it: a restart boots the very version validated last, which is the slot as it was at power-on if it was never written, else a whole checked image |
| `LoaderSession.NoWayBackIff` | loader/main/loader_main.cpp:115-150 | Once the slot was written to, all restarts after a validation end in the whole checked image that was validated just when activate() made it or no upload could still write |
| `LoaderSession.NoBackOverALeftSlot` | loader/main/loader_web.cpp:236-276 | Over every run: where "back" is accepted, or the session goes to the app by itself, the slot is as it was, unless a writer that touched it is still at it |
| `LoaderSession.RefusedIsNotOffered` | loader/main/loader_main.cpp:117-150 | What the bootloader refused is never offered again |
| `LoaderSession.ReturnSpoiledIff` | loader/main/loader_main.cpp:117-130 | After returnToApp validated the slot its restart can end in a blank slot just when an upload is past its check or the phase still lets one by; else each restart boots what was validated |
| `LoaderSession.BackDuringAnUpload` | loader/main/loader_web.cpp:194-208 | A reachable case of that: "back" while an upload has just passed its check |
| `LoaderSession.NeverStuck` | loader/main/loader_main.cpp:160-183 | In a run in which no end bit is lost, serve never waits for an upload that is over |
| `LoaderSession.StuckIff` | loader/main/loader_main.cpp:160-183 | In any state reached without a lost end, an event opens a way to waiting for nothing, on which no further end is lost, just when it sets the end bit between serve's reading of an earlier end and its clearing of it, a start bit having come in since |
| `LoaderSession.CanGetStuck` | loader/main/loader_main.cpp:169-170 | A concrete interleaving in which it waits for nothing |
| `LoaderSession.NotedIsActedOn` | loader/main/loader_main.cpp:160-183 | A noted image, or else a noted "back", gets the session to validate the slot |
| `LoaderSession.PullIsBooted` | loader/main/loader_main.cpp:134-289 | A reachable restart into a downloaded image |
| `LoaderSession.UploadIsBooted` | loader/main/loader_web.cpp:199-263 | The same for an upload after a download that failed |
| `LoaderSession.BackBootsTheApp` | loader/main/loader_main.cpp:117-130 | The same for "back" into the app as it was |
| `PinTable.OthersAreUsers` | lib/ESPRack/include/LockWait.h:160-165 | othersPinned holds just when another task has a pin |
| `PinTable.PinCounts` | lib/ESPRack/include/LockWait.h:68-86 | A pin adds one to that task's pins and changes nobody else's |
| `PinTable.UnpinCounts` | lib/ESPRack/include/LockWait.h:88-99 | An unpin takes one away from that task's pins only |
| `PinTable.PinnedIff` | lib/ESPRack/include/LockWait.h:68-86 | A pin is had exactly of a listed open entry, by a task that has one or as one of two |
| `PinTable.WakesIff` | lib/ESPRack/include/LockWait.h:88-99 | An unpin wakes the closer exactly if nobody else has a pin left |
| `PinTable.Table.Pin` | lib/ESPRack/include/LockWait.h:68-86 | The slot array after a pin is the specified one; no pin of an unknown or closing entry, or beyond two users |
| `PinTable.Table.Unpin` | lib/ESPRack/include/LockWait.h:88-99 | The slot array, the wake answer and the slot index |
| `PinTable.Table.Close` | lib/ESPRack/include/LockWait.h:112-122 | The entry goes, or is closed and its slot returned |
| `PinTable.Table.FirstWith` | lib/ESPRack/include/LockWait.h:152-158 | The loop finds the first entry of that id |
| `PinProtocol.FreedIsUnused` | lib/ESPRack/include/WsManager.h:885-911 | For any tasks: once a client is freed no pin of it succeeds and nobody but the task that frees it has one, unless its bounded wait ran out |
| `PinProtocol.LostIff` | lib/ESPRack/include/WsManager.h:873-911 | For any tasks, however many free clients: a step loses a wake-up just when it clears the bit of a slot for which another task already waits in vain, with no unpin about to set it |
| `PinProtocol.WakeUpsLostIff` | lib/ESPRack/include/WsManager.h:865-911 | Over every run no waiting task is ever without its bit, or the unpin that sets it, just when the run takes no such step |
| `PinProtocol.NoLostWakeUp` | lib/ESPRack/include/WsManager.h:852-911 | Such as every run in which one task frees clients, which is what the firmware does |
| `PinProtocol.TwoClosersCanLoseOne` | lib/ESPRack/include/WsManager.h:908-910 | With two, a concrete run loses a wake-up |
| `PinProtocol.WaitEndsWell` | lib/ESPRack/include/WsManager.h:885-911 | A run in which the wait ends with the last unpin |
| `PinProtocol.GivesUp` | lib/ESPRack/include/WsManager.h:897-910 | A wait that runs out frees the client all the same, marked as late |
| `Restart.OnceAndInOrder` | lib/ESPRack/src/App.cpp:804-877 | In every interleaving each hook runs at most once, in reverse install order and on the one task that claimed them; one flush, one after-shutdown step at most |
| `Restart.FlushComesFirst` | lib/ESPRack/src/App.cpp:904-946 | The after-shutdown step comes after the hooks ended or were given up, and after the flush has ended unless this task's wait for it ran out; the reset comes after the step or the wait for it |
| `Restart.NothingLeftOut` | lib/ESPRack/src/App.cpp:804-946 | Once the hooks are done all have run, the last installed first, unless given up on; once the flush is over it was made; once the after-shutdown step is over it was run unless writes were paused |
| `Restart.HooksThenFlush` | lib/ESPRack/src/App.cpp:804-855 | No module is ticked once the hooks are claimed, they are done only after the flush, and later callers park |
| `Restart.AbandonedStops` | lib/ESPRack/src/App.cpp:817-823 | Hooks that were given up on: not one more is begun |
| `Restart.WholeRestart` | lib/ESPRack/src/App.cpp:804-1022 | For any number of modules a run from the call to the reset |
| `Restart.DeadlineIsLongerIff` | lib/ESPRack/src/App.cpp:879-1022 | The deadline armed with what was put off at the call outlasts the handoff and the grace read after it just when these fit the fixed deadline, or nothing wraps and the later grace is within five seconds of the earlier, in 32 bits |
| `Restart.SavesInBetween` | lib/ESPRack/src/ConfigManager.cpp:318-326 | In saves put off between the two readings: one more is within the margin, two or more just when all fits the fixed deadline |
| `Restart.DeadlineCanBeShort` | lib/ESPRack/src/App.cpp:965-1022 | Ten modules and seven saves put off by their hooks: the deadline is over before the caller's wait |
| `KahnSort.BuildOrder` | lib/ESPRack/src/Builder.cpp:156-202 | Refused just when no order exists (then insertion order); else every module once, after all its needs, and the lexicographically least such order under (priority, id) |
| `KahnSort.NoOrderIffCycle` | lib/ESPRack/src/Builder.cpp:194-201 | With every need installed, no order exists just when some modules need each other in a circle |
| `KahnSort.GreedyIsLeast` | lib/ESPRack/src/Builder.cpp:184-192 | Always taking the least ready module gives the least order |
| `KahnSort.BuildGraph` | lib/ESPRack/src/Builder.cpp:158-169 | The maps hold each module's need count and its dependents, counted with multiplicity |
| `KahnSort.SortAscends` | lib/ESPRack/src/Builder.cpp:171-185 | Sorting by (priority, id) gives an ascending list |
| `KahnSort.BeforeIs` | lib/ESPRack/src/Builder.cpp:171-176 | The lower priority number goes first, and of equal ones the lower id |
| `Ecdsa.Mul` | tools/ota_sign.py:100-108 | Double-and-add is k-fold addition |
| `Ecdsa.SignedVerifies` | tools/ota_sign.py:115-133 | Every signature made verifies, for every private key, digest and random number |
| `Ecdsa.Sign` | tools/ota_sign.py:115-125 | The signature of the first draw that gives one; none of the draws before it does |
| `Ecdsa.Verify` | tools/ota_sign.py:127-133 | Accepts just when the point of the two multiples has r for its x |
| `Ecdsa.GIsOnP256` | tools/ota_sign.py:77-82 | The base point lies on the curve |
| `Ecdsa.ParametersAre` | tools/ota_sign.py:77-80 | The field's prime and the order by their powers of two and the trace |
| `Ecdsa.SmallCurve` | tools/ota_sign.py:85-97 | The addition on a small curve: a double, a sum, opposites |
| `Der.SignatureReadsBack` | tools/ota_sign.py:142-191 | A signature reads back from its DER form, for any two numbers |
| `Der.SignatureFits` | tools/ota_sign.py:149-155 | A P-256 signature takes 8 to 72 bytes |
| `Der.SmallSignature` | tools/ota_sign.py:149-191 | A signature's nine bytes |
| `Der.OnlySignatures` | tools/ota_sign.py:181-191 | Nothing is read as a signature but a sequence, all of the bytes, of two integers |
| `Der.LengthsRead` | tools/ota_sign.py:158-171 | Which forms of a length are read |
| `Der.SignedImageSplits` | tools/ota_sign.py:422-445 | make_trailer never refuses such a signature, and the signed image splits into the image and that signature |
| `Der.ReadItems` | tools/ota_sign.py:174-179 | The loop reads the items of a sequence |
| `Der.IntBytesShortest` | tools/ota_sign.py:153-155 | An integer is encoded positive and in the fewest bytes |
| `SecretsVault.SecretComesBackIff` | lib/ESPRack/include/SecretsVault.h:182-331 | An encrypted secret decrypts to itself, for every IV, just when it is text; else to nothing |
| `SecretsVault.RecordsLookEncrypted` | lib/ESPRack/include/SecretsVault.h:66-80 | Every record has the shape that looksEncrypted tests |
| `SecretsVault.ShapeIs` | lib/ESPRack/include/SecretsVault.h:66-80 | That shape letter by letter |
| `SecretsVault.TextIs` | lib/ESPRack/include/SecretsVault.h:316-324 | Text is all but the bytes below the blank that are no tab or line end |
| `SecretsVault.EncryptsIff` | lib/ESPRack/include/SecretsVault.h:177-190 | What is not empty becomes a record just when encryption is possible; the rest is left |
| `SecretsVault.OnlyTextComesOut` | lib/ESPRack/include/SecretsVault.h:249-331 | Only text comes out of a record, and only out of one with that shape |
| `SecretsVault.PlainPassesThrough` | lib/ESPRack/include/SecretsVault.h:177-250 | What is short or without prefix passes unchanged, also when encryption was not possible |
| `SecretsVault.CbcRoundTrip` | lib/ESPRack/include/SecretsVault.h:225-229 | CBC with any block bijection undoes itself block by block |
| `SecretsVault.UnhexIff` | lib/ESPRack/include/SecretsVault.h:100-115 | Exactly an even number of hexadecimal digits decodes |
| `SecretsVault.HexDecode` | lib/ESPRack/include/SecretsVault.h:100-115 | The loop fills the buffer with the decoded bytes, or says no |
| `SecretsVault.Seal` | lib/ESPRack/include/SecretsVault.h:182-247 | The pad loop and both encodings give the record specified |
| `SecretsVault.Unseal` | lib/ESPRack/include/SecretsVault.h:249-331 | Every check in its order gives the specified answer |
| `TarStream.Send` | lib/ESPRack/include/TarStream.h:29-119 | Whatever the buffer sizes, the pieces together are the reference archive |
| `TarStream.Stream.Fill` | lib/ESPRack/include/TarStream.h:29-119 | Each call ends, gives the next bytes that fit, and gives fewer only at the archive's end |
| `TarStream.Stream.BuildHeader` | lib/ESPRack/include/TarStream.h:130-167 | The header array is the 512-byte reference header |
| `TarStream.WholeRecords` | lib/ESPRack/include/TarStream.h:29-119 | The archive is a multiple of 512 bytes |
| `TarStream.ChecksumReads` | lib/ESPRack/include/TarStream.h:147-159 | The checksum fits six octal digits and is the sum with blanks in its place |
| `TarStream.SizeReads` | lib/ESPRack/include/TarStream.h:143-144 | A size below 2^32 reads back from the header |
| `TarStream.HeaderIs` | lib/ESPRack/include/TarStream.h:130-167 | The header's fixed parts |
| `TarStream.NameIs` | lib/ESPRack/include/TarStream.h:122-141 | The name without leading slashes, with a directory's own, cut to its last 100 bytes |
| `TarStream.MemberIs` | lib/ESPRack/include/TarStream.h:46-92 | What a directory, an empty file, one that does not open and any other come to |
| `WsRoster.CapsHold` | lib/ESPRack/include/WsManager.h:1398-1437 | Over every run live clients stay within the device's cap and each channel's subscribers within its own |
| `WsRoster.PickIsFair` | lib/ESPRack/include/WsManager.h:995-1022 | Who goes is silent, hidden or never said, in this order, the longest of its class; none only if all others are shown |
| `WsRoster.ShownStays` | lib/ESPRack/include/WsManager.h:1268-1283 | A shown client within its pong margin is untouched by another's connect or subscription, its own tab's next socket apart |
| `WsRecords.RecordsAreTrue` | lib/ESPRack/include/WsManager.h:1240-1370 | Over every run from an empty roster a client's record is what it did last: when it was heard of, with and without pongs, what it said of its page and since when, and no channel it did not ask for last |
| `WsRecords.ClassIs` | lib/ESPRack/include/WsManager.h:995-1012 | Dead past the ping's period and five seconds, else hidden, silent or shown by what the page said |
| `WsRoster.FindVictim` | lib/ESPRack/include/WsManager.h:1000-1015 | The one-pass loop with three candidates finds that client |
| `WsRoster.Roster.OnConnect` | lib/ESPRack/include/WsManager.h:1413-1438 | The roster after a connect is the specified one |
| `WsRoster.Roster.OnSub` | lib/ESPRack/include/WsManager.h:1262-1284 | The roster after a subscription is the specified one |
| `WsRoster.Roster.ReplaceTab` | lib/ESPRack/include/WsManager.h:1427-1433 | The live older sockets of the tab are marked, and they alone are listed |
| `WriteAuth.PlainNeedsNoMore` | lib/ESPRack/src/WriteAuth.cpp:13-58 | When the map is not elevated no body needs more than the feature's level |
| `WriteAuth.ElevatedIff` | lib/ESPRack/src/WriteAuth.cpp:13-58 | Elevated just when some body needs more than the feature's level, for tabs of different keys |
| `WriteAuth.RequiredIff` | lib/ESPRack/src/WriteAuth.cpp:74-90 | A level suffices just when it covers the floor, the level of each tab whose envelope is written, and that of each key written |
| `WriteAuth.BodyAllowedIff` | lib/ESPRack/src/WriteAuth.cpp:13-90 | From the form itself: a level suffices just when it covers the floor, the written envelopes' tabs, and for each written key every tab whose form has it |
| `WriteAuth.RequiredGrows` | lib/ESPRack/src/WriteAuth.cpp:74-90 | Touching more never needs less |
| `WriteAuth.FailsClosed` | lib/ESPRack/src/WriteAuth.cpp:52-57 | Built without a form, the map asks at least as much of every body as with any form |
| `WriteAuth.StrictestTab` | lib/ESPRack/src/WriteAuth.cpp:29-49 | A key takes the strictest level of the tabs whose forms have it |
| `WriteAuth.TabLevelIs` | lib/ESPRack/src/WriteAuth.cpp:24-27 | A tab asks for the floor and its own write level, or else the one it is shown at |
| `WriteAuth.BuildRules` | lib/ESPRack/src/WriteAuth.cpp:13-58 | The loops build the map specified |
| `SecretFields.FormTellsNothing` | lib/ESPRack/src/SecretFields.cpp:39-59 | Forms that differ only in secret texts of equal emptiness mask to the same form |
| `SecretFields.FieldShows` | lib/ESPRack/src/SecretFields.cpp:39-46 | A set field whose options begin with "secret;" shows eight stars |
| `SecretFields.SettingsStripped` | lib/ESPRack/src/SecretFields.cpp:79-91 | In the settings envelope the stars are dropped and the rest stays |
| `SecretFields.MaskFormKeepsIff` | lib/ESPRack/src/SecretFields.cpp:39-59 | The form's pass leaves a tree alone just when every secret field in it is empty or holds the mask |
| `SecretFields.FlatTellsIff` | lib/ESPRack/src/SecretFields.cpp:62-68 | Flat states have the same masked reading just when they agree but for secrets, and in which of those are set |
| `SecretFields.WritingBackIff` | lib/ESPRack/src/SecretFields.cpp:39-91 | A state's masked reading, both passes, written back changes nothing just when no secret in it is null, the form's pass finds nothing of its own to mask, and no secret key within the settings already reads as the mask |
| `SecretFields.WritingBackCanChange` | lib/ESPRack/src/SecretFields.cpp:39-91 | A concrete state for each of the three ways |
| `SecretFields.OnlyTheMaskIsDropped` | lib/ESPRack/src/SecretFields.cpp:79-91 | A changed secret is written, the mask never, in the settings envelope neither |
| `FlashSlot.Slot.Rewrite` | loader/main/image_writer.cpp:87-94 | An erase and a write pass through the erased slot and every prefix of the data, or stop before the erase |
| `ImageWriter.Writer.Check` | loader/main/image_writer.cpp:101-126 | Passes just for an acceptable file, with its whole image but the head in the flash |
| `LoaderPull.Reach` | loader/main/loader_pull.cpp:151-163 | Up to three redirects are followed; the answer is the last one's |
| `LoaderPull.Puller.Receive` | loader/main/loader_pull.cpp:181-242 | What becomes of the slot for each outcome, and that the cause told is the one there was |
| `LoaderSession.StepKeeps` | loader/main/loader_main.cpp:117-289 | Every step of either side keeps the mutex, the single claim on an image that is in, and what the slot holds |
| `PinProtocol.StepKeeps` | lib/ESPRack/include/WsManager.h:865-911 | Every step keeps the table true to the pins held, and freed clients unused |
| `SaveBackup.RunKeeps` | lib/ESPRack/src/ConfigManager.cpp:732-814 | Every step of a run keeps its account of what is backed up since the latest request |
| `Restart.StepKeeps` | lib/ESPRack/src/App.cpp:804-1022 | Every step keeps one owner of the hooks, one flush, one after-shutdown step, and their order |
| `KahnSort.StuckMeansCycle` | lib/ESPRack/src/Builder.cpp:194-194 | Nothing ready, not all placed: a circle of needs is found |
| `Der.TlvRead` | tools/ota_sign.py:142-171 | A tag-length-value reads back wherever it stands, in short and long form |
| `SecretsVault.HexRoundTrip` | lib/ESPRack/include/SecretsVault.h:89-115 | Hexadecimal decodes to what was encoded |
| `SecretsVault.PadRoundTrip` | lib/ESPRack/include/SecretsVault.h:197-209 | The padding tells its own length and comes off again |
| `WsRoster.EvictCloses` | lib/ESPRack/include/WsManager.h:1016-1021 | One live client less where the cap was passed, and nowhere more |
| `WriteAuth.Require` | lib/ESPRack/src/WriteAuth.cpp:74-90 | The loop over a body gives the level specified |
| `SecretFields.MaskKeys` | lib/ESPRack/src/SecretFields.cpp:62-68 | The loop masks exactly the secret keys |
| `SecretFields.StripKeys` | lib/ESPRack/src/SecretFields.cpp:80-86 | The loop drops exactly the secrets that carry the mask |

## Left out

- restoreAll (ConfigManager.cpp:575-611) and the raw snapshot restore: writes past the flags, by design of the operator's command.
- Several configuration entries share nothing but locks and the gate, so `ConfigRuns` follows one. `SaveBackup`, over all entries, counts an entry as backed up when its copy and its rename succeeded; what a save may do to the temporary file between the two is in `ConfigRuns` (`SnapRenameSafeIff`).
- The JSON text of a configuration and its CRC: a file is absent, torn or whole.
- ConfigManager.Entry.EnsureLoaded: the save or reset it goes on to is a later event of a run, as it takes the lock again.
- SaveBackup.DoneIsEarned: generations are unbounded here; 2^32 requests within one step of a run are not modelled. The run's marker file is not modelled.
- parseUrl, redirect (http_lite.cpp:27-69) and the request text: whether a URL or a redirect is followed is a parameter of the download. The pull's early refusals in runPull, its attempt counts, pauses and stored results decide whether and when a download starts and what is shown of it; none of them writes to the slot.
- The 64-bit Content-Length is clamped as strtoll does; the numbers of bytes taken from a response stay below 2^32, which is proved and not assumed.
- LoaderSession: Slot content is abstract there (as it was, not bootable, a whole checked image); that a writer leaves just these, the slot as it was included when no erase works, is what `ImageWriter` and `LoaderPull` prove. Network levels and time-outs are events that may always happen.
- PinTable keeps ids and pins; the object pointers are left out.
- Restart: what hooks, the flush and the after-shutdown step do, and real time. An esp_restart of another task in the middle of a restart is a step that resets at once, as in the code.
- KahnSort: ids are numbers in the order of their strings; rejected hardware instances, owners and error texts. Unique ids are required, as duplicates are reported before.
- Ecdsa: that random draws succeed at last; the PEM and key handling of the signing tool.
- The AES, the hash that makes the vault's key, and the build without the vault.
- TarStream: the file system; names are bytes.
- WsRoster: frames, queues, identities, timers of the ping; a refused socket that never got into the roster. Clients are values in a sequence, in id order.
- SecretFields: JSON trees are values, so sharing within a document is not captured; collectFromForm, the list of secret keys, is an input.
- PtrRingQueue, heap diagnostics, the web interface, the manifest, Wi-Fi and sockets.
