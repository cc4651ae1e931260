# Kitsu firmware: durable and wire-facing protocols

A Dafny model of the parts of the Kitsu firmware whose failure a user cannot undo (the Bluetooth firmware updater, the
controller and connection stores, the action ledger) and of the protocols that feed them (framing, envelope, session), with
the clock and the adventure record. `dafny verify dfyconfig.toml` checks everything.

Each component comes twice. A module of functions over values says what every operation does, with each platform call
(flash, storage, randomness, sealing, transport) as a step whose outcome is read from a plan; a plan can make any call fail
or cut the power before, inside or after it. A class in the firmware's own form, with fields, arrays and loops edited in
place, is proved operation by operation to end in the state those functions give. The theorems are about all runs of the
functions, so they hold of the class.

| modules | firmware | what they are about |
|---|---|---|
| Sha256, BleOta, BleOtaProofs, BleOtaRuns, BleOtaAbort, BleOtaJournal, BleOtaReopen, BleOtaCensus, BleOtaTransfer, BleOtaLife, BleOtaUpdater | src/kitsu_ble_ota.cpp | two application slots, an append-only journal in the last sector of each, streaming hash, resume, boot selection |
| DeviceSecurity, DeviceSecurityProofs, DeviceSecurityRevoke, DeviceSecurityStore | src/kitsu_device_security.cpp | two slots of controller roots, revoke and retire |
| ConnectionStore, ConnectionStoreProofs, ConnectionRelay, ConnectionConfig | src/kitsu_connectivity_config.cpp | eight rotating slots, migration, forget |
| ReplayLedger, ReplayCache, JsonString | src/kitsu_ble_action.cpp | at-most-once actions, canonical digest, string decoding |
| FrameParser, Base64Url, Utf8, Envelope, EnvelopeObjects, EnvelopeCodec, EnvelopeIo | src/kitsu_companion_protocol.cpp | frames under fragmentation, codecs, authenticated envelopes |
| Session, SessionProofs, BleSession, PairingRecords | src/kitsu_ble_session.cpp | handshake, physically confirmed pairing down to the stored records, numbered envelopes |
| Calendar, ClockText, KitsuClock | src/kitsu_clock.cpp | civil dates, ISO 8601, the advancing clock |
| Adventure, AdventureProofs, AdventureRuns, AdventureProgression | src/adventure_progression.cpp | the record every adventure operation checks first |

Conventions. Widths are explicit: wrapping subtraction, saturating sums and truncating division are written out. Cryptography
is a parameter (HMAC, HKDF, Ed25519, AEAD, the mixing functions of the adventure), except SHA-256, which is computed. A
sealed record opens only if it was sealed; a torn record fails its checksum, and the adventure's checksum is modelled as the
contents it was computed over. Bytes an interrupted flash call leaves behind are arbitrary. Bootloader states, the running
slot after a reset and all times come from the environment.

## What the proofs found

Places where the code does something its surroundings do not suggest. Each is kept as the code has it; the lemma named gives
the exact condition or a concrete case.

- An interrupted transfer restarts from zero when the running slot claims the boot (`BleOtaRuns.ResumesExactly`).
- An acknowledged abort does not always end a transfer. `BleOtaAbort.AbortClosesExactly` and `AbortClosesUndisturbed` say when
  the journal is closed at that moment; it stays open when the abort finds no header on record or counts by the running
  slot's journal (`StaleAbort`, `StaleAbortExample`).
- A closed journal can open again. `BleOtaReopen.ReopensExactly` says by which events: beside a begin that lands its first record,
  a begin cut in its sector erase (`AbortedTransferReturns`) and an abort that is refused because neither its record nor the
  erase succeeded (`RefusedAbortOpens`, `BleOtaLife.RefusedAbortInOneLife`). Without such an event it stays closed
  (`StaysClosed`).
- A journal can hold a second Abandoned record, only when an abort counted by the running slot's records; and gaps, then or when
  a sector erase was cut (`BleOtaCensus.JournalBound`, `SecondAbandonedExactly`, `GapsExactly`; `AbandonedTwice`,
  `GapByErase` and, from a new device, `BleOtaLife.AbandonedTwiceInOneLife` are such cases).
- A device whose first secure record was torn is never initialised again (`DeviceSecurityProofs.FirstWriteCut`,
  `ServesExactly`, `TornFirstWrite`).
- A pairing that was reported failed but landed survives a revoke-all that reports Ok (`RevokeAllForgets`,
  `UnrevokedPairing`); over whole lives that is the only way (`DeviceSecurityRevoke.RevokeAllOverLives`). It had been confirmed
  all the same (`PairingRecords.ControllersAreConfirmed`).
- A first-version relay record cannot be migrated, since the port it gains is not allowed for a relay
  (`ConnectionRelay.MigratesExactly`, `MigrationExactly`). From then on no reset and no commit reports Ok, and the gateway
  stays stored for ever (`RelayForever`).
- Forget reports Ok and keeps the gateway when the record is still first-version: without any fault exactly for a relay or the
  last generation (`LegacyForget`), and otherwise behind a migration that failed (`ForgetClears`,
  `ForgetKeepsLegacyGateway`).
- The envelope parser accepts exactly the spaced lists of the eight members ended by a brace or by a comma
  (`EnvelopeObjects.ObjectsExactly`, `ClosedExactly`, `Envelope.UnclosedObject`).
- A backoff that follows a broken request does not hold: on the next link one frame restarts the handshake unless two proofs
  had failed, with the stale deadline 0 (`FrameDuringBackoff`, `StaleDeadline`, `BackoffBypassed`). A closing deadline that
  wraps to 0 disables the close timer (`ClosesByTimer`).
- Ending a community-day route after the clock lost trust writes a journal entry the validity predicate rejects, and from then
  on every adventure operation answers InvalidState (`AdventureProofs.StepKeeps`, `Wedged`, `WedgeReachable`).
- Turning location privacy off keeps the zone tokens in the adventure journal (`PrivacyForgets`). Only the last hunt and the
  last expedition counted are remembered, and a rescue does not look at all (`AdventureRuns.CountedAgainExactly`,
  `AlternatingHunts`, `SpentHuntRescues`).

## Model

| member | source | states |
|---|---|---|
| Sha256.Sha256Context.Start | src/kitsu_ble_ota.cpp:407-417 | starting over in place leaves the initial chaining value, nothing absorbed and nothing buffered |
| Sha256.Sha256Context.Transform | src/kitsu_ble_ota.cpp:419-494 | the in-place rounds turn the chaining value into the one section 6.2.2 of FIPS 180-4 defines for the filled block, and empty the block |
| Sha256.Sha256Context.Update | src/kitsu_ble_ota.cpp:496-512 | whatever was absorbed before, the context has now absorbed that followed by the input |
| Sha256.Sha256Context.Finish | src/kitsu_ble_ota.cpp:514-541 | the output is the SHA-256 of everything absorbed, for every length and every position in the block |
| Sha256.PaddingIsMinimal | src/kitsu_ble_ota.cpp:514-541 | the zero fill is the least number of zero octets that leaves the length field at the end of a block |
| Sha256.PaddedInOneBlock | src/kitsu_ble_ota.cpp:514-541 | when marker and length fit behind the waiting octets, one more block completes the padding of section 5.1.1 |
| Sha256.PaddedInTwoBlocks | src/kitsu_ble_ota.cpp:514-541 | otherwise the marker closes one block and the length closes a second, and that is the same padding |
| Sha256.HashPieces | src/kitsu_ble_ota.cpp:407-541 | for every split of a message into update calls the digest is the one-shot digest of the concatenation |
| BleOtaProofs.ScanIsNewest | src/kitsu_ble_ota.cpp:673-713 | the journal scan reports a record with the highest sequence number among the countable ones, and the end of the occupied cells |
| BleOtaProofs.ScanAppended | src/kitsu_ble_ota.cpp:673-713 | a record written behind the last occupied cell with the next number is what the scan reports next |
| BleOtaProofs.CellWritten | src/kitsu_ble_ota.cpp:869-896 | whatever an interrupted journal write leaves behind, a journal whose records are true of flash stays so if the new record is true |
| BleOtaProofs.TailIsFree | src/kitsu_ble_ota.cpp:1297-1326 | no journal record depends on flash at or above the next offset, so erasing and programming there cannot falsify one |
| BleOtaProofs.AppendKeepsStore | src/kitsu_ble_ota.cpp:869-896 | however a checkpoint write ends (success, failed write, failed read back, power cut) both journals stay true of flash |
| BleOtaProofs.AppendIsNewest | src/kitsu_ble_ota.cpp:869-896 | an acknowledged checkpoint is the newest record of its journal |
| BleOtaProofs.ProgramErased | src/kitsu_ble_ota.cpp:1319-1326 | programming erased flash stores exactly the data |
| BleOtaProofs.CompareTrue | src/kitsu_ble_ota.cpp:1003-1020 | a comparison that reports equality saw exactly the expected octets in flash |
| BleOtaProofs.PrepareKeeps | src/kitsu_ble_ota.cpp:898-940 | a new update starts with a journal that describes it and nothing else, or leaves a terminal state |
| BleOtaProofs.BeginKeeps | src/kitsu_ble_ota.cpp:1181-1250 | the begin request keeps the invariant whether it starts, resumes, replays or refuses |
| BleOtaProofs.WriteKeeps | src/kitsu_ble_ota.cpp:1252-1357 | a chunk (fresh, replayed, refused or interrupted) keeps flash, accepted bytes, streaming hash and journal in agreement |
| BleOtaProofs.FinishKeeps | src/kitsu_ble_ota.cpp:1381-1427 | a completion record is written only over bytes whose digest a verified manifest announces |
| BleOtaProofs.AbortKeeps | src/kitsu_ble_ota.cpp:1466-1509 | abandoning keeps both journals true |
| BleOtaProofs.ChooseKeeps | src/kitsu_ble_ota.cpp:716-831 | the decisions after a reset bind the RAM only to what a journal truthfully says |
| BleOtaProofs.BootKeeps | src/kitsu_ble_ota.cpp:593-629 | a reset with any flash faults and any bootloader states keeps the invariant |
| BleOtaProofs.StepKeeps | src/kitsu_ble_ota.cpp:593-1573 | every event (request, chunk, reset, power cut, loop pass) keeps the invariant of both slots, the RAM and the boot log |
| BleOtaProofs.RunKeeps | src/kitsu_ble_ota.cpp:593-1573 | the invariant holds in every run |
| BleOtaRuns.SelectionsAreVerified | src/kitsu_ble_ota.cpp:1381-1457 | in every run, every image ever selected for boot hashes to the digest and has the length of a manifest whose signature was verified |
| BleOtaRuns.ReadyMeansVerified | src/kitsu_ble_ota.cpp:810-828 | in every run, in either slot, a journal whose newest record is Ready sits under an image that matches its header, and that header was signed |
| BleOtaRuns.TransferIsExact | src/kitsu_ble_ota.cpp:1297-1356 | in every run, while receiving, flash below the next offset, the concatenation of the accepted chunks and the bytes the streaming hash absorbed are the same; the erased limit is sector-aligned and not below the offset |
| BleOtaRuns.WriteReceipt | src/kitsu_ble_ota.cpp:1252-1357 | a fresh chunk extends the accepted bytes by itself, a replayed one was there already and changes nothing, a refused one is not accepted |
| BleOtaRuns.AppendedOrNot | src/kitsu_ble_ota.cpp:869-896 | one append behind a matching cursor: acknowledged, the record is the one the journal reader returns; unacknowledged, the reader returns it or the record before it |
| BleOtaRuns.AppendShown | src/kitsu_ble_ota.cpp:673-713 | the exact condition under which the reader returns an acknowledged record |
| BleOtaRuns.ScanPicks | src/kitsu_ble_ota.cpp:673-713 | of several records sharing the highest number the reader reports the first |
| BleOtaRuns.ScanTorn | src/kitsu_ble_ota.cpp:688-694 | a torn record behind the last one hides nothing |
| BleOtaRuns.ResumeIsDurable | src/kitsu_ble_ota.cpp:788-808 | after any reset that resumes, the offset is one whose bytes had been accepted before the cut and are in flash, and the hash has been rebuilt over exactly those |
| BleOtaRuns.ResumesExactly | src/kitsu_ble_ota.cpp:765-808 | whatever cut a transfer, a reset without flash faults goes on with it, at the checkpoint the journal shows, if and only if the inactive journal shows an unfinished one and the running slot does not claim the boot (pending verification, or a Ready journal of its own) |
| BleOtaRuns.CutWriteLeaves | src/kitsu_ble_ota.cpp:1297-1356 | a write cut inside an erase, a program or the checkpoint leaves the journal at the old checkpoint or at the one in flight |
| BleOtaRuns.CutTransferResumes | src/kitsu_ble_ota.cpp:788-808 | the two together: cut inside any write and reset under an unclaimed boot, the transfer goes on at the old checkpoint or at the one in flight |
| BleOtaAbort.AbortClosesExactly | src/kitsu_ble_ota.cpp:1466-1509 | in any state, an acknowledged abort leaves the journal closed if and only if it was closed, or its sector had to be erased, or the record it appended counts and leads all others |
| BleOtaAbort.AbortClosesUndisturbed | src/kitsu_ble_ota.cpp:1466-1509 | the same in terms of the state before, when no flash call fails: such an abort is always acknowledged, and the record is appended if and only if the cursor has a cell and a number left and the cell is blank or holds this very record |
| BleOtaAbort.AbortCloses | src/kitsu_ble_ota.cpp:1466-1509 | an acknowledged abort of a running transfer leaves its journal closed at that moment |
| BleOtaAbort.StaleAbort | src/kitsu_ble_ota.cpp:1466-1509 | where it fails by numbers: after a begin that could not select the running slot on a confirmed boot, exactly when the acknowledged abort closes the other slot's journal |
| BleOtaAbort.StaleAbortExample | src/kitsu_ble_ota.cpp:1466-1509 | such a state: the record shares the number of the last checkpoint and comes behind it, so the transfer still shows |
| BleOtaAbort.AbortedTransferReturns | src/kitsu_ble_ota.cpp:898-920 | a closed journal that opens again, as one run from a new device: after two acknowledged aborts around a cut journal erase the abandoned transfer is being received again |
| BleOtaReopen.OpenIsUncovered | src/kitsu_ble_ota.cpp:673-713 | behind a failed erase a journal is open if and only if its header survived and so did a record that is not Abandoned and leads what is left |
| BleOtaReopen.UncoveredLoses | src/kitsu_ble_ota.cpp:673-713 | a closed journal is uncovered only by losing the Abandoned record that was shown |
| BleOtaReopen.BeginReopens | src/kitsu_ble_ota.cpp:898-940 | a begin opens a closed journal if and only if, in a phase that opens journals, it succeeds, lands its first record, or fails in its erase and uncovers an older one |
| BleOtaReopen.AbortReopens | src/kitsu_ble_ota.cpp:1466-1509 | an abort opens a closed journal if and only if it is refused because neither its record nor the erase succeeded, and an older record is uncovered |
| BleOtaReopen.ReopensExactly | src/kitsu_ble_ota.cpp:593-1573 | for every state the invariant allows, every slot and every event: exactly which events open a closed journal again |
| BleOtaReopen.StaysClosed | src/kitsu_ble_ota.cpp:593-1573 | in every run without such an event a closed journal stays closed and its transfer is never received again |
| BleOtaReopen.RefusedAbortOpens | src/kitsu_ble_ota.cpp:869-896 | the second way, as steps from a confirmed boot: a begin that cannot select the running slot, then a refused abort that programs over the Abandoned record; the abandoned transfer is received again after the next reset |
| BleOtaCensus.GapsExactly | src/kitsu_ble_ota.cpp:593-1573 | for every state the invariant allows and every event: a journal without gaps gets one if and only if the sector erase of a begin or of a refused abort failed and left one, or an accepted abort appends behind a blank cell |
| BleOtaCensus.SecondAbandonedExactly | src/kitsu_ble_ota.cpp:593-1573 | for every state and every event: a second Abandoned record appears if and only if the record of an abort is in its cell beside another one that stayed |
| BleOtaCensus.MixedKeeps | src/kitsu_ble_ota.cpp:593-1573 | in every run, as long as no abort counted by the running slot's records for a journal, an Abandoned record of it is numbered above all others |
| BleOtaCensus.JournalBound | src/kitsu_ble_ota.cpp:673-896 | in every run, for both slots: at most one checkpoint per 64 KiB and one at the start, at most one completion; at most one abandonment unless an abort counted by the running slot's records; no gap unless that happened or an erase was cut; so readable records number at most imageBytes/65536 + 3 |
| BleOtaCensus.AbandonedTwice | src/kitsu_ble_ota.cpp:1466-1509 | a journal with a gap and two abandonments, as steps from a confirmed boot beside a transfer of three checkpoints: failed begin, abort, reset, abort |
| BleOtaCensus.GapByErase | src/kitsu_ble_ota.cpp:898-920 | a gap by the other cause: a begin whose erase blanks the first of two records and keeps the second |
| BleOtaLife.AbandonedTwiceInOneLife | src/kitsu_ble_ota.cpp:593-1573 | a run from a new device that leaves the bound: an update is installed, a second one begun and abandoned, then a begin fails and its abort counts by the first journal; every abort is acknowledged and the journal holds two Abandoned records |
| BleOtaLife.RefusedAbortInOneLife | src/kitsu_ble_ota.cpp:593-1573 | the same life with that abort refused by a write and an erase that fail: the closed journal opens, and the next reset of an unclaimed boot receives the abandoned update again |
| BleOtaJournal.AppendNoted | src/kitsu_ble_ota.cpp:869-896 | one append of a running transfer, whatever becomes of it, leaves the journal showing the last record acknowledged or one in flight, and the cursor behind what it counted |
| BleOtaJournal.AbortNoted | src/kitsu_ble_ota.cpp:1466-1509 | an abort leaves the journal showing its own record or nothing |
| BleOtaJournal.PrepareNoted | src/kitsu_ble_ota.cpp:898-940 | a begin, wherever it stops, leaves the journal showing the new update, nothing, or what it showed |
| BleOtaJournal.BootCursor | src/kitsu_ble_ota.cpp:716-831 | a reset takes its cursor from the journal it goes on with |
| BleOtaJournal.StepNoted | src/kitsu_ble_ota.cpp:593-1573 | every event keeps ledger, journal and cursor of both slots in agreement |
| BleOtaJournal.JournalFollows | src/kitsu_ble_ota.cpp:673-896 | in every run of a new device the journal reader returns the last record acknowledged or one that was in flight when a later call failed; the stated exceptions are a cut sector erase and an abort counted by the other slot's journal, until the sector is erased |
| BleOtaTransfer.FreshChunkAccepted | src/kitsu_ble_ota.cpp:1297-1356 | without flash faults the expected chunk is accepted if and only if the journal has room for the checkpoint it completes, if it completes one |
| BleOtaTransfer.FinishDecidesByFlash | src/kitsu_ble_ota.cpp:1359-1428 | streamed digest and read-back digest ask the same question: without faults finish is acknowledged if and only if the bytes in flash match the manifest, the format checks and the journal has room; then exactly that image is selected |
| BleOtaTransfer.PiecesArrive | src/kitsu_ble_ota.cpp:1252-1357 | without faults every chunk of every splitting of an image is accepted |
| BleOtaTransfer.WholeUpdate | src/kitsu_ble_ota.cpp:1181-1428 | a whole update without faults, from a verified manifest over any chunks to finish, ends ready to reboot with this very image selected for boot |
| BleOtaUpdater.KitsuBleOta.ReadJournal | src/kitsu_ble_ota.cpp:631-714 | in place, step by step: the header read and the cell scan return what the journal function of the slot says, one flash read per record; proved equal to the step the run theorems speak about |
| BleOtaUpdater.KitsuBleOta.AppendCheckpoint | src/kitsu_ble_ota.cpp:869-896 | in place, step by step: the record goes to the next cell with the next number, and the cursor moves only when the read back agrees; proved equal to the step the run theorems speak about |
| BleOtaUpdater.KitsuBleOta.HashPartition | src/kitsu_ble_ota.cpp:981-1001 | in place, step by step: the digest of the first bytes of a slot, streamed in chunks, equals the one-shot digest; a failed read gives none; proved equal to the step the run theorems speak about |
| BleOtaUpdater.KitsuBleOta.ComparePartition | src/kitsu_ble_ota.cpp:1003-1020 | in place, step by step: 256 octets per read, stopping at the first difference; proved equal to the step the run theorems speak about |
| BleOtaUpdater.KitsuBleOta.RebuildPrefixHash | src/kitsu_ble_ota.cpp:962-979 | in place, step by step: the context has absorbed exactly the bytes below the next offset; proved equal to the step the run theorems speak about |
| BleOtaUpdater.KitsuBleOta.PrepareUpdate | src/kitsu_ble_ota.cpp:898-940 | in place, step by step: running slot selected, journal erased, header written and read back, first checkpoint at offset 0, in that order, stopping at the first failure; proved equal to the step the run theorems speak about |
| BleOtaUpdater.KitsuBleOta.BindResumedManifest | src/kitsu_ble_ota.cpp:942-960 | in place, step by step: the resumed offset is taken over only with a hash over the stored prefix; proved equal to the step the run theorems speak about |
| BleOtaUpdater.KitsuBleOta.Begin | src/kitsu_ble_ota.cpp:1181-1250 | in place, step by step: manifest, signature, product and downgrade checks and the choice between replay, resume and restart; proved equal to the step the run theorems speak about |
| BleOtaUpdater.KitsuBleOta.Write | src/kitsu_ble_ota.cpp:1252-1357 | in place, step by step: bounds, replay, erase-ahead, program, read back, absorb, checkpoint; proved equal to the step the run theorems speak about |
| BleOtaUpdater.KitsuBleOta.Finish | src/kitsu_ble_ota.cpp:1359-1428 | in place, step by step: id and completeness checks, streamed digest, read-back digest, image format, Ready record, boot selection; proved equal to the step the run theorems speak about |
| BleOtaUpdater.KitsuBleOta.Reboot | src/kitsu_ble_ota.cpp:1430-1464 | in place, step by step: selects the verified image again before arming the restart; proved equal to the step the run theorems speak about |
| BleOtaUpdater.KitsuBleOta.Abort | src/kitsu_ble_ota.cpp:1466-1509 | in place, step by step: the running slot stays selected and the inactive journal is closed by a record or an erased sector; proved equal to the step the run theorems speak about |
| BleOtaUpdater.KitsuBleOta.LoadExistingState | src/kitsu_ble_ota.cpp:716-831 | in place, step by step: both journals and both boot states decide what the RAM is bound to; proved equal to the step the run theorems speak about |
| BleOtaUpdater.KitsuBleOta.Start | src/kitsu_ble_ota.cpp:593-629 | in place, step by step: an updater fresh from a reset ends in the state the boot step gives; proved equal to the step the run theorems speak about |
| BleOtaUpdater.KitsuBleOta.FinishCriticalInitialization | src/kitsu_ble_ota.cpp:1511-1519 | in place, step by step: an unhealthy start of a pending image rolls back; proved equal to the step the run theorems speak about |
| BleOtaUpdater.KitsuBleOta.Tick | src/kitsu_ble_ota.cpp:1521-1573 | in place, step by step: the confirmation window, the restart deadlines and the restart itself; proved equal to the step the run theorems speak about |
| BleOtaUpdater.KitsuBleOta.Handle | src/kitsu_ble_ota.cpp:1130-1166 | in place, step by step: the dispatch of a request; proved equal to the step the run theorems speak about |
| DeviceSecurityProofs.NextIsAfter | src/kitsu_device_security.cpp:119-122 | the next generation modulo 2^32 is the newer of the two, and never the older, across the wrap too |
| DeviceSecurityProofs.PersistFrame | src/kitsu_device_security.cpp:255-282 | a write never touches the active slot, and the store moves to the other slot exactly when success is reported |
| DeviceSecurityProofs.NewerWins | src/kitsu_device_security.cpp:349-389 | of two valid slots the one a landed write put ahead is what the next reset loads |
| DeviceSecurityProofs.SyncedUnlessAhead | src/kitsu_device_security.cpp:349-389 | the next reset finds what RAM holds, unless a write that was reported failed did land; then it finds that |
| DeviceSecurityProofs.PersistRecovers | src/kitsu_device_security.cpp:255-282 | cut at any step, a write leaves the next reset with what it would have loaded before, the active material or the new one; acknowledged, with the new one |
| DeviceSecurityProofs.OldOrNew | src/kitsu_device_security.cpp:515-662 | any commit or revocation, cut at any storage step, leaves the old material, the new one, or a record that had landed earlier although it was reported failed; without such a record exactly old or new; the new one if it reports Ok |
| DeviceSecurityProofs.ResetRecovers | src/kitsu_device_security.cpp:315-414 | a reset, however often its own repair and migration are cut, does not change what can be recovered; when it succeeds RAM holds exactly that |
| DeviceSecurityProofs.StepEverywhere | src/kitsu_device_security.cpp:315-662 | a property of controller tables that every intended change keeps is kept in RAM and in both slots, whatever fails on the way |
| DeviceSecurityProofs.UniqueKept | src/kitsu_device_security.cpp:515-575 | every intended change keeps a table free of two entries for one controller |
| DeviceSecurityProofs.StepKeeps | src/kitsu_device_security.cpp:315-662 | two valid slots always differ by one generation and RAM mirrors the active slot, after every event |
| DeviceSecurityProofs.RunKeeps | src/kitsu_device_security.cpp:315-662 | the same in every run, power cuts and lost slots included |
| DeviceSecurityProofs.ServesExactly | src/kitsu_device_security.cpp:315-414 | a reset without faults serves if and only if the record it chooses decodes or, with none to choose, both slots are empty |
| DeviceSecurityProofs.FirstWriteCut | src/kitsu_device_security.cpp:255-282 | after the first record of a blank device was cut anywhere, the next reset without faults serves if and only if the cut did not tear it |
| DeviceSecurityProofs.TornFirstWrite | src/kitsu_device_security.cpp:315-414 | a torn slot beside no record is never replaced, whatever fails: no later reset succeeds or writes |
| DeviceSecurityProofs.RetireStores | src/kitsu_device_security.cpp:284-313 | a finished retirement leaves the table of RAM in both slots |
| DeviceSecurityProofs.RevokeForgets | src/kitsu_device_security.cpp:628-662 | a revocation that reports Ok has removed the controller from RAM and from both slots |
| DeviceSecurityProofs.ReplaceStores | src/kitsu_device_security.cpp:589-662 | a replacement of the table that reports Ok leaves the new table in both slots |
| DeviceSecurityProofs.ForgottenForGood | src/kitsu_device_security.cpp:315-662 | once no slot names a controller, no sequence of requests, failed writes, power cuts or lost slots brings it back until it is paired again |
| DeviceSecurityProofs.RevokedForGood | src/kitsu_device_security.cpp:621-662 | the two together over a whole life: after an acknowledged revocation no later reset recovers the controller |
| DeviceSecurityProofs.BlankRuns | src/kitsu_device_security.cpp:315-662 | both from a blank device on: every run keeps the invariant and every acknowledged revocation is for good |
| DeviceSecurityProofs.RevokeAllForgets | src/kitsu_device_security.cpp:589-619 | an acknowledged revoke-all leaves a controller somewhere if and only if RAM had none, no retirement was pending and the slot that is not active holds a record with one |
| DeviceSecurityProofs.UnrevokedPairing | src/kitsu_device_security.cpp:589-619 | where it fails: a pairing that was reported failed but landed survives a revoke-all that reports Ok |
| DeviceSecurityRevoke.StepHands | src/kitsu_device_security.cpp:315-662 | in every event a record that replaces one with a controller has a controller too, or owes the retirement of the one it replaced |
| DeviceSecurityRevoke.RevokeAllOverLives | src/kitsu_device_security.cpp:589-619 | from a blank device on, in every life: an acknowledged revoke-all leaves a controller somewhere if and only if RAM had none, no retirement was owed, and a pairing that was reported failed had landed as a newer record |
| PairingRecords.AsksAreConfirmed | src/kitsu_ble_session.cpp:831-905 | in every trace each commit the store is asked for, whether it is then reported stored or not, used up a physical confirmation of its own, given on that link for that role and id |
| PairingRecords.ControllersAreConfirmed | src/kitsu_ble_session.cpp:831-905 | session and store together, over any number of boots, failed writes that landed, power cuts, resets and lost slots: every controller in RAM or in either slot goes back to a confirmation for its id and role |
| DeviceSecurityStore.KitsuDeviceSecurity.PersistMaterial | src/kitsu_device_security.cpp:255-282 | in place: nonce, seal, write and read back of the inactive slot, then the switch; proved equal to the step the run theorems speak about |
| DeviceSecurityStore.KitsuDeviceSecurity.RetirePreviousSlot | src/kitsu_device_security.cpp:284-313 | in place: the old slot is erased and the pending flag cleared by a further generation; proved equal to the step the run theorems speak about |
| DeviceSecurityStore.KitsuDeviceSecurity.Start | src/kitsu_device_security.cpp:315-414 | in place: both slots are probed, the newer one loaded, repaired or created; proved equal to the step the run theorems speak about |
| DeviceSecurityStore.KitsuDeviceSecurity.FindController | src/kitsu_device_security.cpp:515-575 | in place: the first valid entry of a controller, or none; proved equal to the step the run theorems speak about |
| DeviceSecurityStore.KitsuDeviceSecurity.CommitController | src/kitsu_device_security.cpp:515-575 | in place: own entry, else a free one, else full; RAM goes back when the write fails; proved equal to the step the run theorems speak about |
| DeviceSecurityStore.KitsuDeviceSecurity.RevokeController | src/kitsu_device_security.cpp:628-662 | in place: the entry is removed, written and the previous slot retired; proved equal to the step the run theorems speak about |
| DeviceSecurityStore.KitsuDeviceSecurity.RevokeAllControllers | src/kitsu_device_security.cpp:589-619 | in place: a pending retirement is finished, then an empty table written and retired; proved equal to the step the run theorems speak about |
| ConnectionStoreProofs.SameSlot | src/kitsu_connectivity_config.cpp:1166-1212 | generations a multiple of eight apart belong to the same slot, so rotation ties each generation to one slot |
| ConnectionStoreProofs.WindowIsNarrow | src/kitsu_connectivity_config.cpp:1166-1212 | rotation keeps all stored generations within eight of each other |
| ConnectionStoreProofs.AfterIsGreater | src/kitsu_connectivity_config.cpp:995-998 | near each other, wrapping comparison is comparison of numbers |
| ConnectionStoreProofs.NewestIsGreatest | src/kitsu_connectivity_config.cpp:1110-1130 | the reset scan picks the greatest generation among all slots that open |
| ConnectionStoreProofs.NewerWins | src/kitsu_connectivity_config.cpp:1110-1130 | after a landed write the reset picks it |
| ConnectionStoreProofs.PersistRecovers | src/kitsu_connectivity_config.cpp:1166-1212 | whatever happens to a write the next reset finds what it would have found, the active snapshot or the new one; acknowledged, the new one |
| ConnectionStoreProofs.CommitOldOrNew | src/kitsu_connectivity_config.cpp:1214-1247 | Wi-Fi, gateway and enrollment commits, cut anywhere, leave the active snapshot, the intended one, or one that had landed earlier although it was reported failed; without such a one old or intended; acknowledged, the intended one |
| ConnectionStoreProofs.ScrubRecovers | src/kitsu_connectivity_config.cpp:1249-1322 | scrubbing erases stale snapshots only |
| ConnectionStoreProofs.ForgetOldOrCleared | src/kitsu_connectivity_config.cpp:1249-1322 | a forget cut anywhere leaves the active snapshot, the cleared one, or one that had landed earlier although it was reported failed; without such a one old or cleared, never an earlier generation |
| ConnectionStoreProofs.StepKeeps | src/kitsu_connectivity_config.cpp:1097-1322 | generations stay in the window, each in its slot, and RAM mirrors the active slot, after every event |
| ConnectionStoreProofs.RunKeeps | src/kitsu_connectivity_config.cpp:1097-1322 | the same in every run |
| ConnectionStoreProofs.ForgetClears | src/kitsu_connectivity_config.cpp:1249-1322 | an acknowledged forget leaves the active slot as the only non-empty one of eight with its Wi-Fi; the gateway is gone if and only if RAM showed it or the record had been migrated |
| ConnectionStoreProofs.FreeForGood | src/kitsu_connectivity_config.cpp:1249-1322 | after that the gateway stays gone through resets, cuts, commits and lost slots until one is committed again |
| ConnectionStoreProofs.ResetRecovers | src/kitsu_connectivity_config.cpp:1097-1164 | a reset does not change what the next reset finds, even when its migration is cut |
| ConnectionStoreProofs.FailedMigrationServes | src/kitsu_connectivity_config.cpp:1131-1164 | whatever made the migration of a gateway record fail, a reset that still serves shows no gateway while the first-version record is the active one |
| ConnectionStoreProofs.ForgetKeepsLegacyGateway | src/kitsu_connectivity_config.cpp:1249-1322 | where forget fails: from a device holding one first-version record, forget reports Ok and the gateway is still stored |
| ConnectionRelay.MigratesExactly | src/kitsu_connectivity_config.cpp:660-675 | a valid first-version record stays valid in the current version if and only if it is not a relay's |
| ConnectionRelay.PersistUndisturbed | src/kitsu_connectivity_config.cpp:1166-1212 | without faults a write succeeds if and only if the record is valid when read back, and it is in its slot either way |
| ConnectionRelay.MigrationExactly | src/kitsu_connectivity_config.cpp:1147-1163 | a reset without faults whose newest record is first-version reports Ok if and only if its generation is not the last and it is not a relay; otherwise the store serves from the old record and shows no gateway |
| ConnectionRelay.LegacyForget | src/kitsu_connectivity_config.cpp:1249-1322 | a reset and a forget without faults, for every first-version gateway record: forget reports Ok if and only if the reset did not, for a relay or the last generation, and then the gateway is the one record still stored |
| ConnectionRelay.StepStuck | src/kitsu_connectivity_config.cpp:1097-1322 | from a store whose one record that opens is a first-version relay, every event but the loss of that slot leaves it in place and opens no other slot, and no reset or commit reports Ok |
| ConnectionRelay.RelayForever | src/kitsu_connectivity_config.cpp:1097-1322 | so in every run: the gateway stays stored and is what every reset finds, RAM never shows it, and of requests and resets only forget can report Ok |
| ConnectionConfig.ConnectionConfigStore.LoadSlot | src/kitsu_connectivity_config.cpp:1000-1037 | in place: a slot reads as empty, invalid or one snapshot; proved equal to the step the run theorems speak about |
| ConnectionConfig.ConnectionConfigStore.PersistPlain | src/kitsu_connectivity_config.cpp:1166-1212 | in place: validate, seal, write and read back the next slot, then switch; proved equal to the step the run theorems speak about |
| ConnectionConfig.ConnectionConfigStore.Start | src/kitsu_connectivity_config.cpp:1097-1164 | in place: the scan over eight slots, the choice and the migration; proved equal to the step the run theorems speak about |
| ConnectionConfig.ConnectionConfigStore.StoreWifi | src/kitsu_connectivity_config.cpp:1214-1228 | in place: Wi-Fi changes, gateway and enrollment do not; proved equal to the step the run theorems speak about |
| ConnectionConfig.ConnectionConfigStore.StoreGateway | src/kitsu_connectivity_config.cpp:1230-1247 | in place: a changed gateway drops the enrollment made under the old one; proved equal to the step the run theorems speak about |
| ConnectionConfig.ConnectionConfigStore.StoreEnrollment | src/kitsu_connectivity_config.cpp:1508-1592 | in place: an enrollment only under a gateway it fits; proved equal to the step the run theorems speak about |
| ConnectionConfig.ConnectionConfigStore.ScrubSlots | src/kitsu_connectivity_config.cpp:1290-1318 | in place: the loop over the slots other than the active one, each erased and read back; proved equal to the step the run theorems speak about |
| ConnectionConfig.ConnectionConfigStore.ForgetGateway | src/kitsu_connectivity_config.cpp:1249-1322 | in place: checks, cleared generation, scrub; proved equal to the step the run theorems speak about |
| Base64Url.DecodeEncode | src/kitsu_companion_protocol.cpp:649-733 | decoding an encoding gives the octets back, for all octet strings |
| Base64Url.EncodeDecode | src/kitsu_companion_protocol.cpp:691-733 | every accepted text is the encoding of its octets, so no two texts decode alike (sections 3.5 and 5 of RFC 4648) |
| Base64Url.EncodeInto | src/kitsu_companion_protocol.cpp:655-689 | the loop over three-octet groups writes exactly the encoding, or refuses when the buffer is too small |
| Base64Url.DecodeInto | src/kitsu_companion_protocol.cpp:691-733 | the loop over four-character groups accepts exactly the canonical texts that fit and writes their octets |
| Base64Url.DecodeForUpdate | src/kitsu_ble_ota.cpp:256-296 | the updater's own decoder accepts the same non-empty texts with the same octets |
| Utf8.OnlySpelling | src/kitsu_companion_protocol.cpp:735-774 | what one turn of the validator reads is the encoding of its value: no overlong form, no surrogate |
| Utf8.ValidIsText | src/kitsu_companion_protocol.cpp:735-774 | every accepted text is a concatenation of encodings of allowed scalar values |
| Utf8.TextIsValid | src/kitsu_companion_protocol.cpp:735-774 | and every such concatenation is accepted |
| Utf8.AcceptedTexts | src/kitsu_companion_protocol.cpp:735-774 | the protocol validator accepts exactly the encodings of non-zero scalar values (sections 3 and 4 of RFC 3629), the chat validator exactly those without C0, DEL and C1 |
| Utf8.CheckUtf8 | src/kitsu_companion_protocol.cpp:735-774 | the cursor loop decides that language |
| Utf8.UserTextsAreValid | src/kitsu_chat_contract.cpp:215-260 | whatever the chat validator accepts, the protocol validator accepts |
| Utf8.CheckUserUtf8 | src/kitsu_chat_contract.cpp:215-260 | the chat validator's loop decides its language |
| JsonString.TokensOfSpellings | src/kitsu_ble_action.cpp:67-112 | every sequence of string characters, written out, is read back as itself |
| JsonString.SpellingsOfTokens | src/kitsu_ble_action.cpp:67-112 | and every body that is read is the writing of what was read |
| JsonString.ClosingIsBody | src/kitsu_ble_action.cpp:67-112 | what the scanner delimits is a string body of section 7 of RFC 8259 followed by its quote |
| JsonString.BodyIsClosed | src/kitsu_ble_action.cpp:67-112 | and every body followed by a quote is delimited at that quote |
| JsonString.ParseString | src/kitsu_ble_action.cpp:67-112 | the scanner accepts exactly those and stops behind the closing quote |
| JsonString.DecodedStringBytes | src/kitsu_ble_action.cpp:346-380 | for a scanned string, the number of octets of its unescaped text |
| JsonString.AppendUtf8 | src/kitsu_ble_action.cpp:382-408 | appends the UTF-8 form of a non-zero scalar value, exactly when there is room for it and the terminator |
| JsonString.DecodeString | src/kitsu_ble_action.cpp:410-462 | on success the buffer holds the unescaped text and its terminator, and success is exactly: it fits the buffer and an octet-sized length, it has no NUL, it is valid UTF-8 |
| ReplayLedger.PreimageInjective | src/kitsu_ble_action.cpp:874-911 | on valid commands the hashed form determines the command, field by field |
| ReplayLedger.FreshMeans | src/kitsu_ble_action.cpp:1060-1096 | a command is fresh exactly when it is well formed, time is trusted, it expires within two minutes, and every entry with its id is for another command and has expired |
| ReplayLedger.RememberKeeps | src/kitsu_ble_action.cpp:1098-1136 | remembering changes one free or expired entry and only for a fresh command; unexpired entries and uniqueness of ids survive |
| ReplayLedger.MarkKeeps | src/kitsu_ble_action.cpp:1138-1157 | marking finds exactly a remembered command and changes nothing but the outcome of its entry |
| ReplayLedger.SaveLoad | src/kitsu_ble_action.cpp:1038-1058 | a saved ledger loads as itself |
| ReplayLedger.RunReserves | src/kitsu_ble_action.cpp:1060-1157 | in every run an accepted id stays bound to its command until the stored expiry |
| ReplayLedger.AtMostOnce | src/kitsu_ble_action.cpp:1060-1136 | with trusted time that does not run backwards, an accepted command is never fresh again, across slot reuse, saves and loads |
| ReplayLedger.IdIsReserved | src/kitsu_ble_action.cpp:1060-1136 | and no different command with that id is fresh before the stored expiry |
| ReplayCache.CommandDigest | src/kitsu_ble_action.cpp:874-911 | the field-by-field streaming gives the SHA-256 of the canonical form, and nothing for an invalid command |
| ReplayCache.BleActionReplayCache.Load | src/kitsu_ble_action.cpp:1038-1058 | in place: an image is taken over exactly when it is valid, else the ledger is emptied |
| ReplayCache.BleActionReplayCache.InspectCommand | src/kitsu_ble_action.cpp:1060-1096 | the scan gives the decision the ledger theorems speak about |
| ReplayCache.BleActionReplayCache.RememberCommand | src/kitsu_ble_action.cpp:1098-1136 | in place: the scan for a slot and the write give the ledger step |
| ReplayCache.BleActionReplayCache.MarkCommand | src/kitsu_ble_action.cpp:1138-1157 | in place: the entry of this very command, and no other, becomes applied |
| FrameParser.LengthFrameParser.Begin | src/kitsu_companion_protocol.cpp:503-517 | a parser starts only on a buffer that can hold its largest frame |
| FrameParser.LengthFrameParser.PollFrame | src/kitsu_companion_protocol.cpp:583-590 | in place, begun or not: an unfinished frame is dropped exactly when its time is over |
| FrameParser.LengthFrameParser.FeedBytes | src/kitsu_companion_protocol.cpp:529-581 | in place: a parser that was not begun refuses; otherwise header and payload bytes are stored as they come, and the verdict is the one on all bytes of the frame so far |
| FrameParser.LengthFrameParser.Frame | src/kitsu_companion_protocol.cpp:592-602 | the payload is available exactly once the frame is complete, and is the bytes behind the header |
| FrameParser.EncodeFrame | src/kitsu_companion_protocol.cpp:606-620 | four big-endian length octets and the payload, or the right refusal |
| FrameParser.VerdictOnFrame | src/kitsu_companion_protocol.cpp:529-581 | a proper prefix of a frame asks for more, the frame is ready, anything longer is refused as pipelined |
| FrameParser.RestOfFrame | src/kitsu_companion_protocol.cpp:529-581 | from any point inside a frame the rest of it in any pieces gives NeedMore until the last piece, then Ready |
| FrameParser.AnyFragmentation | src/kitsu_companion_protocol.cpp:529-622 | an encoded frame cut into any non-empty pieces inside the timeout arrives whole, across a wrap of the clock too |
| FrameParser.ExtraBytesRefused | src/kitsu_companion_protocol.cpp:529-581 | bytes beyond a frame are reported as PipelinedFrame and drop it |
| FrameParser.TimeoutExact | src/kitsu_companion_protocol.cpp:529-590 | a frame is given up exactly when a piece or poll comes more than the timeout after its first piece |
| FrameParser.PayloadsArrive | src/kitsu_companion_protocol.cpp:503-622 | any list of payloads survives framing, fragmentation and consumption |
| Envelope.ParseFormat | src/kitsu_companion_protocol.cpp:72-97 | parsing a printed sequence number gives it back |
| Envelope.FormatParse | src/kitsu_companion_protocol.cpp:72-97 | every accepted decimal is the printed form of its value |
| Envelope.ObjectBack | src/kitsu_companion_protocol.cpp:186-234 | a printed object of distinct members, in any order, parses to those members |
| Envelope.UnclosedObject | src/kitsu_companion_protocol.cpp:186-234 | one accepted family that is not an object: complete members that end in a comma instead of the brace |
| EnvelopeObjects.SpelledIsRead | src/kitsu_companion_protocol.cpp:186-234 | every list of distinct members that make up the eight fields, with any white space between tokens, ended by a brace or a comma, is accepted with the values of its members |
| EnvelopeObjects.ReadIsSpelled | src/kitsu_companion_protocol.cpp:186-234 | and every accepted text is such a list |
| EnvelopeObjects.ObjectsExactly | src/kitsu_companion_protocol.cpp:186-234 | the two together: the accepted texts are exactly those |
| EnvelopeObjects.ClosedExactly | src/kitsu_companion_protocol.cpp:186-234 | an accepted text is a closed object if and only if its last octet that is not white space is the brace; otherwise that octet is a comma |
| EnvelopeCodec.TranscriptInjective | src/kitsu_companion_protocol.cpp:442-473 | the authenticated transcript determines every field of the message |
| EnvelopeCodec.EnvelopeFits | src/kitsu_companion_protocol.cpp:776-838 | every envelope fits a frame; 16256 octets are the most there can be |
| EnvelopeCodec.TextIsObject | src/kitsu_companion_protocol.cpp:776-838 | what the printer writes literal by literal is the object of the eight members |
| EnvelopeCodec.EntriesCollect | src/kitsu_companion_protocol.cpp:186-234 | parsing those members yields each of them |
| EnvelopeCodec.DecodeEncoded | src/kitsu_companion_protocol.cpp:776-955 | decoding an encoded envelope under the same key, channel and sequence gives the same operation, nonce, request id and payload |
| EnvelopeCodec.AcceptedIsAuthentic | src/kitsu_companion_protocol.cpp:840-955 | an accepted envelope is for the expected channel and sequence and carries a MAC over exactly the message it yields |
| EnvelopeIo.FormatDecimal | src/kitsu_companion_protocol.cpp:87-97 | digits written backwards come out as the decimal form |
| EnvelopeIo.ReadDecimal | src/kitsu_companion_protocol.cpp:72-85 | accepts exactly the canonical non-zero 64-bit decimals; the overflow test is exact |
| EnvelopeIo.SkipWhitespace | src/kitsu_companion_protocol.cpp:149-155 | the cursor stops at the first octet that is not white space |
| EnvelopeIo.ReadSimpleString | src/kitsu_companion_protocol.cpp:157-170 | a quoted run of plain characters, and where it ends |
| EnvelopeIo.ReadUnsignedToken | src/kitsu_companion_protocol.cpp:172-184 | a run of digits, and where it ends |
| EnvelopeIo.ReadMember | src/kitsu_companion_protocol.cpp:186-234 | one turn of the member loop: key, colon, value, separator, duplicates refused |
| EnvelopeIo.ReadObject | src/kitsu_companion_protocol.cpp:186-234 | the whole loop gives the result of the outer-object grammar |
| EnvelopeIo.OutputWriter.Append | src/kitsu_companion_protocol.cpp:411-440 | a text is appended whole or not at all |
| EnvelopeIo.EncodeEnvelope | src/kitsu_companion_protocol.cpp:776-838 | the buffer holds exactly the envelope text of the message, or the call says why not |
| SessionProofs.StepKeeps | src/kitsu_ble_session.cpp:386-1150 | counters, pending pairing and history agree after every event |
| SessionProofs.RunKeeps | src/kitsu_ble_session.cpp:386-1150 | the same in every trace |
| SessionProofs.TracesAreNumbered | src/kitsu_ble_session.cpp:914-1028 | in every trace the requests of a session are dispatched as 1, 2, 3, ... without gap or repeat, and its envelopes are numbered 1, 2, 3, ... with a response first |
| SessionProofs.PairingsAreConfirmed | src/kitsu_ble_session.cpp:728-912 | in every trace each durable pairing used up a physical confirmation of its own, given on that link, and stored the role it was given for |
| SessionProofs.GrantsFollowTheWindow | src/kitsu_ble_session.cpp:728-829 | a confirmation is recorded only inside an open window, for its role and an unused id |
| SessionProofs.FrameDuringBackoff | src/kitsu_ble_session.cpp:1030-1086 | a frame during backoff restarts the handshake if and only if fewer than two proofs had failed |
| SessionProofs.StaleDeadline | src/kitsu_ble_session.cpp:1030-1086 | that handshake has the stale deadline 0: every frame is a timeout while the clock is in the lower half of its range; in the upper half every frame is taken, and the session closes if and only if the frame fails after two failed proofs |
| SessionProofs.BackoffBypassed | src/kitsu_ble_session.cpp:397-441 | such a handshake is reached in one run of a begun session: handshake, a broken request, a second link refused by the backoff, one more frame |
| SessionProofs.ClosesByTimer | src/kitsu_ble_session.cpp:491-504 | a failed session is closed by its timer if and only if the deadline does not wrap to 0 |
| BleSession.KitsuBleSession.OnSecureLink | src/kitsu_ble_session.cpp:397-417 | in place: a new link starts clean or is refused during backoff; proved equal to the step the trace theorems speak about |
| BleSession.KitsuBleSession.OnLinkClosed | src/kitsu_ble_session.cpp:419-441 | in place: secrets and pending pairing go, an expired window closes; proved equal to the step the trace theorems speak about |
| BleSession.KitsuBleSession.SetPairingWindow | src/kitsu_ble_session.cpp:443-463 | in place: the role of the window and the fate of a pending pairing; proved equal to the step the trace theorems speak about |
| BleSession.KitsuBleSession.RefuseProof | src/kitsu_ble_session.cpp:474-489 | in place: counts a failed proof and, at the third, backs off; proved equal to the step the trace theorems speak about |
| BleSession.KitsuBleSession.ClientHello | src/kitsu_ble_session.cpp:506-562 | in place: controller, nonce and proof of the device; proved equal to the step the trace theorems speak about |
| BleSession.KitsuBleSession.ClientAuth | src/kitsu_ble_session.cpp:564-627 | in place: the proof of the client, the keys and the session counters; proved equal to the step the trace theorems speak about |
| BleSession.KitsuBleSession.RequestPairing | src/kitsu_ble_session.cpp:629-705 | in place: version, window and the pending pairing; proved equal to the step the trace theorems speak about |
| BleSession.KitsuBleSession.ConfirmPairing | src/kitsu_ble_session.cpp:728-829 | in place: a fresh id and root after the physical confirmation; proved equal to the step the trace theorems speak about |
| BleSession.KitsuBleSession.CommitPairing | src/kitsu_ble_session.cpp:831-912 | in place: the proof, the durable commit and the answer; proved equal to the step the trace theorems speak about |
| BleSession.KitsuBleSession.SendAuthenticated | src/kitsu_ble_session.cpp:914-935 | in place: numbers an envelope only when it was sent; proved equal to the step the trace theorems speak about |
| BleSession.KitsuBleSession.AuthenticatedEnvelope | src/kitsu_ble_session.cpp:937-1028 | in place: counts a request before it is executed; proved equal to the step the trace theorems speak about |
| BleSession.KitsuBleSession.EmitEvent | src/kitsu_ble_session.cpp:1137-1150 | in place: no event before the first response; proved equal to the step the trace theorems speak about |
| BleSession.KitsuBleSession.ReceiveFrame | src/kitsu_ble_session.cpp:1030-1086 | in place: deadline, dispatch by phase and failure; proved equal to the step the trace theorems speak about |
| BleSession.KitsuBleSession.RunLoop | src/kitsu_ble_session.cpp:1088-1126 | in place: timers of handshake, pairing, session and closing; proved equal to the step the trace theorems speak about |
| Calendar.DaysCount | src/kitsu_clock.cpp:55-69 | the closed formula gives the number of days counted one by one with month lengths and leap years |
| Calendar.NextDay | src/kitsu_clock.cpp:38-69 | the day after has the next number |
| Calendar.CivilOfDays | src/kitsu_clock.cpp:71-94 | the date formula, with its year stored in 16 bits, undoes it on a valid date if and only if the year fits |
| Calendar.DaysOfCivil | src/kitsu_clock.cpp:71-94 | and is undone by it on every day of the years 0 to 65535 |
| Calendar.CountedIsCivil | src/kitsu_clock.cpp:38-94 | counting day by day and the closed formula give the same date, up to the last day whose year fits |
| Calendar.UnixRoundTrip | src/kitsu_clock.cpp:96-132 | an instant turned into local fields, for any accepted offset, and back is the same instant, up to the end of year 65535 |
| Calendar.CivilRoundTrip | src/kitsu_clock.cpp:96-132 | local fields turned into an instant and back are the same fields |
| ClockText.YearsFit | src/kitsu_clock.cpp:115-132 | local years of representable instants have four digits |
| ClockText.TextFits | src/kitsu_clock.cpp:550-625 | every instant and offset fits the documented buffer |
| ClockText.ParseFormat | src/kitsu_clock.cpp:465-625 | parsing a printed instant gives exactly its second, millisecond and offset |
| ClockText.ParsedIsValid | src/kitsu_clock.cpp:465-548 | whatever parses is a representable instant in a valid offset |
| KitsuClock.RunIsSound | src/kitsu_clock.cpp:222-376 | in every run the clock shows a representable instant or nothing |
| KitsuClock.SampleIsExact | src/kitsu_clock.cpp:323-362 | a sample adds exactly the time since the last one |
| KitsuClock.SamplesAddUp | src/kitsu_clock.cpp:323-362 | however often it is read and the counter wraps, no millisecond is lost or gained |
| KitsuClock.TrustLost | src/kitsu_clock.cpp:323-362 | trust is lost if and only if the counter jumped or the last representable instant was passed |
| KitsuClock.StaleStaysStale | src/kitsu_clock.cpp:422-440 | a restored time is not trusted until it is set again |
| KitsuClock.Cursor.ParseDigits | src/kitsu_clock.cpp:134-143 | reads exactly that many digits and their value, or nothing |
| KitsuClock.Cursor.ParseFraction | src/kitsu_clock.cpp:484-500 | an optional fraction of one to three digits, scaled to milliseconds |
| KitsuClock.Cursor.ParseZone | src/kitsu_clock.cpp:502-520 | Z or a signed offset up to fourteen hours |
| KitsuClock.ParseIso8601 | src/kitsu_clock.cpp:465-548 | the cursor parser accepts exactly the texts of the profile, with the same values |
| KitsuClock.WallClock.SetAnchor | src/kitsu_clock.cpp:222-248 | in place: a direct source and a representable instant set the clock, anything else leaves it |
| KitsuClock.WallClock.AdvanceTo | src/kitsu_clock.cpp:323-362 | in place: the step the run theorems speak about, range checks before the addition included |
| KitsuClock.WallClock.SetFromText | src/kitsu_clock.cpp:250-265 | in place: source, text and range are checked in that order |
| AdventureProofs.PushLists | src/adventure_progression.cpp:231-236 | pushing on a ring puts the new element first and drops the oldest of a full one |
| AdventureProofs.LogPushed | src/adventure_progression.cpp:179-198 | the journal stays well formed exactly when the new entry is |
| AdventureProofs.VisitKeeps | src/adventure_progression.cpp:600-637 | zones stay distinct, visited and packed |
| AdventureProofs.VisitMeans | src/adventure_progression.cpp:600-637 | a visit touches one slot; it evicts only when all five are taken by others, and then one of the least visited |
| AdventureProofs.SetPrivacyKeeps | src/adventure_progression.cpp:520-549 | changing privacy keeps the record valid in every phase |
| AdventureProofs.ObserveKeeps | src/adventure_progression.cpp:600-663 | an observed zone keeps the record valid |
| AdventureProofs.BeginKeeps | src/adventure_progression.cpp:713-809 | beginning a route keeps the record valid |
| AdventureProofs.FinalizeKeeps | src/adventure_progression.cpp:1014-1025 | writing a route away keeps the record valid if and only if a community day can be dated |
| AdventureProofs.StepKeeps | src/adventure_progression.cpp:356-1100 | every operation takes a valid record to a valid one, except exactly: ending a community-day route with an untrusted clock |
| AdventureProofs.RunKeeps | src/adventure_progression.cpp:356-1100 | a run keeps the record usable if and only if no end in it is of that kind |
| AdventureProofs.Wedged | src/adventure_progression.cpp:356-1100 | an invalid record refuses every operation for ever |
| AdventureProofs.WedgeReachable | src/adventure_progression.cpp:356-1100 | three ordinary operations from a reset record reach that state |
| AdventureProofs.JournalRecords | src/adventure_progression.cpp:985-1025 | a returning route, and nothing else, is put in front of the journal; older entries do not change |
| AdventureProofs.PrivacyForgets | src/adventure_progression.cpp:520-549 | a change of privacy forgets current zone, home, visited zones and distances, and beside those touches only the target; afterwards the record names a zone if and only if a journal entry carries a zone token |
| AdventureProofs.SpentHuntRescues | src/adventure_progression.cpp:943-1065 | a hunt that was the last to count is refused as company but accepted as a rescue |
| AdventureRuns.NotAllRefused | src/adventure_progression.cpp:216-229 | a history of four cannot refuse five variants |
| AdventureRuns.Searched | src/adventure_progression.cpp:763-771 | the search ends on a used variant only if all it tried were used |
| AdventureRuns.ChosenIsFresh | src/adventure_progression.cpp:763-771 | the route begun differs from each of the last four in terrain, objective or variant |
| AdventureRuns.RunTells | src/adventure_progression.cpp:713-1100 | in every run without undated ends: any five routes in a row differ, chain depth counts the unbroken successes with the same key, the stored target is the one company and home call for, and commute-safe routes take no risk |
| AdventureRuns.CountedAgainExactly | src/adventure_progression.cpp:922-1065 | in every run, exactly which accepted steps count a hunt or expedition that was counted before: company or an expedition counted before but not last, and any rescue by a hunt counted before |
| AdventureRuns.CountedOnce | src/adventure_progression.cpp:922-1065 | in a run every hunt and expedition counts once if and only if no such step is taken |
| AdventureRuns.AlternatingHunts | src/adventure_progression.cpp:943-958 | two valid hunts in turn count three times on an active route |
| AdventureRuns.PaidOncePerDay | src/adventure_progression.cpp:684-701 | while trusted days do not go backwards every community day pays at most once, across routes and hotspots |
| AdventureProgression.AdventureProgression.RestoreFrom | src/adventure_progression.cpp:509-518 | in place: magic, then schema, then validity decide, and a refused record changes nothing |
| AdventureProgression.AdventureProgression.RecalculateTarget | src/adventure_progression.cpp:811-866 | in place: the adjustments one at a time and the clamps give the target function of the record |
| AdventureProgression.AdventureProgression.FindSlot | src/adventure_progression.cpp:606-628 | the loops find the zone's own slot, a free one, or the first of the least visited |
| AdventureProgression.AdventureProgression.PickVariant | src/adventure_progression.cpp:763-771 | the loop over attempts gives the variant `ChosenIsFresh` is about |
| AdventureProgression.AdventureProgression.AppendJournal | src/adventure_progression.cpp:985-1012 | in place: one entry drawn from the record is pushed |
| AdventureProgression.AdventureProgression.JournalNewest | src/adventure_progression.cpp:1139-1147 | the index arithmetic gives the entries newest first |
| AdventureProgression.AdventureProgression.SetPrivacyMode | src/adventure_progression.cpp:520-549 | in place: mode, salt and everything about places; proved equal to the operation the run theorems speak about |
| AdventureProgression.AdventureProgression.SetHomeZone | src/adventure_progression.cpp:551-562 | in place: the home zone and the target; proved equal to the operation the run theorems speak about |
| AdventureProgression.AdventureProgression.ObserveCoarseZone | src/adventure_progression.cpp:564-576 | in place: privacy checks and the zone; proved equal to the operation the run theorems speak about |
| AdventureProgression.AdventureProgression.ObservePreciseTransient | src/adventure_progression.cpp:578-598 | in place: privacy and range checks and the mixed zone token; proved equal to the operation the run theorems speak about |
| AdventureProgression.AdventureProgression.MeetHotspot | src/adventure_progression.cpp:665-711 | in place: duplicate, visit and bonus; proved equal to the operation the run theorems speak about |
| AdventureProgression.AdventureProgression.BeginRoute | src/adventure_progression.cpp:713-809 | in place: checks, chain, seed, variant, every route field and history; proved equal to the operation the run theorems speak about |
| AdventureProgression.AdventureProgression.Steps | src/adventure_progression.cpp:868-878 | in place: saturating steps; proved equal to the operation the run theorems speak about |
| AdventureProgression.AdventureProgression.TakeDecision | src/adventure_progression.cpp:880-920 | in place: limit, branch code, points and early return; proved equal to the operation the run theorems speak about |
| AdventureProgression.AdventureProgression.CompleteExpedition | src/adventure_progression.cpp:922-941 | in place: points unless the expedition was the last one counted; proved equal to the operation the run theorems speak about |
| AdventureProgression.AdventureProgression.CompleteParty | src/adventure_progression.cpp:943-958 | in place: company and target unless the hunt was the last one counted; proved equal to the operation the run theorems speak about |
| AdventureProgression.AdventureProgression.CompleteEncounter | src/adventure_progression.cpp:960-983 | in place: points once per rising operation; proved equal to the operation the run theorems speak about |
| AdventureProgression.AdventureProgression.FinishRoute | src/adventure_progression.cpp:1027-1049 | in place: early return, complete, waiting for rescue or partial; proved equal to the operation the run theorems speak about |
| AdventureProgression.AdventureProgression.RescueRoute | src/adventure_progression.cpp:1051-1065 | in place: the rescue and its journal entry; proved equal to the operation the run theorems speak about |
| AdventureProgression.AdventureProgression.AcknowledgeRoute | src/adventure_progression.cpp:1067-1100 | in place: back to idle; proved equal to the operation the run theorems speak about |

## Left out

- NimBLE, GATT, Arduino, ESP-IDF and Preferences calls, and the concrete platform adapters at the end of
  src/kitsu_ble_ota.cpp: each call is a step with an outcome.
- Cryptographic strength, secret wiping and constant-time comparison: not functional properties.
- Checksum values and byte layouts of stored structures: a record is intact or torn. Magic, length and schema fields are kept
  only for the adventure record; the connection snapshot is a record of its regions.
- The grammars of the update manifest and of update requests (release ids, versions, hexadecimal ids): a parsed request or
  none.
- The order in which the bootloader reports states across resets: any state can be reported at any reset.
- Status texts, receipt texts and error names beyond which error is reported.
- Field grammars of Wi-Fi and gateway settings, certificates and enrollment transport: predicates of the environment.
- `commitMobileRelayGateway`'s shortcut for a repeated commit, `copyWifi`, `copyGateway` and credential leases: lookups.
- Key derivation and lookups of the controller store (`deriveJournalKey`, `controllerAt`, `findControllerRoot`).
- The JSON grammar of action commands and the kinds' parameters: the digest starts from a decoded command.
- The second software SHA-256 in src/kitsu_ble_action.cpp: the ledger uses the one modelled from the updater, which computes
  the same function.
- The validator of the JSON inside an envelope: a predicate, since only its determinism matters for the round trip.
- The syntax of session control frames and handshake transcripts: a frame is parsed or not, a proof is right or not.
- Session frames before `begin`, and status reporting.
- `parseUnixText` (a decimal reader like the envelope's), clock snapshots as bytes (a checksum over the anchor that
  `Restore` takes as intact or not) and the one-button editor (menu state on the device; the time it yields enters by
  `SetAnchor`): no property of the running clock depends on how they arrive at their value.
- The mixing functions of adventure routes and zone tokens: any function of the same inputs, with the same replacement of
  zero. The source combines the inputs by exclusive or before mixing, which is one such function.
- The output structures of the adventure's location and hotspot calls, `view`, postcard texts and mood tables: they restate
  fields of the record.
- src/kitsu_connectivity_runtime.cpp, src/kitsu_controller_permissions.cpp, src/kitsu_ble_bond_recovery.h,
  src/companion_fun.cpp and src/companion_dialogue.cpp: tables and short branches.
- DecodeString: is stated for the strings `ParseString` delimits, the only ones it is called on; its own guards against other
  spans are not modelled.
- DecodedStringBytes: the same.
- JournalFollows: starts from a device whose journals are unused and promises nothing of a slot between a cut erase of its
  journal sector, or an abort counted by the other journal, and the next erase of that sector.
- ControllersAreConfirmed: takes the store's pairings to be commits of the sessions, in any order and number; that a session's
  commit and the store's answer to it happen at the same time is not modelled.
