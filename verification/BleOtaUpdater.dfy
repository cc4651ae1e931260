/** The updater in its own form: one object whose fields each handler changes step by step, with a streaming hash that
    lives across requests.  Every method is proved to be one function of the state machine. */
module BleOtaUpdater {
  import opened Bytes
  import opened BleOta
  import opened Sha256
  import opened BleOtaProofs

  /** `device` is what the platform's calls act on. */
  class KitsuBleOta {
    const crypto: Crypto
    const prefixHash: Sha256Context
    var device: Device
    var phase: Phase
    var running: nat
    var target: Target
    var manifestLoaded: bool
    var journal: Cursor
    var nextOffset: nat
    var persistedOffset: nat
    var erasedThrough: nat
    var prefixHashReady: bool
    var misc: Misc
    ghost var audit: Audit

    ghost function Absorbed(): Option<seq<byte>>
      reads this, prefixHash
    {
      if prefixHashReady then Some(prefixHash.absorbed) else None
    }

    ghost function Now(): State
      reads this, prefixHash
    {
      State(device,
            Ram(phase, running, target, manifestLoaded, journal, nextOffset, persistedOffset, erasedThrough, Absorbed(), misc),
            audit)
    }

    /** The hash in use is SHA-256, and a prefix hash marked ready is a well-formed context. */
    ghost predicate Valid()
      reads this, prefixHash, prefixHash.state, prefixHash.block
    {
      && (forall m :: crypto.digest(m) == Hash(m))
      && prefixHash.Shape() && (prefixHashReady ==> prefixHash.Valid())
      && Shape(Now())
    }

    constructor (crypto: Crypto, device: Device, running: nat, version: Version, audit: Audit)
      requires DeviceShape(device) && running < 2 && |audit.accepted| == 2 && forall m :: crypto.digest(m) == Hash(m)
      ensures Valid() && Now() == State(device, FreshRam(running, version), audit)
      ensures fresh(prefixHash) && fresh(prefixHash.state) && fresh(prefixHash.block)
    {
      hide Hash;
      this.crypto, this.device, this.running, this.audit := crypto, device, running, audit;
      prefixHash := new Sha256Context();
      phase, target, manifestLoaded, journal := Idle, NO_TARGET, false, NO_CURSOR;
      nextOffset, persistedOffset, erasedThrough, prefixHashReady := 0, 0, 0, false;
      misc := FreshRam(0, version).misc;
    }

    // ----- flash -----

    /** One read of the platform. */
    method Read() returns (ok: bool)
      modifies this`device
      ensures (device, ok) == (Call(old(device)).0, Call(old(device)).1.Done?)
    {
      var (d, o) := Call(device);
      device := d;
      ok := o.Done?;
    }

    method ReadCells(i: nat, imageBytes: nat) returns (scan: Option<Scan>)
      requires DeviceShape(device) && i < 2
      modifies this`device
      ensures var (d, all) := Reads(old(device), CAPACITY);
        device == d && scan == if all then Some(ScanCells(old(device).slots[i].cells, imageBytes, CAPACITY)) else None
    {
      hide Call;
      ghost var start := device;
      var found, sequence, mark, offset, lastOccupied := false, 0, InProgress, 0, 0;
      var slot := 0;
      while slot < CAPACITY
        invariant 0 <= slot <= CAPACITY && device.slots == start.slots
        invariant Reads(start, slot) == (device, true)
        invariant Scan(found, sequence, mark, offset, lastOccupied) == ScanCells(start.slots[i].cells, imageBytes, slot)
      {
        var ok := Read();
        if !ok {
          StopsAt(start, slot + 1, CAPACITY);
          return None;
        }
        var record := device.slots[i].cells[slot];
        slot := slot + 1;
        if record.Blank? { continue; }
        lastOccupied := slot;
        if !Counts(record, imageBytes) || (found && record.sequence <= sequence) { continue; }
        found, sequence, mark, offset := true, record.sequence, record.mark, record.offset;
      }
      scan := Some(Scan(found, sequence, mark, offset, lastOccupied));
    }

    /** `readJournal`. */
    method ReadJournal(i: nat) returns (journal: Option<Option<Scan>>)
      requires DeviceShape(device) && i < 2
      modifies this`device
      ensures (device, journal) == BleOta.ReadJournal(old(device), i)
    {
      hide Call, Counts, ScanCells;
      ghost var start := device;
      var header := device.slots[i].header;
      var ok := Read();
      assert Reads(start, 0) == (start, true);
      assert Reads(start, 1) == (device, ok);
      if !ok { return None; }
      if !HeaderUsable(header) { return Some(None); }
      var scan := ReadCells(i, header.imageBytes);
      if scan == None { return None; }
      journal := Some(if scan.value.found then Some(scan.value) else None);
    }

    /** Streams `[0, n)` of a slot into a context, one chunk per read. */
    method Stream(context: Sha256Context, i: nat, n: nat) returns (ok: bool)
      requires DeviceShape(device) && i < 2 && n <= IMAGE_MAX && context.Valid() && context.absorbed == []
      modifies this`device, context, context.state, context.block
      ensures (device, ok) == Reads(old(device), ChunkReads(n))
      ensures ok ==> context.Valid() && context.absorbed == device.slots[i].payload[..n]
    {
      hide Call, Hash, ChunkReads, Sha256Context.Valid;
      ghost var start, k := device, 0;
      var offset := 0;
      while offset < n
        invariant device.slots == start.slots && Reads(start, k) == (device, true) && context.Valid()
        invariant offset == (if k * CHUNK < n then k * CHUNK else n) && k <= ChunkReads(n)
        invariant context.absorbed == start.slots[i].payload[..offset]
      {
        var bytes := if n - offset < CHUNK then n - offset else CHUNK;
        ok := Read();
        ChunkCount(k, n);
        if !ok {
          StopsAt(start, k + 1, ChunkReads(n));
          return;
        }
        var payload := device.slots[i].payload;
        assert payload[..offset + bytes] == payload[..offset] + payload[offset..offset + bytes];
        context.Update(payload[offset..offset + bytes]);
        offset, k := offset + bytes, k + 1;
      }
      ok := true;
      ChunksDone(k, n);
    }

    /** `hashPartition`. */
    method HashPartition(i: nat, n: nat) returns (digest: Option<Digest>)
      requires Valid() && i < 2 && n <= IMAGE_MAX
      modifies this`device
      ensures (device, digest) == HashSlot(crypto, old(device), i, n)
    {
      hide Hash, ChunkReads, Reads;
      var context := new Sha256Context();
      var ok := Stream(context, i, n);
      if !ok { return None; }
      var output := context.Finish();
      digest := Some(output);
    }

    /** `comparePartition`. */
    method ComparePartition(offset: nat, expected: seq<byte>) returns (same: bool)
      requires DeviceShape(device) && offset + |expected| <= IMAGE_MAX
      modifies this`device
      ensures (device, same) == Compare(old(device), if running == 0 then 1 else 0, offset, expected, 0)
    {
      hide Call;
      ghost var start := device;
      var i := if running == 0 then 1 else 0;
      var compared := 0;
      while compared < |expected|
        invariant 0 <= compared <= |expected| && device.slots == start.slots
        invariant Compare(start, i, offset, expected, 0) == Compare(device, i, offset, expected, compared)
      {
        var bytes := if |expected| - compared < 256 then |expected| - compared else 256;
        var ok := Read();
        if !ok || device.slots[i].payload[offset + compared..offset + compared + bytes] != expected[compared..compared + bytes] {
          return false;
        }
        compared := compared + bytes;
      }
      same := true;
    }

    // ----- replies -----

    method EncodeReceipt(ok: bool, replayed: bool, scheduled: bool) returns (receipt: Receipt)
      ensures receipt == MakeReceipt(Now(), ok, replayed, scheduled)
    {
      var error := misc.error;
      if ok && phase != Failed { error := None; }
      if !ok && error == None { error := Some(InternalError); }
      receipt := Receipt(ok, replayed, scheduled, error);
    }

    /** `fail` followed by the negative receipt. */
    method Refuse(error: Error, terminal: bool) returns (receipt: Receipt)
      requires Valid()
      modifies this`misc, this`phase
      ensures Valid() && (Now(), receipt) == if terminal then RejectTerminal(old(Now()), error) else Reject(old(Now()), error)
    {
      misc := misc.(error := Some(error));
      if terminal { phase := Failed; }
      receipt := EncodeReceipt(false, false, false);
    }

    // ----- the journal and the boot selection -----

    /** `appendCheckpoint`. */
    method AppendCheckpoint(mark: Mark, offset: nat) returns (ok: bool)
      requires Valid()
      modifies this`device, this`journal, this`persistedOffset
      ensures Valid() && (Now(), ok) == Append(old(Now()), mark, offset)
    {
      hide WriteCell, Hash;
      if !journal.headerReady || journal.nextSlot >= CAPACITY || journal.sequence == SEQUENCE_MAX || offset > target.imageBytes {
        return false;
      }
      var sequence := journal.sequence + 1;
      var inactive := if running == 0 then 1 else 0;
      var (written, verified) := WriteCell(device, inactive, journal.nextSlot, Record(sequence, mark, offset));
      device := written;
      if !verified { return false; }
      journal := journal.(sequence := sequence, nextSlot := journal.nextSlot + 1);
      persistedOffset := offset;
      ok := true;
    }

    method SelectRunning() returns (ok: bool)
      requires Valid()
      modifies this`device
      ensures Valid() && (device, ok) == SelectSlot(old(device), running)
    {
      hide Hash;
      var (selected, done) := SelectSlot(device, running);
      device := selected;
      ok := done;
    }

    /** `setBootPartition(inactive_)`. */
    method SelectUpdate() returns (ok: bool)
      requires Valid()
      modifies this`device
      ensures Valid() && (Now(), ok) == SelectInactive(old(Now()))
    {
      hide Hash;
      var inactive := if running == 0 then 1 else 0;
      var log := device.log;
      if device.alive {
        log := log + [Selection(device.slots[inactive].payload[..target.imageBytes], target.sha)];
      }
      var (selected, done) := SelectSlot(device, inactive);
      device := selected.(log := log);
      ok := done;
    }

    // ----- begin -----

    /** `rebuildPrefixHash`. */
    method RebuildPrefixHash() returns (ok: bool)
      requires Valid()
      modifies this`device, this`prefixHashReady, prefixHash, prefixHash.state, prefixHash.block
      ensures Valid() && (Now(), ok) == RebuildPrefix(old(Now()))
    {
      hide Hash, ChunkReads, Reads;
      prefixHash.Start();
      ok := Stream(prefixHash, if running == 0 then 1 else 0, nextOffset);
      prefixHashReady := ok;
    }

    method OpenInactiveJournal(header: Header) returns (failure: Option<Error>)
      requires Valid()
      modifies this`device, this`journal, this`audit
      ensures Valid() && (Now(), failure) == OpenJournal(old(Now()), header)
    {
      hide EraseJournal, WriteHeader, SelectSlot, Hash;
      var inactive := if running == 0 then 1 else 0;
      var selected := SelectRunning();
      if !selected { return Some(BootSelectFailed); }
      var (erased, done) := EraseJournal(device, inactive);
      device := erased;
      if !done { return Some(FlashEraseFailed); }
      audit := SetAccepted(audit, inactive, []);
      journal := NO_CURSOR;
      var (headed, verified) := WriteHeader(device, inactive, header);
      device := headed;
      failure := if verified then None else Some(JournalFailed);
    }

    /** Takes over an update and its journal position. */
    method BindTarget(update: Target, cursor: Cursor, offset: nat)
      requires Valid() && offset <= update.imageBytes <= IMAGE_MAX
      modifies this`target, this`journal, this`nextOffset, this`persistedOffset
      ensures Valid()
      ensures Now() == old(Now()).(r := old(Now()).r.(target := update, journal := cursor, nextOffset := offset, persistedOffset := offset))
    {
      hide Hash;
      target, journal, nextOffset, persistedOffset := update, cursor, offset, offset;
    }

    /** Nothing is absorbed yet and the next chunk is expected. */
    method EnterReceiving()
      requires Valid()
      modifies this`prefixHashReady, this`manifestLoaded, this`misc, this`phase, prefixHash, prefixHash.state, prefixHash.block
      ensures Valid()
      ensures Now() == old(Now()).(r := old(Now()).r.(prefix := Some([]), manifestLoaded := true, phase := Receiving,
                                                      misc := old(Now()).r.misc.(resumed := false, error := None)))
    {
      hide Hash, Sha256Context.Valid, DeviceShape;
      prefixHash.Start();
      prefixHashReady, manifestLoaded, phase := true, true, Receiving;
      misc := misc.(resumed := false, error := None);
    }

    method StartReceiving(manifest: Manifest, id: Digest) returns (failure: Option<Error>)
      requires Valid() && manifest.imageBytes <= IMAGE_MAX
      modifies this, prefixHash, prefixHash.state, prefixHash.block
      ensures Valid() && (Now(), failure) == StartTransfer(old(Now()), manifest, id)
    {
      hide Append, Hash, Sha256Context.Valid, DeviceShape;
      BindTarget(Target(true, id, manifest.sha, manifest.version, manifest.imageBytes), Cursor(true, 0, 0), 0);
      erasedThrough := 0;
      var appended := AppendCheckpoint(InProgress, 0);
      if !appended { return Some(JournalFailed); }
      EnterReceiving();
      failure := None;
    }

    /** `prepareNewUpdate`. */
    method PrepareUpdate(manifest: Manifest, id: Digest) returns (failure: Option<Error>)
      requires Valid() && manifest.imageBytes <= IMAGE_MAX
      modifies this, prefixHash, prefixHash.state, prefixHash.block
      ensures Valid() && (Now(), failure) == PrepareNewUpdate(old(Now()), manifest, id)
    {
      hide OpenJournal, StartTransfer, Hash;
      misc := misc.(rebootScheduled := false, rebootAt := 0, rebootFallbackAt := 0);
      failure := OpenInactiveJournal(Header(manifest.imageBytes, id, manifest.sha, manifest.version));
      if failure != None { return; }
      failure := StartReceiving(manifest, id);
    }

    /** `bindResumedManifest`. */
    method BindResumedManifest(manifest: Manifest, id: Digest) returns (ok: bool)
      requires Valid()
      modifies this, prefixHash, prefixHash.state, prefixHash.block
      ensures Valid() && (Now(), ok) == BindResumed(old(Now()), manifest, id)
    {
      hide RebuildPrefix, Hash;
      if !target.valid || target.id != id || manifest.imageBytes != target.imageBytes
         || manifest.sha != target.sha || manifest.version != target.version {
        return false;
      }
      manifestLoaded := true;
      misc := misc.(resumed := true, error := None);
      ok := true;
      if phase == Receiving && !prefixHashReady {
        ok := RebuildPrefixHash();
      }
    }

    /** `handleBegin` once the manifest is authentic. */
    method BeginUpdate(manifest: Manifest, id: Digest) returns (receipt: Receipt)
      requires Valid() && manifest.imageBytes <= IMAGE_MAX
      modifies this, prefixHash, prefixHash.state, prefixHash.block
      ensures Valid() && (Now(), receipt) == BeginVerified(old(Now()), manifest, id)
    {
      hide PrepareNewUpdate, BindResumed, Hash, Reject, RejectTerminal, MakeReceipt;
      if phase == Idle || phase == Confirmed || phase == RolledBack {
        var failure := PrepareUpdate(manifest, id);
        if failure != None {
          receipt := Refuse(failure.value, true);
          return;
        }
      } else if phase == Receiving || phase == ReadyToReboot {
        if !target.valid || target.id != id {
          receipt := Refuse(UpdateConflict, false);
          return;
        }
        var bound := BindResumedManifest(manifest, id);
        if !bound {
          receipt := Refuse(UpdateConflict, false);
          return;
        }
      } else {
        receipt := Refuse(if phase == Failed && target.valid && target.id != id then UpdateConflict else InvalidState, false);
        return;
      }
      receipt := EncodeReceipt(true, false, false);
    }

    /** `handleBegin`. */
    method Begin(request: Option<(seq<byte>, seq<byte>)>) returns (receipt: Receipt)
      requires Valid()
      modifies this, prefixHash, prefixHash.state, prefixHash.block
      ensures Valid() && (Now(), receipt) == HandleBegin(crypto, old(Now()), request)
    {
      hide BeginVerified, Hash, Reject, RejectTerminal;
      if request == None || Parse(crypto, request.value.0) == None {
        receipt := Refuse(MalformedRequest, false);
        return;
      }
      if !crypto.authentic(request.value.0, request.value.1) {
        receipt := Refuse(InvalidSignature, false);
        return;
      }
      audit := audit.(verified := audit.verified + {request.value.0});
      var context := new Sha256Context();
      context.Update(request.value.0);
      var id := context.Finish();
      assert [] + request.value.0 == request.value.0;
      receipt := BeginUpdate(Parse(crypto, request.value.0).value, id);
    }

    // ----- write -----

    /** Erases the sectors the next chunk runs into. */
    method EnsureErased(chunkEnd: nat) returns (ok: bool)
      requires Valid()
      modifies this`device, this`erasedThrough
      ensures Valid() && (Now(), ok) == EraseAhead(old(Now()), chunkEnd)
    {
      hide ErasePayload, Hash, SectorEnd;
      if chunkEnd <= erasedThrough { return true; }
      var eraseEnd := SectorEnd(chunkEnd);
      if eraseEnd > IMAGE_MAX || erasedThrough % SECTOR != 0 { return false; }
      var (erased, done) := ErasePayload(device, if running == 0 then 1 else 0, erasedThrough, eraseEnd - erasedThrough);
      device := erased;
      if !done { return false; }
      erasedThrough := eraseEnd;
      ok := true;
    }

    method Program(data: seq<byte>) returns (failure: Option<Error>)
      requires Valid() && nextOffset + |data| <= target.imageBytes
      modifies this`device
      ensures Valid() && (Now(), failure) == ProgramChunk(old(Now()), data)
    {
      hide WritePayload, Compare, Hash;
      var (written, done) := WritePayload(device, if running == 0 then 1 else 0, nextOffset, data);
      device := written;
      if !done { return Some(FlashWriteFailed); }
      var same := ComparePartition(nextOffset, data);
      failure := if same then None else Some(FlashReadFailed);
    }

    /** Absorbs a chunk that is in flash, advances, and checkpoints each completed 64 KiB. */
    method Advance(data: seq<byte>) returns (ok: bool)
      requires Valid() && nextOffset + |data| <= target.imageBytes && prefixHashReady
      modifies this, prefixHash, prefixHash.state, prefixHash.block
      ensures Valid() && (Now(), ok) == AcceptChunk(old(Now()), data)
    {
      hide Append, Hash, Sha256Context.Valid, DeviceShape;
      var inactive := if running == 0 then 1 else 0;
      prefixHash.Update(data);
      nextOffset := nextOffset + |data|;
      audit := SetAccepted(audit, inactive, audit.accepted[inactive] + data);
      var durableOffset := nextOffset - nextOffset % CHECKPOINT;
      ok := true;
      if durableOffset > persistedOffset {
        ok := AppendCheckpoint(InProgress, durableOffset);
      }
    }

    method WriteNext(data: seq<byte>) returns (receipt: Receipt)
      requires Valid() && nextOffset + |data| <= target.imageBytes && prefixHashReady
      modifies this, prefixHash, prefixHash.state, prefixHash.block
      ensures Valid() && (Now(), receipt) == WriteFresh(old(Now()), data)
    {
      hide EraseAhead, ProgramChunk, AcceptChunk, RejectTerminal, MakeReceipt, Hash, Sha256Context.Valid, DeviceShape;
      var erased := EnsureErased(nextOffset + |data|);
      if !erased {
        receipt := Refuse(FlashEraseFailed, true);
        return;
      }
      var failure := Program(data);
      if failure != None {
        receipt := Refuse(failure.value, true);
        return;
      }
      var kept := Advance(data);
      if !kept {
        receipt := Refuse(JournalFailed, true);
        return;
      }
      misc := misc.(error := None);
      receipt := EncodeReceipt(true, false, false);
    }

    method WriteAgain(offset: nat, data: seq<byte>) returns (receipt: Receipt)
      requires Valid() && offset < nextOffset
      modifies this`device, this`misc, this`phase
      ensures Valid() && (Now(), receipt) == WriteReplayed(old(Now()), offset, data)
    {
      hide Compare, Reject, MakeReceipt, Hash;
      var same := false;
      if offset + |data| <= nextOffset {
        same := ComparePartition(offset, data);
      }
      if !same {
        receipt := Refuse(ChunkMismatch, false);
        return;
      }
      misc := misc.(error := None);
      receipt := EncodeReceipt(true, true, false);
    }

    /** `handleWrite`. */
    method Write(request: Option<Chunk>) returns (receipt: Receipt)
      requires Valid()
      modifies this, prefixHash, prefixHash.state, prefixHash.block
      ensures Valid() && (Now(), receipt) == HandleWrite(old(Now()), request)
    {
      hide WriteFresh, WriteReplayed, Reject, RejectTerminal, Hash;
      if request == None || |request.value.data| > CHUNK {
        receipt := Refuse(MalformedRequest, false);
        return;
      }
      var Chunk(id, offset, data) := request.value;
      if phase != Receiving {
        receipt := Refuse(InvalidState, false);
      } else if !manifestLoaded {
        receipt := Refuse(BeginRequired, false);
      } else if id != target.id {
        receipt := Refuse(InvalidUpdateId, false);
      } else if |data| == 0 {
        receipt := Refuse(ChunkSizeInvalid, false);
      } else if offset > target.imageBytes || |data| > target.imageBytes - offset {
        receipt := Refuse(OffsetInvalid, false);
      } else if offset < nextOffset {
        receipt := WriteAgain(offset, data);
      } else if offset != nextOffset {
        receipt := Refuse(OffsetInvalid, false);
      } else if !prefixHashReady {
        receipt := Refuse(InternalError, true);
      } else {
        receipt := WriteNext(data);
      }
    }

    // ----- finish, reboot, abort, status -----

    method SelectAndReceipt() returns (receipt: Receipt)
      requires Valid()
      modifies this`device, this`misc, this`phase
      ensures Valid() && (Now(), receipt) == SelectAndReport(old(Now()))
    {
      hide SelectInactive, Reject, MakeReceipt, Hash;
      var selected := SelectUpdate();
      if !selected {
        receipt := Refuse(BootSelectFailed, false);
        return;
      }
      misc := misc.(error := None);
      receipt := EncodeReceipt(true, false, false);
    }

    /** Streamed digest, then read-back digest, then image format. */
    method Verify() returns (failure: Option<Error>)
      requires Valid()
      modifies this`device, this`prefixHashReady, prefixHash`blockBytes, prefixHash.state, prefixHash.block
      ensures Valid() && (Now(), failure) == VerifyImage(crypto, old(Now()))
    {
      hide HashSlot, Hash;
      var inactive := if running == 0 then 1 else 0;
      var streamed := prefixHashReady;
      if prefixHashReady {
        var digest := prefixHash.Finish();
        streamed := digest == target.sha;
      }
      prefixHashReady := false;
      if !streamed { return Some(ImageHashMismatch); }
      var readback := HashPartition(inactive, target.imageBytes);
      if readback == None || readback.value != target.sha { return Some(ImageHashMismatch); }
      failure := if crypto.bootable(device.slots[inactive].payload[..target.imageBytes]) then None else Some(ImageInvalid);
    }

    method Complete() returns (receipt: Receipt)
      requires Valid()
      modifies this, prefixHash`blockBytes, prefixHash.state, prefixHash.block
      ensures Valid() && (Now(), receipt) == FinishImage(crypto, old(Now()))
    {
      hide VerifyImage, Append, SelectAndReport, RejectTerminal, Hash;
      var failure := Verify();
      if failure != None {
        receipt := Refuse(failure.value, true);
        return;
      }
      var appended := AppendCheckpoint(Mark.Complete, target.imageBytes);
      if !appended {
        receipt := Refuse(JournalFailed, true);
        return;
      }
      phase := ReadyToReboot;
      receipt := SelectAndReceipt();
    }

    /** `handleFinish`. */
    method Finish(request: Option<Digest>) returns (receipt: Receipt)
      requires Valid()
      modifies this, prefixHash`blockBytes, prefixHash.state, prefixHash.block
      ensures Valid() && (Now(), receipt) == HandleFinish(crypto, old(Now()), request)
    {
      hide SelectAndReport, FinishImage, Reject, Hash;
      if request == None {
        receipt := Refuse(MalformedRequest, false);
      } else if !target.valid || request.value != target.id {
        receipt := Refuse(InvalidUpdateId, false);
      } else if !manifestLoaded {
        receipt := Refuse(BeginRequired, false);
      } else if phase == ReadyToReboot {
        receipt := SelectAndReceipt();
      } else if phase != Receiving {
        receipt := Refuse(InvalidState, false);
      } else if nextOffset != target.imageBytes {
        receipt := Refuse(IncompleteImage, false);
      } else {
        receipt := Complete();
      }
    }

    /** `handleReboot`. */
    method Reboot(request: Option<Digest>) returns (receipt: Receipt)
      requires Valid()
      modifies this`device, this`misc, this`phase
      ensures Valid() && (Now(), receipt) == HandleReboot(old(Now()), request)
    {
      hide SelectInactive, Reject, MakeReceipt, Hash;
      if request == None {
        receipt := Refuse(MalformedRequest, false);
        return;
      }
      if !target.valid || request.value != target.id {
        receipt := Refuse(InvalidUpdateId, false);
        return;
      }
      if phase != ReadyToReboot {
        receipt := Refuse(RebootNotReady, false);
        return;
      }
      var selected := SelectUpdate();
      if !selected {
        receipt := Refuse(BootSelectFailed, false);
        return;
      }
      misc := misc.(rebootScheduled := true, rebootAt := 0, error := None);
      receipt := EncodeReceipt(true, false, true);
    }

    method CloseInactiveJournal() returns (ok: bool)
      requires Valid()
      modifies this`device, this`journal, this`persistedOffset
      ensures Valid() && (Now(), ok) == CloseJournal(old(Now()))
    {
      hide Append, EraseJournal, Hash;
      ok := true;
      if journal.headerReady {
        ok := AppendCheckpoint(Abandoned, nextOffset);
        if !ok {
          var (erased, done) := EraseJournal(device, if running == 0 then 1 else 0);
          device := erased;
          ok := done;
        }
      }
    }

    /** `clearForIdle`. */
    method Clear()
      requires Valid()
      modifies this
      ensures Valid() && Now() == old(Now()).(r := ClearForIdle(old(Now()).r))
    {
      hide Hash;
      phase, manifestLoaded, target, journal := Idle, false, NO_TARGET, NO_CURSOR;
      nextOffset, persistedOffset, erasedThrough, prefixHashReady := 0, 0, 0, false;
      misc := Misc(misc.begun, false, false, false, misc.version, 0, 0, 0, None);
    }

    /** `handleAbort`. */
    method Abort(request: Option<Digest>) returns (receipt: Receipt)
      requires Valid()
      modifies this
      ensures Valid() && (Now(), receipt) == HandleAbort(old(Now()), request)
    {
      hide CloseJournal, Reject, RejectTerminal, MakeReceipt, SelectSlot, Hash;
      if request == None {
        receipt := Refuse(MalformedRequest, false);
        return;
      }
      if phase == PendingVerify || phase == Confirmed {
        receipt := Refuse(InvalidState, false);
        return;
      }
      if target.valid && request.value != target.id {
        receipt := Refuse(InvalidUpdateId, false);
        return;
      }
      misc := misc.(rebootScheduled := false, rebootAt := 0, rebootFallbackAt := 0);
      var selected := SelectRunning();
      if !selected {
        receipt := Refuse(BootSelectFailed, true);
        return;
      }
      var closed := CloseInactiveJournal();
      if !closed {
        receipt := Refuse(JournalFailed, true);
        return;
      }
      Clear();
      receipt := EncodeReceipt(true, false, false);
    }

    /** `handleStatus`. */
    method Status(wellFormed: bool) returns (receipt: Receipt)
      requires Valid()
      modifies this`misc, this`phase
      ensures Valid() && (Now(), receipt) == HandleStatus(old(Now()), wellFormed)
    {
      hide Reject, Hash;
      if !wellFormed {
        receipt := Refuse(MalformedRequest, false);
        return;
      }
      if phase != Failed { misc := misc.(error := None); }
      receipt := EncodeReceipt(true, false, misc.rebootScheduled);
    }

    // ----- reset, initialization, loop -----

    /** `rollback`; a successful call ends the boot. */
    method RollBack(error: Error)
      requires Valid()
      modifies this`device, this`phase, this`misc
      ensures Valid() && Now() == Rollback(old(Now()), error)
    {
      hide Call, Hash;
      phase := Failed;
      var (d, o) := Call(device);
      device := if o.Done? then d.(alive := false) else d;
      misc := misc.(confirmationArmed := false, error := Some(if o.Done? then error else RollbackFailed));
    }

    /** `bindPendingRunningImage`. */
    method BindPendingRunningImage() returns (ok: bool)
      requires Valid()
      modifies this`device, this`phase, this`misc
      ensures Valid() && (Now(), ok) == BindPending(crypto, old(Now()))
    {
      hide HashSlot, Rollback, Hash;
      ok := false;
      if target.version == misc.version && nextOffset == target.imageBytes {
        var readback := HashPartition(running, target.imageBytes);
        ok := readback != None && readback.value == target.sha
              && crypto.bootable(device.slots[running].payload[..target.imageBytes]);
      }
      if !ok { RollBack(ImageInvalid); }
    }

    /** Continues the transfer found in the inactive slot. */
    method ResumeTransfer() returns (ok: bool)
      requires Valid() && JournalOf(device.slots[if running == 0 then 1 else 0]).Some?
      modifies this, prefixHash, prefixHash.state, prefixHash.block
      ensures Valid() && (Now(), ok) == Resume(old(Now()))
    {
      hide RebuildPrefix, JournalOf, Hash, Sha256Context.Valid;
      var inactive := if running == 0 then 1 else 0;
      var found := JournalOf(device.slots[inactive]).value;
      var header := device.slots[inactive].header;
      BindTarget(Target(true, header.updateId, header.sha, header.target, header.imageBytes),
                 Cursor(true, found.sequence, found.lastOccupied), found.offset);
      phase, erasedThrough := Receiving, found.offset;
      misc := misc.(resumed := true, error := Some(BeginRequired));
      audit := SetAccepted(audit, inactive, Truncate(audit.accepted[inactive], found.offset));
      ok := RebuildPrefixHash();
    }

    method ChooseFromInactive(rolledBack: bool) returns (ok: bool)
      requires Valid()
      modifies this, prefixHash, prefixHash.state, prefixHash.block
      ensures Valid() && (Now(), ok) == ChooseInactive(old(Now()), rolledBack)
    {
      hide Resume, JournalOf, Hash, Sha256Context.Valid;
      var slot := device.slots[if running == 0 then 1 else 0];
      var inactive := JournalOf(slot);
      if inactive.Some? && inactive.value.mark == InProgress {
        ok := ResumeTransfer();
        return;
      }
      ok := true;
      if IsReady(inactive) {
        BindTarget(Target(true, slot.header.updateId, slot.header.sha, slot.header.target, slot.header.imageBytes),
                   Cursor(true, inactive.value.sequence, inactive.value.lastOccupied), inactive.value.offset);
        misc := misc.(resumed := true, error := Some(BeginRequired));
        phase := if rolledBack then RolledBack else ReadyToReboot;
        return;
      }
      Clear();
    }

    method TakeRunning(pending: bool) returns (ok: bool)
      requires Valid() && JournalOf(device.slots[running]).Some?
      modifies this`target, this`journal, this`nextOffset, this`persistedOffset, this`device, this`phase, this`misc
      ensures Valid() && (Now(), ok) == ChooseRunning(crypto, old(Now()), pending)
    {
      hide BindPending, JournalOf, Hash, Sha256Context.Valid;
      var slot := device.slots[running];
      var found := JournalOf(slot).value;
      BindTarget(Target(true, slot.header.updateId, slot.header.sha, slot.header.target, slot.header.imageBytes),
                 Cursor(true, found.sequence, found.lastOccupied), found.offset);
      if !pending {
        phase := Confirmed;
        return true;
      }
      phase := PendingVerify;
      ok := BindPendingRunningImage();
    }

    method ChooseState(runningBoot: BootState, inactiveBoot: BootState) returns (ok: bool)
      requires Valid()
      modifies this, prefixHash, prefixHash.state, prefixHash.block
      ensures Valid() && (Now(), ok) == Choose(crypto, old(Now()), runningBoot, inactiveBoot)
    {
      hide Rollback, ChooseRunning, ChooseInactive, JournalOf, Hash, Sha256Context.Valid;
      var found := JournalOf(device.slots[running]);
      var rolledBack := IsReady(JournalOf(device.slots[if running == 0 then 1 else 0]))
                        && (inactiveBoot == BootInvalid || inactiveBoot == BootAborted);
      if runningBoot == BootPending && !IsReady(found) {
        RollBack(ImageInvalid);
        return false;
      }
      if IsReady(found) && (runningBoot == BootPending || (runningBoot == BootValid && !rolledBack)) {
        ok := TakeRunning(runningBoot == BootPending);
        return;
      }
      ok := ChooseFromInactive(rolledBack);
    }

    /** `loadExistingState`. */
    method LoadExistingState(runningBoot: BootState, inactiveBoot: BootState) returns (ok: bool)
      requires Valid()
      modifies this, prefixHash, prefixHash.state, prefixHash.block
      ensures Valid() && (Now(), ok) == Load(crypto, old(Now()), runningBoot, inactiveBoot)
    {
      hide BleOta.ReadJournal, Choose, Hash, JournalOf, Sha256Context.Valid;
      var found := ReadJournal(running);
      if found == None { return false; }
      found := ReadJournal(if running == 0 then 1 else 0);
      if found == None { return false; }
      ok := ChooseState(runningBoot, inactiveBoot);
    }

    /** `begin` on an updater fresh from a reset; `usable` says the version and both partitions are acceptable. */
    method Start(usable: bool, runningBoot: BootState, inactiveBoot: BootState) returns (ok: bool)
      requires Valid() && Now().r == FreshRam(running, misc.version) && device.alive
      modifies this, prefixHash, prefixHash.state, prefixHash.block
      ensures Valid()
      ensures Now() == Boot(crypto, old(Now()), old(running), old(misc.version), usable, old(device.plan), runningBoot, inactiveBoot)
    {
      hide Load, Hash;
      ghost var s := Now();
      assert s.(d := s.d.(alive := true, plan := device.plan), r := FreshRam(running, misc.version)) == s;
      if !usable { return false; }
      misc := misc.(begun := true);
      ok := LoadExistingState(runningBoot, inactiveBoot);
      if !ok && (phase != Failed || misc.error == None) {
        phase := Failed;
        misc := misc.(error := Some(FlashReadFailed));
      }
    }

    /** `finishCriticalInitialization`. */
    method FinishCriticalInitialization(healthy: bool, now: nat)
      requires Valid()
      modifies this`device, this`phase, this`misc
      ensures Valid() && Now() == FinishInit(old(Now()), healthy, now)
    {
      hide Rollback, Hash;
      if !misc.begun || phase != PendingVerify { return; }
      if !healthy {
        RollBack(RollbackFailed);
        return;
      }
      misc := misc.(confirmationArmed := true, healthySince := now);
    }

    /** The confirmation half of `loop`. */
    method ConfirmWhenHealthy(now: nat, healthy: bool)
      requires Valid()
      modifies this`device, this`phase, this`misc
      ensures Valid() && Now() == Confirm(old(Now()), now, healthy)
    {
      hide Rollback, Call, Hash;
      if phase != PendingVerify || !misc.confirmationArmed { return; }
      if !healthy {
        RollBack(RollbackFailed);
        return;
      }
      if Sub32(now, misc.healthySince) < HEALTHY_MS { return; }
      var ok := Read();
      if !ok {
        RollBack(RollbackFailed);
        return;
      }
      phase := Confirmed;
      misc := misc.(confirmationArmed := false, error := None);
    }

    /** `loop`. */
    method Tick(now: nat, healthy: bool, transmitIdle: bool)
      requires Valid()
      modifies this`device, this`phase, this`misc
      ensures Valid() && Now() == Loop(old(Now()), now, healthy, transmitIdle)
    {
      hide Confirm, Hash;
      if !misc.begun { return; }
      if misc.rebootScheduled && misc.rebootAt == 0 {
        misc := misc.(rebootAt := (now + REBOOT_DELAY_MS) % TWO_32, rebootFallbackAt := (now + REBOOT_FALLBACK_MS) % TWO_32);
      }
      if misc.rebootScheduled && Reached32(now, misc.rebootAt) && (transmitIdle || Reached32(now, misc.rebootFallbackAt)) {
        misc := misc.(rebootScheduled := false);
        device := device.(alive := false);
        return;
      }
      ConfirmWhenHealthy(now, healthy);
    }

    /** `handleRequest`. */
    method Handle(e: Event) returns (receipt: Receipt)
      requires Valid()
      modifies this, prefixHash, prefixHash.state, prefixHash.block
      ensures Valid() && (Now(), receipt) == Request(crypto, old(Now()), e)
    {
      hide HandleBegin, HandleWrite, HandleFinish, HandleReboot, HandleAbort, HandleStatus, Reject, Hash;
      if !misc.begun {
        receipt := Refuse(NotBegun, false);
      } else if e.Begin? {
        receipt := Begin(e.begin);
      } else if e.Write? {
        receipt := Write(e.chunk);
      } else if e.Finish? {
        receipt := Finish(e.id);
      } else if e.Reboot? {
        receipt := Reboot(e.id);
      } else if e.Abort? {
        receipt := Abort(e.id);
      } else if e.Status? {
        receipt := Status(e.wellFormed);
      } else {
        receipt := Refuse(MalformedRequest, false);
      }
    }
  }

  /** The first failing read is the last. */
  lemma {:induction false} StopsAt(d: Device, k: nat, n: nat)
    requires k <= n && !Reads(d, k).1
    ensures Reads(d, n) == Reads(d, k)
  {
    if k < n { StopsAt(d, k, n - 1); }
  }

  /** Another chunk is due while bytes are missing. */
  lemma ChunkCount(k: nat, n: nat)
    requires k * CHUNK < n
    ensures k + 1 <= ChunkReads(n)
  {
    assert n + CHUNK - 1 >= (k + 1) * CHUNK;
  }

  lemma ChunksDone(k: nat, n: nat)
    requires k <= ChunkReads(n) && n <= k * CHUNK
    ensures k == ChunkReads(n)
  {
    assert (n + CHUNK - 1) / CHUNK <= k;
  }
}
