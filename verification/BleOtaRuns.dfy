/** The updater's guarantees over whole runs: resets, power cuts, slot swaps and requests in any order. */
module BleOtaRuns {
  import opened Bytes
  import opened BleOta
  import opened BleOtaProofs

  /** A device whose journals are unused and that has selected nothing yet. */
  ghost predicate Factory(s: State) {
    && Shape(s)
    && !HeaderUsable(s.d.slots[0].header) && !HeaderUsable(s.d.slots[1].header)
    && s.d.log == [] && s.r.phase == Idle && !s.r.manifestLoaded
  }

  lemma FactoryIsTrue(c: Crypto, s: State)
    requires Factory(s)
    ensures Inv(c, s)
  {
  }

  /** Every image ever selected for boot hashes to the digest in a manifest whose signature was verified. */
  lemma SelectionsAreVerified(c: Crypto, s: State, events: seq<Event>, k: nat)
    requires Factory(s) && k < |Run(c, s, events).d.log|
    ensures var t := Run(c, s, events); var chosen := t.d.log[k];
      && c.digest(chosen.image) == chosen.sha
      && exists text :: text in t.a.verified && Authentic(c, text) && Parse(c, text).Some?
                        && Parse(c, text).value.sha == chosen.sha && Parse(c, text).value.imageBytes == |chosen.image|
  {
    hide Run, Parse, Authentic;
    FactoryIsTrue(c, s);
    RunKeeps(c, s, events);
    assert Signed(c, Run(c, s, events).a.verified, |Run(c, s, events).d.log[k].image|, Run(c, s, events).d.log[k].sha);
  }

  /** A journal whose newest record is Complete sits under an image that matches its header, in either slot. */
  lemma ReadyMeansVerified(c: Crypto, s: State, events: seq<Event>, i: nat)
    requires Factory(s) && i < 2 && IsReady(JournalOf(Run(c, s, events).d.slots[i]))
    ensures var t := Run(c, s, events); var slot := t.d.slots[i];
      && c.digest(slot.payload[..slot.header.imageBytes]) == slot.header.sha
      && Signed(c, t.a.verified, slot.header.imageBytes, slot.header.sha)
  {
    hide Run, Signed, JournalTrue, JournalOf;
    FactoryIsTrue(c, s);
    RunKeeps(c, s, events);
    var t := Run(c, s, events);
    NewestCompletion(c, t.a.verified, t.d.slots[i], t.a.accepted[i]);
  }

  /** During a transfer, flash below `nextOffset`, the accepted bytes and the absorbed bytes are the same bytes. */
  lemma TransferIsExact(c: Crypto, s: State, events: seq<Event>)
    requires Factory(s) && Run(c, s, events).r.phase == Receiving
    ensures var t := Run(c, s, events); var i := Inactive(t.r); var n := t.r.nextOffset;
      && t.d.slots[i].payload[..n] == t.a.accepted[i] && t.r.prefix == Some(t.a.accepted[i])
      && n <= t.r.target.imageBytes && n <= t.r.erasedThrough <= IMAGE_MAX && t.r.erasedThrough % SECTOR == 0
      && t.r.persistedOffset <= n < t.r.persistedOffset + CHECKPOINT
  {
    hide Run, Signed, ScanCells;
    FactoryIsTrue(c, s);
    RunKeeps(c, s, events);
  }

  // ----- one write -----

  /** What a chunk does: a fresh one extends the accepted bytes, a replayed one was already there and changes nothing,
      a rejected one is not accepted. */
  lemma WriteReceipt(c: Crypto, s: State, q: Chunk)
    requires Inv(c, s)
    ensures var (t, receipt) := HandleWrite(s, Some(q)); var i := Inactive(s.r);
      && (receipt.ok && receipt.replayed ==>
            && t.d.slots == s.d.slots && t.a == s.a && t.r.nextOffset == s.r.nextOffset
            && q.offset + |q.data| <= s.r.nextOffset && s.a.accepted[i][q.offset..q.offset + |q.data|] == q.data)
      && (receipt.ok && !receipt.replayed ==>
            && q.offset == s.r.nextOffset == |s.a.accepted[i]| && t.r.nextOffset == q.offset + |q.data|
            && t.a.accepted[i] == s.a.accepted[i] + q.data && t.d.slots[i].payload[..t.r.nextOffset] == t.a.accepted[i])
      && (!receipt.ok && t.r.phase != Failed ==> t.d.slots == s.d.slots && t.a == s.a && t.r.nextOffset == s.r.nextOffset)
  {
    hide WriteFresh, Compare, ScanCells, Signed, JournalTrue;
    var (t, receipt) := HandleWrite(s, Some(q));
    var i := Inactive(s.r);
    if s.r.phase == Receiving && |q.data| <= CHUNK {
      if q.offset < s.r.nextOffset && q.offset + |q.data| <= s.r.nextOffset {
        assert s.d.slots[i].payload[q.offset..q.offset] == q.data[..0];
        CompareTrue(s.d, i, q.offset, q.data, 0);
        assert s.a.accepted[i][q.offset..q.offset + |q.data|] == s.d.slots[i].payload[q.offset..q.offset + |q.data|];
      } else if q.offset == s.r.nextOffset && |q.data| <= s.r.target.imageBytes - q.offset {
        FreshReceipt(c, s, q.data);
      }
    }
  }

  lemma FreshReceipt(c: Crypto, s: State, data: seq<byte>)
    requires Inv(c, s) && s.r.phase == Receiving && s.r.nextOffset + |data| <= s.r.target.imageBytes && s.r.prefix.Some?
    ensures var (t, receipt) := WriteFresh(s, data); var i := Inactive(s.r);
      && (receipt.ok ==>
            && t.r.nextOffset == s.r.nextOffset + |data| && t.a.accepted[i] == s.a.accepted[i] + data
            && t.d.slots[i].payload[..t.r.nextOffset] == t.a.accepted[i] && !receipt.replayed)
      && (!receipt.ok ==> t.r.phase == Failed)
  {
    hide EraseAhead, ProgramChunk, Append, ScanCells, Signed, StoreTrue;
    WriteFreshKeeps(c, s, data);
    var (s1, erased) := EraseAhead(s, s.r.nextOffset + |data|);
    var (s2, failure) := ProgramChunk(s1, data);
    if erased && failure == None {
      var i, end := Inactive(s.r), s.r.nextOffset + |data|;
      var s3 := s2.(r := s2.r.(prefix := Some(s2.r.prefix.value + data), nextOffset := end),
                    a := SetAccepted(s2.a, i, s2.a.accepted[i] + data));
      AppendFrame(s3, InProgress, Checkpointed(end));
    }
  }

  // ----- appending to a journal -----

  predicate CursorMatches(s: State)
    requires Shape(s)
  {
    var slot := s.d.slots[Inactive(s.r)];
    && HeaderUsable(slot.header) && slot.header.imageBytes == s.r.target.imageBytes
    && var scan := ScanCells(slot.cells, slot.header.imageBytes, CAPACITY);
       s.r.journal.nextSlot == scan.lastOccupied && (scan.found ==> scan.sequence == s.r.journal.sequence)
  }

  /** Acknowledged, a record is what `readJournal` returns next; otherwise (a failed write, a failed read back or a power
      cut) `readJournal` returns it or the record before it. */
  lemma AppendedOrNot(s: State, mark: Mark, offset: nat)
    requires Shape(s) && CursorMatches(s) && Counts(Record(s.r.journal.sequence + 1, mark, offset), s.r.target.imageBytes)
    ensures var (t, ok) := Append(s, mark, offset);
      var before, after := JournalOf(s.d.slots[Inactive(s.r)]), JournalOf(t.d.slots[Inactive(s.r)]);
      var isNew := after.Some? && after.value.sequence == s.r.journal.sequence + 1
                   && after.value.mark == mark && after.value.offset == offset;
      var isOld := if after.Some? then before.Some? && after.value == before.value.(lastOccupied := after.value.lastOccupied)
                   else before.None?;
      (ok ==> isNew) && (isNew || isOld)
  {
    hide WriteCell, Counts, ScanCells;
    var i, j := Inactive(s.r), s.r.journal;
    var slot := s.d.slots[i];
    var (t, ok) := Append(s, mark, offset);
    AppendFrame(s, mark, offset);
    if t != s {
      var cell := Record(j.sequence + 1, mark, offset);
      ScanIsNewest(slot.cells, slot.header.imageBytes, CAPACITY);
      ScanAppended(slot.cells, slot.header.imageBytes, cell);
      assert t.d.slots[i].cells == slot.cells[j.nextSlot := t.d.slots[i].cells[j.nextSlot]];
      if t.d.slots[i].cells[j.nextSlot] == slot.cells[j.nextSlot] {
        assert t.d.slots[i].cells == slot.cells;
      } else if t.d.slots[i].cells[j.nextSlot] == Garbage {
        ScanTorn(slot.cells, slot.header.imageBytes);
      }
    }
  }

  /** A torn record behind the last one hides nothing. */
  lemma ScanTorn(cells: seq<Cell>, imageBytes: nat)
    requires |cells| == CAPACITY && ScanCells(cells, imageBytes, CAPACITY).lastOccupied < CAPACITY
    ensures var s := ScanCells(cells, imageBytes, CAPACITY);
      ScanCells(cells[s.lastOccupied := Garbage], imageBytes, CAPACITY) == s.(lastOccupied := s.lastOccupied + 1)
  {
    var s := ScanCells(cells, imageBytes, CAPACITY);
    var k := s.lastOccupied;
    var torn := cells[k := Garbage];
    ScanIsNewest(cells, imageBytes, CAPACITY);
    ScanBlankTail(cells, imageBytes, k, CAPACITY);
    ScanPrefix(cells, torn, imageBytes, k);
    assert ScanCells(torn, imageBytes, k + 1) == s.(lastOccupied := k + 1);
    ScanBlankTail(torn, imageBytes, k + 1, CAPACITY);
  }

  // ----- resets -----

  /** After any reset that resumes a transfer, the offset is one whose bytes had been accepted and are in flash. */
  lemma ResumeIsDurable(c: Crypto, s: State, e: Event)
    requires Inv(c, s) && e.Reset? && Step(c, s, e).r.phase == Receiving
    ensures var t := Step(c, s, e); var i, n := Inactive(t.r), t.r.nextOffset;
      && t.d.slots == s.d.slots
      && n <= |s.a.accepted[i]| && s.d.slots[i].payload[..n] == s.a.accepted[i][..n] == t.a.accepted[i]
      && JournalOf(s.d.slots[i]).Some? && n == JournalOf(s.d.slots[i]).value.offset
  {
    hide Rollback, HashSlot, RebuildPrefix, ReadJournal, JournalOf, JournalTrue, Signed, Transferring;
    var t := Step(c, s, e);
    var r0 := FreshRam(e.running % 2, e.version);
    var s0 := s.(d := s.d.(alive := true, plan := e.plan), r := r0.(misc := r0.misc.(begun := true)));
    var d2 := ReadJournal(ReadJournal(s0.d, s0.r.running).0, Inactive(s0.r)).0;
    var s2 := s0.(d := d2);
    StoreKept(c, s, s2);
    ResumeKeepsIf(c, s2);
    RebuildFrame(s2);
  }

  lemma ResumeKeepsIf(c: Crypto, s: State)
    requires Shape(s) && StoreTrue(c, s) && !s.r.manifestLoaded
    ensures var j := JournalOf(s.d.slots[Inactive(s.r)]);
      j.Some? && j.value.mark == InProgress ==>
        var t := Resume(s).0; var i := Inactive(s.r);
        && t.r.nextOffset == j.value.offset && t.r.running == s.r.running && t.d.slots == s.d.slots
        && j.value.offset <= |s.a.accepted[i]| && t.a.accepted[i] == s.a.accepted[i][..j.value.offset]
        && s.d.slots[i].payload[..j.value.offset] == s.a.accepted[i][..j.value.offset]
  {
    hide RebuildPrefix, JournalOf, JournalTrue, Signed, Transferring;
    var i := Inactive(s.r);
    if JournalOf(s.d.slots[i]).Some? && JournalOf(s.d.slots[i]).value.mark == InProgress {
      NewestCheckpoint(c, s.a.verified, s.d.slots[i], s.a.accepted[i]);
      var j := JournalOf(s.d.slots[i]).value;
      var r := BindJournal(s.r, s.d.slots[i].header, j);
      RebuildFrame(s.(r := r.(phase := Receiving, erasedThrough := j.offset,
                              misc := r.misc.(resumed := true, error := Some(BeginRequired))),
                      a := SetAccepted(s.a, i, Truncate(s.a.accepted[i], j.offset))));
    }
  }

  lemma RebuildFrame(s: State)
    requires Shape(s)
    ensures var t := RebuildPrefix(s).0;
      t.d.slots == s.d.slots && t.d.log == s.d.log && t.a == s.a && t.r == s.r.(prefix := t.r.prefix)
  {
    hide Reads;
  }

  lemma {:induction false} ReadsSucceed(d: Device, n: nat)
    requires d.alive && d.plan == []
    ensures Reads(d, n) == (d, true)
  {
    if n > 0 { ReadsSucceed(d, n - 1); }
  }

  lemma JournalReadable(d: Device, i: nat)
    requires DeviceShape(d) && i < 2 && d.alive && d.plan == []
    ensures ReadJournal(d, i) == (d, Some(JournalOf(d.slots[i])))
  {
    hide ScanCells;
    ReadsSucceed(d, 1);
    ReadsSucceed(d, CAPACITY);
  }

  /** A reset without flash faults goes on with a transfer exactly when the journal of the slot that is not running shows an
      unfinished one and the running slot does not claim the boot: neither pending verification nor a valid image with its
      own completed journal.  Whatever cut the transfer, it goes on at the checkpoint the journal shows. */
  lemma ResumesExactly(c: Crypto, s: State, e: Event)
    requires Inv(c, s) && e.Reset? && e.usable && e.plan == []
    ensures var t := Step(c, s, e); var slot := s.d.slots[1 - e.running % 2]; var j := JournalOf(slot);
      var claimed := e.runningBoot == BootPending || (e.runningBoot == BootValid && IsReady(JournalOf(s.d.slots[e.running % 2])));
      && (t.r.phase == Receiving <==> j.Some? && j.value.mark == InProgress && !claimed)
      && (t.r.phase == Receiving ==>
            && t.r.nextOffset == j.value.offset && t.r.prefix.Some?
            && t.r.target == Target(true, slot.header.updateId, slot.header.sha, slot.header.target, slot.header.imageBytes))
  {
    hide Rollback, BindPending, RebuildPrefix, ReadJournal, JournalOf, JournalTrue, Signed, RamTrue;
    var r0 := FreshRam(e.running % 2, e.version);
    var s0 := s.(d := s.d.(alive := true, plan := e.plan), r := r0.(misc := r0.misc.(begun := true)));
    JournalReadable(s0.d, s0.r.running);
    JournalReadable(s0.d, Inactive(s0.r));
    StoreKept(c, s, s0);
    ResumeKeepsIf(c, s0);
    ResumeReads(s0);
    BindPendingPhase(c, s0);
  }

  /** A write cut anywhere, in an erase, a program or the checkpoint, leaves the journal at the old checkpoint or at the one that
      was in flight. */
  lemma CutWriteLeaves(c: Crypto, s: State, request: Option<Chunk>)
    requires Inv(c, s) && s.r.phase == Receiving
    ensures var slot, left := s.d.slots[Inactive(s.r)], HandleWrite(s, request).0.d.slots[Inactive(s.r)];
      && left.header == slot.header && JournalOf(left).Some? && JournalOf(left).value.mark == InProgress
      && (JournalOf(left).value.offset == s.r.persistedOffset
          || (request.Some? && JournalOf(left).value.offset == Checkpointed(s.r.nextOffset + |request.value.data|)))
  {
    hide EraseAhead, ProgramChunk, AcceptChunk, Compare, ScanCells, Signed, StoreTrue, JournalOf;
    var i := Inactive(s.r);
    TransferJournal(s.r, s.d.slots[i], s.a.accepted[i]);
    if request.Some? && s.r.nextOffset + |request.value.data| <= s.r.target.imageBytes {
      var data := request.value.data;
      var m := s.r.nextOffset + |data|;
      EraseAheadFrame(s, m);
      var s1 := EraseAhead(s, m).0;
      ProgramChunkFrame(s1, data);
      CutAppend(c, s, ProgramChunk(s1, data).0, data);
      SamePayloadJournal(s.d.slots[i], s1.d.slots[i]);
      SamePayloadJournal(s.d.slots[i], ProgramChunk(s1, data).0.d.slots[i]);
    }
  }

  /** Erasing ahead and programming leave the journal alone. */
  predicate SameJournal(s: Slot, t: Slot) {
    t == s.(payload := t.payload)
  }

  lemma EraseAheadFrame(s: State, chunkEnd: nat)
    requires Shape(s)
    ensures var t := EraseAhead(s, chunkEnd).0;
      && t.r == s.r.(erasedThrough := t.r.erasedThrough) && SameJournal(s.d.slots[Inactive(s.r)], t.d.slots[Inactive(s.r)])
      && t.d.slots[s.r.running] == s.d.slots[s.r.running]
  {
    hide ErasePayload, SectorEnd;
  }

  lemma ProgramChunkFrame(s: State, data: seq<byte>)
    requires Shape(s) && s.r.nextOffset + |data| <= s.r.target.imageBytes
    ensures var t := ProgramChunk(s, data).0;
      && t.r == s.r && SameJournal(s.d.slots[Inactive(s.r)], t.d.slots[Inactive(s.r)])
      && ProgramChunk(s, data).1 in {None, Some(FlashWriteFailed), Some(FlashReadFailed)}
      && t.d.slots[s.r.running] == s.d.slots[s.r.running]
  {
    hide WritePayload, Compare;
  }

  lemma SamePayloadJournal(s: Slot, t: Slot)
    requires SlotShape(s) && SlotShape(t) && SameJournal(s, t)
    ensures JournalOf(t) == JournalOf(s)
  {
    hide ScanCells;
  }

  /** The checkpoint of a chunk that is in flash. */
  lemma CutAppend(c: Crypto, s: State, t: State, data: seq<byte>)
    requires Inv(c, s) && s.r.phase == Receiving && Shape(t) && t.r == s.r.(erasedThrough := t.r.erasedThrough)
    requires SameJournal(s.d.slots[Inactive(s.r)], t.d.slots[Inactive(s.r)])
    requires s.r.nextOffset + |data| <= s.r.target.imageBytes && t.r.prefix.Some?
    ensures var left := AcceptChunk(t, data).0.d.slots[Inactive(s.r)];
      && left.header == s.d.slots[Inactive(s.r)].header && JournalOf(left).Some? && JournalOf(left).value.mark == InProgress
      && JournalOf(left).value.offset in {s.r.persistedOffset, Checkpointed(s.r.nextOffset + |data|)}
  {
    hide Append, ScanCells, Signed, StoreTrue, JournalOf, Checkpointed, Counts;
    var i, end := Inactive(s.r), s.r.nextOffset + |data|;
    var t1 := t.(r := t.r.(prefix := Some(t.r.prefix.value + data), nextOffset := end),
                 a := SetAccepted(t.a, i, t.a.accepted[i] + data));
    TransferJournal(s.r, s.d.slots[i], s.a.accepted[i]);
    SamePayloadJournal(s.d.slots[i], t.d.slots[i]);
    CheckpointCounts(end, s.r.target.imageBytes, s.r.journal.sequence + 1);
    assert CursorMatches(t1);
    AppendedOrNot(t1, InProgress, Checkpointed(end));
    AppendFrame(t1, InProgress, Checkpointed(end));
  }

  /** Together: a transfer interrupted inside any write, then reset without faults under an unclaimed boot, goes on at the old
      checkpoint or at the one in flight. */
  lemma CutTransferResumes(c: Crypto, s: State, request: Option<Chunk>, e: Event)
    requires Inv(c, s) && s.r.phase == Receiving && s.d.alive && s.r.misc.begun
    requires e.Reset? && e.usable && e.plan == [] && e.running % 2 == s.r.running && e.runningBoot != BootPending
    requires e.runningBoot == BootValid ==> !IsReady(JournalOf(s.d.slots[s.r.running]))
    ensures var t := Step(c, Step(c, s, Write(request)), e);
      && t.r.phase == Receiving && t.r.target == s.r.target
      && (t.r.nextOffset == s.r.persistedOffset
          || (request.Some? && t.r.nextOffset == Checkpointed(s.r.nextOffset + |request.value.data|)))
  {
    hide HandleWrite, Boot, JournalOf, StoreTrue, ScanCells, Signed;
    StepKeeps(c, s, Write(request));
    CutWriteLeaves(c, s, request);
    WriteOtherSlot(s, request);
    ResumesExactly(c, Step(c, s, Write(request)), e);
  }

  lemma WriteOtherSlot(s: State, request: Option<Chunk>)
    requires Shape(s)
    ensures HandleWrite(s, request).0.d.slots[s.r.running] == s.d.slots[s.r.running]
  {
    hide EraseAhead, ProgramChunk, Append, Compare, Checkpointed;
    if request.Some? && s.r.nextOffset + |request.value.data| <= s.r.target.imageBytes && s.r.prefix.Some? {
      var data := request.value.data;
      var m := s.r.nextOffset + |data|;
      EraseAheadFrame(s, m);
      var s1 := EraseAhead(s, m).0;
      ProgramChunkFrame(s1, data);
      var s2 := ProgramChunk(s1, data).0;
      AppendFrame(s2.(r := s2.r.(prefix := Some(s2.r.prefix.value + data), nextOffset := m),
                      a := SetAccepted(s2.a, Inactive(s.r), s2.a.accepted[Inactive(s.r)] + data)), InProgress, Checkpointed(m));
    }
  }

  lemma TransferJournal(r: Ram, s: Slot, accepted: seq<byte>)
    requires SlotShape(s) && Transferring(r, s, accepted)
    ensures JournalOf(s) == Some(Scan(true, r.journal.sequence, InProgress, r.persistedOffset, r.journal.nextSlot))
  {
    hide ScanCells;
  }

  lemma ResumeReads(s: State)
    requires Shape(s) && s.d.alive && s.d.plan == []
    ensures JournalOf(s.d.slots[Inactive(s.r)]).Some? ==>
      Resume(s).1 && Resume(s).0.r.prefix.Some? && Resume(s).0.r.phase == Receiving
      && var h := s.d.slots[Inactive(s.r)].header;
         Resume(s).0.r.target == Target(true, h.updateId, h.sha, h.target, h.imageBytes)
  {
    hide JournalOf, Reads, ChunkReads;
    if JournalOf(s.d.slots[Inactive(s.r)]).Some? {
      ReadsSucceed(s.d, ChunkReads(JournalOf(s.d.slots[Inactive(s.r)]).value.offset));
    }
  }

  lemma BindPendingPhase(c: Crypto, s: State)
    requires Shape(s)
    ensures forall r: Ram :: r.phase == PendingVerify && Shape(s.(r := r)) ==> BindPending(c, s.(r := r)).0.r.phase != Receiving
  {
    hide Rollback, HashSlot;
  }

  // ----- what an append shows -----

  /** Among the countable records the one in cell `k` has the highest sequence number, and no earlier one shares it. */
  ghost predicate Leads(cells: seq<Cell>, k: nat, cell: Cell, imageBytes: nat)
    requires cell.Record?
  {
    forall j :: 0 <= j < |cells| && j != k && Counts(cells[j], imageBytes) ==>
      if j < k then cells[j].sequence < cell.sequence else cells[j].sequence <= cell.sequence
  }

  /** Of several records with the highest sequence number a scan reports the first. */
  lemma {:induction false} ScanPicks(cells: seq<Cell>, imageBytes: nat, n: nat) returns (k: nat)
    requires n <= |cells| && ScanCells(cells, imageBytes, n).found
    ensures var s := ScanCells(cells, imageBytes, n);
      k < n && cells[k] == Record(s.sequence, s.mark, s.offset) && Leads(cells[..n], k, cells[k], imageBytes)
  {
    var p := ScanCells(cells, imageBytes, n - 1);
    ScanIsNewest(cells, imageBytes, n);
    if p.found && ScanCells(cells, imageBytes, n) == p.(lastOccupied := ScanCells(cells, imageBytes, n).lastOccupied) {
      k := ScanPicks(cells, imageBytes, n - 1);
      assert forall j :: 0 <= j < n - 1 ==> cells[..n][j] == cells[..n - 1][j];
    } else {
      k := n - 1;
      ScanIsNewest(cells, imageBytes, n - 1);
    }
  }

  /** Exactly when `readJournal` shows an acknowledged record. */
  lemma AppendShown(s: State, mark: Mark, offset: nat)
    requires Shape(s) && Append(s, mark, offset).1 && HeaderUsable(s.d.slots[Inactive(s.r)].header)
    requires Record(s.r.journal.sequence + 1, mark, offset) !in s.d.slots[Inactive(s.r)].cells
    ensures var slot, k := s.d.slots[Inactive(s.r)], s.r.journal.nextSlot;
      var cell := Record(s.r.journal.sequence + 1, mark, offset);
      var after := JournalOf(Append(s, mark, offset).0.d.slots[Inactive(s.r)]);
      (after.Some? && Record(after.value.sequence, after.value.mark, after.value.offset) == cell)
      <==> (Counts(cell, slot.header.imageBytes) && Leads(slot.cells, k, cell, slot.header.imageBytes))
  {
    hide WriteCell, Counts, ScanCells;
    var i, k := Inactive(s.r), s.r.journal.nextSlot;
    var slot := s.d.slots[i];
    var n := slot.header.imageBytes;
    var cell := Record(s.r.journal.sequence + 1, mark, offset);
    AppendFrame(s, mark, offset);
    var cells := Append(s, mark, offset).0.d.slots[i].cells;
    assert cells == slot.cells[k := cell];
    ScanIsNewest(cells, n, CAPACITY);
    if ScanCells(cells, n, CAPACITY).found {
      var m := ScanPicks(cells, n, CAPACITY);
      assert cells[..CAPACITY] == cells;
      assert Counts(cells[m], n);
      if m != k { assert slot.cells[m] != cell; }
      assert forall j :: 0 <= j < CAPACITY && j != k ==> cells[j] == slot.cells[j];
      assert m == k ==> Leads(slot.cells, k, cell, n);
      assert Counts(cells[k], n) && m != k ==> cells[k].sequence <= slot.cells[m].sequence && Counts(slot.cells[m], n);
    } else {
      assert !Counts(cells[k], n);
    }
  }
}
