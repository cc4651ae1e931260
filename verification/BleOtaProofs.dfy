/** What every run of the updater keeps: journals that never lie about flash, and boot selections that are always
    backed by a verified manifest. */
module BleOtaProofs {
  import opened Bytes
  import opened BleOta

  // ----- journal scans -----

  /** A scan reports a record of the journal with the highest sequence number and the end of the occupied cells. */
  lemma {:induction false} ScanIsNewest(cells: seq<Cell>, imageBytes: nat, n: nat)
    requires n <= |cells|
    ensures var s := ScanCells(cells, imageBytes, n);
      && (forall k :: 0 <= k < n && Counts(cells[k], imageBytes) ==> s.found && cells[k].sequence <= s.sequence)
      && (forall k :: s.lastOccupied <= k < n ==> cells[k].Blank?)
      && (s.found ==> exists k :: 0 <= k < n && cells[k] == Record(s.sequence, s.mark, s.offset))
  {
    if n > 0 {
      ScanIsNewest(cells, imageBytes, n - 1);
    }
  }

  lemma {:induction false} ScanPrefix(cells: seq<Cell>, cells': seq<Cell>, imageBytes: nat, n: nat)
    requires n <= |cells| && n <= |cells'| && cells[..n] == cells'[..n]
    ensures ScanCells(cells, imageBytes, n) == ScanCells(cells', imageBytes, n)
  {
    if n > 0 {
      assert cells[n - 1] == cells[..n][n - 1] == cells'[n - 1];
      assert cells[..n - 1] == cells[..n][..n - 1] == cells'[..n - 1];
      ScanPrefix(cells, cells', imageBytes, n - 1);
    }
  }

  /** Blank cells add nothing to a scan. */
  lemma {:induction false} ScanBlankTail(cells: seq<Cell>, imageBytes: nat, from: nat, n: nat)
    requires from <= n <= |cells| && forall k :: from <= k < n ==> cells[k].Blank?
    ensures ScanCells(cells, imageBytes, n) == ScanCells(cells, imageBytes, from)
  {
    if from < n {
      ScanBlankTail(cells, imageBytes, from, n - 1);
    }
  }

  /** Appending behind the last occupied cell with the next sequence number makes the new record the newest. */
  lemma ScanAppended(cells: seq<Cell>, imageBytes: nat, c: Cell)
    requires |cells| == CAPACITY && Counts(c, imageBytes)
    requires var s := ScanCells(cells, imageBytes, CAPACITY);
      s.lastOccupied < CAPACITY && (s.found ==> s.sequence < c.sequence)
    ensures var k := ScanCells(cells, imageBytes, CAPACITY).lastOccupied;
      ScanCells(cells[k := c], imageBytes, CAPACITY) == Scan(true, c.sequence, c.mark, c.offset, k + 1)
  {
    var s := ScanCells(cells, imageBytes, CAPACITY);
    var k := s.lastOccupied;
    var cells' := cells[k := c];
    ScanIsNewest(cells, imageBytes, CAPACITY);
    ScanBlankTail(cells, imageBytes, k, CAPACITY);
    ScanPrefix(cells, cells', imageBytes, k);
    assert ScanCells(cells', imageBytes, k + 1) == Scan(true, c.sequence, c.mark, c.offset, k + 1);
    ScanBlankTail(cells', imageBytes, k + 1, CAPACITY);
  }

  // ----- the invariant -----

  ghost predicate Authentic(c: Crypto, text: seq<byte>) {
    exists signature :: c.authentic(text, signature)
  }

  /** A manifest with this size and digest has had its signature verified. */
  ghost predicate Signed(c: Crypto, verified: set<seq<byte>>, imageBytes: nat, sha: Digest) {
    exists text :: text in verified && Authentic(c, text) && Parse(c, text).Some?
                   && Parse(c, text).value.imageBytes == imageBytes && Parse(c, text).value.sha == sha
  }

  /** A record stands for bytes that are in flash: all of a verified image, or the accepted bytes up to its offset. */
  ghost predicate RecordTrue(c: Crypto, verified: set<seq<byte>>, s: Slot, accepted: seq<byte>, cell: Cell)
    requires SlotShape(s) && HeaderUsable(s.header)
  {
    Counts(cell, s.header.imageBytes) ==>
      && (cell.mark.Complete? ==> Signed(c, verified, s.header.imageBytes, s.header.sha)
                                  && c.digest(s.payload[..s.header.imageBytes]) == s.header.sha)
      && (cell.mark.InProgress? ==> cell.offset <= |accepted| && s.payload[..cell.offset] == accepted[..cell.offset])
  }

  ghost predicate Progress(p: Cell, imageBytes: nat) {
    Counts(p, imageBytes) && p.mark.InProgress?
  }

  ghost predicate Completion(p: Cell, imageBytes: nat) {
    Counts(p, imageBytes) && p.mark.Complete?
  }

  ghost predicate Climbs(p: Cell, q: Cell, imageBytes: nat) {
    Progress(p, imageBytes) && Progress(q, imageBytes) ==> p.sequence < q.sequence && p.offset < q.offset
  }

  ghost predicate EndsProgress(p: Cell, q: Cell, imageBytes: nat) {
    Progress(p, imageBytes) && Completion(q, imageBytes) ==> p.sequence < q.sequence
  }

  ghost predicate OneEnd(p: Cell, q: Cell, imageBytes: nat) {
    !(Completion(p, imageBytes) && Completion(q, imageBytes))
  }

  /** Checkpoints climb from cell to cell, none is numbered after a completion, and there is one completion at most. */
  ghost predicate Ordered(cells: seq<Cell>, imageBytes: nat) {
    && (forall j, k :: 0 <= j < k < |cells| ==> Climbs(cells[j], cells[k], imageBytes))
    && (forall j, k :: 0 <= j < k < |cells| ==> OneEnd(cells[j], cells[k], imageBytes))
    && (forall j, k :: 0 <= j < |cells| && 0 <= k < |cells| ==> EndsProgress(cells[j], cells[k], imageBytes))
  }

  /** All records of a journal are true and in order. */
  ghost predicate JournalTrue(c: Crypto, verified: set<seq<byte>>, s: Slot, accepted: seq<byte>)
    requires SlotShape(s)
  {
    HeaderUsable(s.header) ==>
      && (forall k :: 0 <= k < CAPACITY ==> RecordTrue(c, verified, s, accepted, s.cells[k]))
      && Ordered(s.cells, s.header.imageBytes)
  }

  ghost predicate Erased(p: seq<byte>, from: nat, to: nat)
    requires to <= |p|
  {
    forall k :: from <= k < to ==> p[k] == 255
  }

  /** While a transfer runs: flash below `nextOffset` is the accepted bytes and what the streaming hash absorbed, the
      rest up to `erasedThrough` is erased, and the journal's newest record is the last checkpoint. */
  ghost predicate Transferring(r: Ram, s: Slot, accepted: seq<byte>)
    requires SlotShape(s)
  {
    && r.nextOffset <= r.target.imageBytes <= IMAGE_MAX
    && r.target.valid && s.header == Header(r.target.imageBytes, r.target.id, r.target.sha, r.target.version)
    && r.target.imageBytes > 0
    && r.prefix == Some(s.payload[..r.nextOffset])
    && accepted == s.payload[..r.nextOffset]
    && r.nextOffset <= r.erasedThrough <= IMAGE_MAX && r.erasedThrough % SECTOR == 0
    && Erased(s.payload, r.nextOffset, r.erasedThrough)
    && r.persistedOffset == Checkpointed(r.nextOffset)
    && r.journal.headerReady
    && ScanCells(s.cells, r.target.imageBytes, CAPACITY)
         == Scan(true, r.journal.sequence, InProgress, r.persistedOffset, r.journal.nextSlot)
  }

  ghost predicate SelectionsBacked(c: Crypto, verified: set<seq<byte>>, log: seq<Selection>) {
    forall k :: 0 <= k < |log| ==> c.digest(log[k].image) == log[k].sha && Signed(c, verified, |log[k].image|, log[k].sha)
  }

  ghost predicate RamTrue(c: Crypto, s: State)
    requires Shape(s)
  {
    var i := Inactive(s.r);
    && (s.r.phase == Receiving ==> Transferring(s.r, s.d.slots[i], s.a.accepted[i]))
    && (s.r.phase == ReadyToReboot ==>
          && Signed(c, s.a.verified, s.r.target.imageBytes, s.r.target.sha)
          && c.digest(s.d.slots[i].payload[..s.r.target.imageBytes]) == s.r.target.sha)
    && (s.r.manifestLoaded ==>
          && s.r.phase in {Receiving, ReadyToReboot, Failed}
          && Signed(c, s.a.verified, s.r.target.imageBytes, s.r.target.sha))
  }

  ghost predicate StoreTrue(c: Crypto, s: State)
    requires Shape(s)
  {
    && JournalTrue(c, s.a.verified, s.d.slots[0], s.a.accepted[0])
    && JournalTrue(c, s.a.verified, s.d.slots[1], s.a.accepted[1])
    && SelectionsBacked(c, s.a.verified, s.d.log)
  }

  ghost predicate Inv(c: Crypto, s: State) {
    Shape(s) && StoreTrue(c, s) && RamTrue(c, s)
  }

  // ----- steps that leave flash alone -----

  /** More verified manifests only help. */
  lemma JournalKept(c: Crypto, v: set<seq<byte>>, w: set<seq<byte>>, s: Slot, accepted: seq<byte>)
    requires SlotShape(s) && JournalTrue(c, v, s, accepted) && v <= w
    ensures JournalTrue(c, w, s, accepted)
  {
    hide Counts, Signed, Ordered;
    if HeaderUsable(s.header) {
      SignedGrows(c, v, w, s.header.imageBytes, s.header.sha);
      forall k | 0 <= k < CAPACITY ensures RecordTrue(c, w, s, accepted, s.cells[k]) {
        assert RecordTrue(c, v, s, accepted, s.cells[k]);
      }
    }
  }

  lemma SelectionsKept(c: Crypto, v: set<seq<byte>>, w: set<seq<byte>>, log: seq<Selection>)
    requires SelectionsBacked(c, v, log) && v <= w
    ensures SelectionsBacked(c, w, log)
  {
    hide Signed;
    forall k | 0 <= k < |log| ensures Signed(c, w, |log[k].image|, log[k].sha) {
      SignedGrows(c, v, w, |log[k].image|, log[k].sha);
    }
  }

  lemma StoreKept(c: Crypto, s: State, t: State)
    requires Shape(s) && Shape(t) && StoreTrue(c, s)
    requires t.d.slots == s.d.slots && t.d.log == s.d.log && t.a.accepted == s.a.accepted && s.a.verified <= t.a.verified
    ensures StoreTrue(c, t)
  {
    hide JournalTrue, SelectionsBacked;
    JournalKept(c, s.a.verified, t.a.verified, s.d.slots[0], s.a.accepted[0]);
    JournalKept(c, s.a.verified, t.a.verified, s.d.slots[1], s.a.accepted[1]);
    SelectionsKept(c, s.a.verified, t.a.verified, s.d.log);
  }

  lemma SignedGrows(c: Crypto, v: set<seq<byte>>, w: set<seq<byte>>, imageBytes: nat, sha: Digest)
    requires v <= w
    ensures Signed(c, v, imageBytes, sha) ==> Signed(c, w, imageBytes, sha)
  {
  }

  /** RAM facts survive when the phase stays or becomes `Failed`. */
  lemma RamKept(c: Crypto, s: State, t: State)
    requires Shape(s) && Shape(t) && RamTrue(c, s)
    requires t.d.slots == s.d.slots && t.a.accepted == s.a.accepted && s.a.verified <= t.a.verified
    requires t.r == s.r.(misc := t.r.misc, phase := t.r.phase) && (t.r.phase == s.r.phase || t.r.phase == Failed)
    ensures RamTrue(c, t)
  {
    hide Transferring, Signed;
    SignedGrows(c, s.a.verified, t.a.verified, s.r.target.imageBytes, s.r.target.sha);
    assert s.r.phase == Receiving ==> Transferring(s.r, s.d.slots[Inactive(s.r)], s.a.accepted[Inactive(s.r)]);
    assert t.r.phase == Receiving ==> Transferring(t.r, t.d.slots[Inactive(t.r)], t.a.accepted[Inactive(t.r)]) by {
      if t.r.phase == Receiving { TransferringKept(s.r, t.r, s.d.slots[Inactive(s.r)], s.a.accepted[Inactive(s.r)]); }
    }
  }

  lemma TransferringKept(r: Ram, q: Ram, s: Slot, accepted: seq<byte>)
    requires SlotShape(s) && Transferring(r, s, accepted) && q == r.(misc := q.misc, phase := q.phase, manifestLoaded := q.manifestLoaded)
    ensures Transferring(q, s, accepted)
  {
  }

  lemma QuietStep(c: Crypto, s: State, t: State)
    requires Inv(c, s) && Shape(t)
    requires t.d.slots == s.d.slots && t.d.log == s.d.log && t.a.accepted == s.a.accepted && s.a.verified <= t.a.verified
    requires t.r == s.r.(misc := t.r.misc, phase := t.r.phase) && (t.r.phase == s.r.phase || t.r.phase == Failed)
    ensures Inv(c, t)
  {
    hide StoreTrue, RamTrue;
    StoreKept(c, s, t);
    RamKept(c, s, t);
  }

  // ----- steps on one journal -----

  lemma NeverCounts(n: nat)
    ensures !Counts(Garbage, n) && !Counts(Blank, n)
  {
  }

  /** The new record fits the order of the others. */
  ghost predicate InOrder(cells: seq<Cell>, k: nat, cell: Cell, imageBytes: nat) {
    forall j :: 0 <= j < |cells| && j != k ==>
      && (j < k ==> Climbs(cells[j], cell, imageBytes)) && (k < j ==> Climbs(cell, cells[j], imageBytes))
      && EndsProgress(cells[j], cell, imageBytes) && EndsProgress(cell, cells[j], imageBytes)
      && OneEnd(cells[j], cell, imageBytes)
  }

  /** Replacing a cell by an unreadable or fitting one keeps the order. */
  lemma OrderedWith(cells: seq<Cell>, k: nat, left: Cell, imageBytes: nat)
    requires k < |cells| && Ordered(cells, imageBytes)
    requires left == Garbage || left == Blank || InOrder(cells, k, left, imageBytes)
    ensures Ordered(cells[k := left], imageBytes)
  {
    hide Counts;
    NeverCounts(imageBytes);
    var t := cells[k := left];
    forall i, j | 0 <= i < j < |t| ensures Climbs(t[i], t[j], imageBytes) && OneEnd(t[i], t[j], imageBytes) {
      assert Climbs(cells[i], cells[j], imageBytes) && OneEnd(cells[i], cells[j], imageBytes);
    }
    forall i, j | 0 <= i < |t| && 0 <= j < |t| ensures EndsProgress(t[i], t[j], imageBytes) {
      assert EndsProgress(cells[i], cells[j], imageBytes);
    }
  }

  /** Writing one cell keeps a journal true if the record is, whatever the write leaves behind. */
  lemma CellWritten(c: Crypto, verified: set<seq<byte>>, s: Slot, accepted: seq<byte>, k: nat, cell: Cell, left: Cell)
    requires SlotShape(s) && k < CAPACITY && JournalTrue(c, verified, s, accepted)
    requires left == s.cells[k] || left == Garbage || left == cell
    requires HeaderUsable(s.header) ==>
      RecordTrue(c, verified, s, accepted, cell) && InOrder(s.cells, k, cell, s.header.imageBytes)
    ensures SlotShape(s.(cells := s.cells[k := left]))
    ensures JournalTrue(c, verified, s.(cells := s.cells[k := left]), accepted)
  {
    hide Counts, Signed, Ordered, InOrder;
    var t := s.(cells := s.cells[k := left]);
    if HeaderUsable(s.header) {
      var n := s.header.imageBytes;
      NeverCounts(n);
      forall j | 0 <= j < CAPACITY ensures RecordTrue(c, verified, t, accepted, t.cells[j]) {
        assert RecordTrue(c, verified, s, accepted, s.cells[j]);
      }
      if left == s.cells[k] {
        assert t.cells == s.cells;
      } else {
        OrderedWith(s.cells, k, left, n);
      }
    }
  }

  /** A journal loses records to an interrupted erase but gains none. */
  lemma JournalThinned(c: Crypto, verified: set<seq<byte>>, s: Slot, t: Slot, accepted: seq<byte>)
    requires SlotShape(s) && SlotShape(t) && JournalTrue(c, verified, s, accepted)
    requires t.payload == s.payload && (t.header == s.header || !t.header.Header?)
    requires forall k :: 0 <= k < CAPACITY ==> t.cells[k] == s.cells[k] || t.cells[k] == Blank || t.cells[k] == Garbage
    ensures JournalTrue(c, verified, t, accepted)
  {
    hide Counts, Signed;
    if HeaderUsable(t.header) {
      var n := s.header.imageBytes;
      NeverCounts(n);
      forall j | 0 <= j < CAPACITY ensures RecordTrue(c, verified, t, accepted, t.cells[j]) {
        assert RecordTrue(c, verified, s, accepted, s.cells[j]);
      }
      forall i, j | 0 <= i < j < CAPACITY ensures Climbs(t.cells[i], t.cells[j], n) && OneEnd(t.cells[i], t.cells[j], n) {
        assert Climbs(s.cells[i], s.cells[j], n) && OneEnd(s.cells[i], s.cells[j], n);
      }
      forall i, j | 0 <= i < CAPACITY && 0 <= j < CAPACITY ensures EndsProgress(t.cells[i], t.cells[j], n) {
        assert EndsProgress(s.cells[i], s.cells[j], n);
      }
    }
  }

  lemma JournalBlank(c: Crypto, verified: set<seq<byte>>, s: Slot, accepted: seq<byte>)
    requires SlotShape(s) && forall k :: 0 <= k < CAPACITY ==> s.cells[k] == Blank
    ensures JournalTrue(c, verified, s, accepted)
  {
    hide Signed;
  }

  /** While a transfer runs, no record depends on flash at or above `nextOffset`. */
  lemma TailIsFree(c: Crypto, verified: set<seq<byte>>, r: Ram, s: Slot, accepted: seq<byte>, p: seq<byte>)
    requires SlotShape(s) && JournalTrue(c, verified, s, accepted) && Transferring(r, s, accepted)
    requires |p| == IMAGE_MAX && p[..r.nextOffset] == s.payload[..r.nextOffset]
    ensures JournalTrue(c, verified, s.(payload := p), accepted)
  {
    hide Signed, ScanCells;
    var n := r.target.imageBytes;
    ScanIsNewest(s.cells, n, CAPACITY);
    var m :| 0 <= m < CAPACITY && s.cells[m] == Record(r.journal.sequence, InProgress, r.persistedOffset);
    forall k | 0 <= k < CAPACITY ensures RecordTrue(c, verified, s.(payload := p), accepted, s.cells[k]) {
      assert RecordTrue(c, verified, s, accepted, s.cells[k]);
      assert EndsProgress(s.cells[m], s.cells[k], n);
      if Progress(s.cells[k], n) {
        var o := s.cells[k].offset;
        assert p[..o] == p[..r.nextOffset][..o] == s.payload[..o];
      }
    }
  }

  /** The next checkpoint is true and in order. */
  lemma CheckpointFits(c: Crypto, verified: set<seq<byte>>, r: Ram, s: Slot, accepted: seq<byte>, mark: Mark, offset: nat)
    requires SlotShape(s) && JournalTrue(c, verified, s, accepted) && Transferring(r, s, accepted)
    requires mark == InProgress ==> offset > r.persistedOffset
    ensures InOrder(s.cells, r.journal.nextSlot, Record(r.journal.sequence + 1, mark, offset), r.target.imageBytes)
  {
    hide Signed, ScanCells;
    var n := r.target.imageBytes;
    var cell := Record(r.journal.sequence + 1, mark, offset);
    ScanIsNewest(s.cells, n, CAPACITY);
    var m :| 0 <= m < CAPACITY && s.cells[m] == Record(r.journal.sequence, InProgress, r.persistedOffset);
    forall j | 0 <= j < CAPACITY && j != r.journal.nextSlot
      ensures (j < r.journal.nextSlot ==> Climbs(s.cells[j], cell, n)) && (r.journal.nextSlot < j ==> Climbs(cell, s.cells[j], n))
      ensures EndsProgress(s.cells[j], cell, n) && EndsProgress(cell, s.cells[j], n) && OneEnd(s.cells[j], cell, n)
    {
      assert EndsProgress(s.cells[m], s.cells[j], n);
      assert j < m ==> Climbs(s.cells[j], s.cells[m], n);
      assert m < j ==> Climbs(s.cells[m], s.cells[j], n);
    }
  }

  // ----- steps of the updater -----

  /** Only the inactive slot and what was accepted for it changed. */
  lemma StoreWithSlot(c: Crypto, s: State, t: State, i: nat)
    requires Shape(s) && Shape(t) && StoreTrue(c, s) && i < 2
    requires t.d.slots[1 - i] == s.d.slots[1 - i] && t.a.accepted[1 - i] == s.a.accepted[1 - i]
    requires t.d.log == s.d.log && t.a.verified == s.a.verified
    requires JournalTrue(c, t.a.verified, t.d.slots[i], t.a.accepted[i])
    ensures StoreTrue(c, t)
  {
    hide JournalTrue, SelectionsBacked;
  }

  ghost predicate AppendFits(c: Crypto, s: State, mark: Mark, offset: nat)
    requires Shape(s)
  {
    var slot := s.d.slots[Inactive(s.r)];
    var cell := Record(s.r.journal.sequence + 1, mark, offset);
    HeaderUsable(slot.header) ==>
      && RecordTrue(c, s.a.verified, slot, s.a.accepted[Inactive(s.r)], cell)
      && InOrder(slot.cells, s.r.journal.nextSlot, cell, slot.header.imageBytes)
  }

  /** However `appendCheckpoint` ends, the store stays true. */
  lemma AppendKeepsStore(c: Crypto, s: State, mark: Mark, offset: nat)
    requires Shape(s) && StoreTrue(c, s) && AppendFits(c, s, mark, offset)
    ensures StoreTrue(c, Append(s, mark, offset).0)
  {
    hide WriteCell, RecordTrue, InOrder, JournalTrue, SelectionsBacked;
    var i, j := Inactive(s.r), s.r.journal;
    var t := Append(s, mark, offset).0;
    if t != s {
      var cell := Record(j.sequence + 1, mark, offset);
      CellWritten(c, s.a.verified, s.d.slots[i], s.a.accepted[i], j.nextSlot, cell, t.d.slots[i].cells[j.nextSlot]);
      StoreWithSlot(c, s, t, i);
    }
  }

  /** An acknowledged record behind the last one is the journal's newest. */
  lemma AppendIsNewest(s: State, mark: Mark, offset: nat)
    requires Shape(s) && Append(s, mark, offset).1
    requires s.d.slots[Inactive(s.r)].header.Header?
    requires var slot := s.d.slots[Inactive(s.r)];
      && Counts(Record(s.r.journal.sequence + 1, mark, offset), slot.header.imageBytes)
      && ScanCells(slot.cells, slot.header.imageBytes, CAPACITY).lastOccupied == s.r.journal.nextSlot
      && (ScanCells(slot.cells, slot.header.imageBytes, CAPACITY).found ==>
            ScanCells(slot.cells, slot.header.imageBytes, CAPACITY).sequence <= s.r.journal.sequence)
    ensures var slot := Append(s, mark, offset).0.d.slots[Inactive(s.r)];
      && slot.header == s.d.slots[Inactive(s.r)].header
      && ScanCells(slot.cells, slot.header.imageBytes, CAPACITY)
           == Scan(true, s.r.journal.sequence + 1, mark, offset, s.r.journal.nextSlot + 1)
  {
    hide WriteCell, ScanCells, Counts;
    var i := Inactive(s.r);
    ScanAppended(s.d.slots[i].cells, s.d.slots[i].header.imageBytes, Record(s.r.journal.sequence + 1, mark, offset));
  }

  lemma OpenJournalKeepsStore(c: Crypto, s: State, h: Header)
    requires Shape(s) && StoreTrue(c, s)
    ensures var (t, failure) := OpenJournal(s, h);
      && StoreTrue(c, t)
      && (failure == None ==> var slot := t.d.slots[Inactive(s.r)];
            slot.header == h && (forall k :: 0 <= k < CAPACITY ==> slot.cells[k] == Blank)
            && t.a.accepted[Inactive(s.r)] == [])
  {
    hide EraseJournal, WriteHeader, JournalTrue, SelectionsBacked;
    var i := Inactive(s.r);
    var t := OpenJournal(s, h).0;
    var (d1, selected) := SelectSlot(s.d, s.r.running);
    if selected {
      var (d2, erased) := EraseJournal(d1, i);
      if erased {
        JournalBlank(c, s.a.verified, t.d.slots[i], []);
      } else {
        JournalThinned(c, s.a.verified, s.d.slots[i], t.d.slots[i], s.a.accepted[i]);
      }
      StoreWithSlot(c, s, t, i);
    } else {
      StoreKept(c, s, t);
    }
  }

  /** A new update starts with a journal that says so. */
  lemma PrepareKeeps(c: Crypto, s: State, m: Manifest, id: Digest)
    requires Inv(c, s) && 0 < m.imageBytes <= IMAGE_MAX && Signed(c, s.a.verified, m.imageBytes, m.sha)
    requires s.r.phase in {Idle, Confirmed, RolledBack}
    ensures var (t, failure) := PrepareNewUpdate(s, m, id);
      && Shape(t) && StoreTrue(c, t)
      && (failure == None ==> Inv(c, t) && t.r.phase == Receiving)
      && (failure != None ==> !t.r.manifestLoaded)
  {
    hide OpenJournal, Append, StoreTrue, Signed, ScanCells, Counts;
    var i := Inactive(s.r);
    var h := Header(m.imageBytes, id, m.sha, m.version);
    var s0 := s.(r := CancelReboot(s.r));
    StoreKept(c, s, s0);
    OpenJournalKeepsStore(c, s0, h);
    var (s1, failure) := OpenJournal(s0, h);
    OpenJournalFrame(s0, h);
    if failure == None {
      var s2 := s1.(r := s1.r.(journal := Cursor(true, 0, 0), target := Target(true, id, m.sha, m.version, m.imageBytes),
                               nextOffset := 0, persistedOffset := 0, erasedThrough := 0));
      StoreKept(c, s1, s2);
      var slot := s2.d.slots[i];
      FirstCheckpoint(c, s2, m.imageBytes);
      AppendKeepsStore(c, s2, InProgress, 0);
      AppendFrame(s2, InProgress, 0);
      var (s3, appended) := Append(s2, InProgress, 0);
      if appended {
        AppendIsNewest(s2, InProgress, 0);
        var t := PrepareNewUpdate(s, m, id).0;
        StoreKept(c, s3, t);
        assert Checkpointed(0) == 0;
        assert t.d.slots[i].payload[..0] == [];
      }
    }
  }

  /** On a blank journal the first checkpoint, at offset 0, fits. */
  lemma FirstCheckpoint(c: Crypto, s: State, imageBytes: nat)
    requires Shape(s) && s.r.journal == Cursor(true, 0, 0)
    requires var slot := s.d.slots[Inactive(s.r)];
      slot.header.Header? && slot.header.imageBytes == imageBytes && forall k :: 0 <= k < CAPACITY ==> slot.cells[k] == Blank
    ensures AppendFits(c, s, InProgress, 0)
    ensures Counts(Record(1, InProgress, 0), imageBytes)
    ensures ScanCells(s.d.slots[Inactive(s.r)].cells, imageBytes, CAPACITY) == Scan(false, 0, InProgress, 0, 0)
  {
    hide Signed;
    var slot := s.d.slots[Inactive(s.r)];
    ScanBlankTail(slot.cells, imageBytes, 0, CAPACITY);
    assert slot.payload[..0] == s.a.accepted[Inactive(s.r)][..0];
  }

  lemma OpenJournalFrame(s: State, h: Header)
    requires Shape(s)
    ensures var t := OpenJournal(s, h).0; t.r == s.r.(journal := t.r.journal) && t.a.verified == s.a.verified
  {
    hide EraseJournal, WriteHeader, SelectSlot;
  }

  lemma AppendFrame(s: State, mark: Mark, offset: nat)
    requires Shape(s)
    ensures var (t, ok) := Append(s, mark, offset);
      && t.a == s.a && t.d.log == s.d.log
      && t.d.slots[1 - Inactive(s.r)] == s.d.slots[1 - Inactive(s.r)]
      && t.d.slots[Inactive(s.r)] == s.d.slots[Inactive(s.r)].(cells := t.d.slots[Inactive(s.r)].cells)
      && (!ok ==> t.r == s.r)
      && (ok ==> t.r == s.r.(journal := Cursor(true, s.r.journal.sequence + 1, s.r.journal.nextSlot + 1),
                             persistedOffset := offset))
  {
    hide WriteCell;
  }

  /** Turning a state terminal or changing only messages keeps whatever the store says. */
  lemma FailedKeeps(c: Crypto, s: State, t: State)
    requires Shape(s) && Shape(t) && StoreTrue(c, s)
    requires t.d.slots == s.d.slots && t.d.log == s.d.log && t.a == s.a && t.r.phase == Failed
    requires t.r.manifestLoaded ==> Signed(c, t.a.verified, t.r.target.imageBytes, t.r.target.sha)
    ensures Inv(c, t)
  {
    hide StoreTrue, Transferring, Signed;
    StoreKept(c, s, t);
  }

  lemma BeginKeeps(c: Crypto, s: State, request: Option<(seq<byte>, seq<byte>)>)
    requires Inv(c, s)
    ensures Inv(c, HandleBegin(c, s, request).0)
  {
    hide StoreTrue, RamTrue, BeginVerified, Accept, Reject, RejectTerminal;
    var t := HandleBegin(c, s, request).0;
    if request == None || Parse(c, request.value.0) == None || !c.authentic(request.value.0, request.value.1) {
      QuietStep(c, s, t);
    } else {
      var text := request.value.0;
      var s1 := s.(a := s.a.(verified := s.a.verified + {text}));
      QuietStep(c, s, s1);
      BeginVerifiedKeeps(c, s1, Parse(c, text).value, c.digest(text));
    }
  }

  lemma BeginVerifiedKeeps(c: Crypto, s: State, m: Manifest, id: Digest)
    requires Inv(c, s) && 0 < m.imageBytes <= IMAGE_MAX && Signed(c, s.a.verified, m.imageBytes, m.sha)
    ensures Inv(c, BeginVerified(s, m, id).0)
  {
    hide StoreTrue, RamTrue, PrepareNewUpdate, BindResumed, Accept, Reject, RejectTerminal, Signed;
    var t := BeginVerified(s, m, id).0;
    if s.r.phase in {Idle, Confirmed, RolledBack} {
      PrepareKeeps(c, s, m, id);
      var (s1, failure) := PrepareNewUpdate(s, m, id);
      if failure != None { FailedKeeps(c, s1, t); }
    } else if s.r.phase in {Receiving, ReadyToReboot} && s.r.target.valid && s.r.target.id == id {
      BindKeeps(c, s, m, id);
      var (s1, bound) := BindResumed(s, m, id);
      if !bound { QuietStep(c, s1, t); }
    } else {
      QuietStep(c, s, t);
    }
  }

  /** Binding a verified manifest to a resumed transfer; the hash is already there. */
  lemma BindKeeps(c: Crypto, s: State, m: Manifest, id: Digest)
    requires Inv(c, s) && Signed(c, s.a.verified, m.imageBytes, m.sha) && s.r.phase in {Receiving, ReadyToReboot}
    ensures Inv(c, BindResumed(s, m, id).0)
  {
    hide StoreTrue, RebuildPrefix, Signed;
    var t := BindResumed(s, m, id).0;
    var i := Inactive(s.r);
    if t != s {
      assert s.r.phase == Receiving ==> s.r.prefix != None;
      StoreKept(c, s, t);
      if s.r.phase == Receiving { TransferringKept(s.r, t.r, s.d.slots[i], s.a.accepted[i]); }
    }
  }

  // ----- writing -----

  lemma {:induction false} AndWithOnes(b: nat, bits: nat)
    requires b < Pow2(bits)
    ensures AndBits(Pow2(bits) - 1, b, bits) == b
  {
    if bits > 0 {
      var p := Pow2(bits - 1);
      assert (2 * p - 1) / 2 == p - 1 && (2 * p - 1) % 2 == 1;
      AndWithOnes(b / 2, bits - 1);
    }
  }

  /** Programming erased flash stores the data. */
  lemma ProgramErased(b: byte)
    ensures Program(255, b) == b
  {
    assert Pow2(8) == 256;
    AndWithOnes(b, 8);
  }

  /** Equal pieces make equal ranges. */
  lemma {:induction false} CompareTrue(d: Device, i: nat, offset: nat, expected: seq<byte>, done: nat)
    requires DeviceShape(d) && i < 2 && done <= |expected| && offset + |expected| <= IMAGE_MAX
    requires d.slots[i].payload[offset..offset + done] == expected[..done]
    ensures Compare(d, i, offset, expected, done).1 ==> d.slots[i].payload[offset..offset + |expected|] == expected
    decreases |expected| - done
  {
    hide Call;
    if done < |expected| {
      var n := if |expected| - done < 256 then |expected| - done else 256;
      var p := d.slots[i].payload;
      if p[offset + done..offset + done + n] == expected[done..done + n] {
        assert p[offset..offset + (done + n)] == p[offset..offset + done] + p[offset + done..offset + done + n];
        assert expected[..done + n] == expected[..done] + expected[done..done + n];
        CompareTrue(Call(d).0, i, offset, expected, done + n);
      }
    } else {
      assert expected[..done] == expected;
    }
  }

  lemma PrefixOf<T>(p: seq<T>, q: seq<T>, m: nat, n: nat)
    requires m <= n <= |p| && n <= |q| && p[..n] == q[..n]
    ensures p[..m] == q[..m]
  {
    assert p[..m] == p[..n][..m];
  }

  /** Erasing ahead of `nextOffset` keeps the transfer as it is. */
  lemma EraseAheadKeeps(c: Crypto, s: State, chunkEnd: nat)
    requires Inv(c, s) && s.r.phase == Receiving && chunkEnd <= s.r.target.imageBytes
    ensures var (t, ok) := EraseAhead(s, chunkEnd);
      && Shape(t) && StoreTrue(c, t) && t.d.log == s.d.log
      && (ok ==> Inv(c, t) && chunkEnd <= t.r.erasedThrough)
  {
    hide SectorEnd, ErasePayload, ScanCells, Signed, JournalTrue, SelectionsBacked;
    var i := Inactive(s.r);
    var (t, ok) := EraseAhead(s, chunkEnd);
    var from, n := s.r.erasedThrough, s.r.nextOffset;
    if t != s {
      var p, q := s.d.slots[i].payload, t.d.slots[i].payload;
      PrefixOf(p, q, n, from);
      TailIsFree(c, s.a.verified, s.r, s.d.slots[i], s.a.accepted[i], q);
      StoreWithSlot(c, s, t, i);
      if ok {
        var end := t.r.erasedThrough;
        forall k | n <= k < end ensures q[k] == 255 {
          if k < from { assert q[k] == q[..from][k] == p[..from][k] == p[k]; }
          else { assert q[k] == q[from..end][k - from]; }
        }
      }
    }
  }

  /** A chunk in flash: the prefix is untouched, the chunk follows it, and what was erased beyond stays erased. */
  ghost predicate ChunkInFlash(s: State, t: State, data: seq<byte>)
    requires Shape(s) && Shape(t) && s.r.nextOffset + |data| <= IMAGE_MAX
  {
    var p, q := s.d.slots[Inactive(s.r)].payload, t.d.slots[Inactive(s.r)].payload;
    var n, m := s.r.nextOffset, s.r.nextOffset + |data|;
    q[..n] == p[..n] && q[n..m] == data && q[m..] == p[m..]
  }

  lemma ProgramChunkKeeps(c: Crypto, s: State, data: seq<byte>)
    requires Inv(c, s) && s.r.phase == Receiving
    requires s.r.nextOffset + |data| <= s.r.target.imageBytes && s.r.nextOffset + |data| <= s.r.erasedThrough
    ensures var (t, failure) := ProgramChunk(s, data);
      && Shape(t) && StoreTrue(c, t) && t.d.log == s.d.log
      && t.d.slots[Inactive(s.r)] == s.d.slots[Inactive(s.r)].(payload := t.d.slots[Inactive(s.r)].payload)
      && (failure == None ==> ChunkInFlash(s, t, data))
  {
    hide WritePayload, Compare, ScanCells, Signed, JournalTrue, SelectionsBacked;
    var i := Inactive(s.r);
    var (t, failure) := ProgramChunk(s, data);
    var (d1, written) := WritePayload(s.d, i, s.r.nextOffset, data);
    TailIsFree(c, s.a.verified, s.r, s.d.slots[i], s.a.accepted[i], t.d.slots[i].payload);
    StoreWithSlot(c, s, t, i);
    if failure == None {
      assert d1.slots[i].payload[s.r.nextOffset..s.r.nextOffset] == data[..0];
      CompareTrue(d1, i, s.r.nextOffset, data, 0);
    }
  }

  /** Once in flash, a chunk joins the accepted bytes; a completed 64 KiB is checkpointed. */
  lemma AcceptChunkKeeps(c: Crypto, s: State, t: State, data: seq<byte>)
    requires Inv(c, s) && s.r.phase == Receiving
    requires Shape(t) && StoreTrue(c, t) && t.r == s.r && t.a == s.a
    requires s.r.nextOffset + |data| <= s.r.target.imageBytes && s.r.nextOffset + |data| <= s.r.erasedThrough
    requires t.d.slots[Inactive(s.r)] == s.d.slots[Inactive(s.r)].(payload := t.d.slots[Inactive(s.r)].payload)
    requires ChunkInFlash(s, t, data)
    ensures var (u, kept) := AcceptChunk(t, data);
      && Shape(u) && StoreTrue(c, u) && (kept ==> Inv(c, u))
      && u.r.phase == Receiving && u.r.target == s.r.target && u.r.manifestLoaded == s.r.manifestLoaded
      && u.a.verified == s.a.verified
  {
    hide Append, ScanCells, Signed, JournalTrue, SelectionsBacked, Checkpointed;
    var i, end := Inactive(s.r), s.r.nextOffset + |data|;
    var slot := t.d.slots[i];
    var t1 := t.(r := t.r.(prefix := Some(t.r.prefix.value + data), nextOffset := end),
                 a := SetAccepted(t.a, i, t.a.accepted[i] + data));
    AcceptedGrows(c, s.a.verified, slot, s.a.accepted[i], data);
    StoreWithSlot(c, t, t1, i);
    assert slot.payload[..end] == slot.payload[..s.r.nextOffset] + slot.payload[s.r.nextOffset..end];
    assert Erased(slot.payload, end, s.r.erasedThrough) by {
      forall k | end <= k < s.r.erasedThrough ensures slot.payload[k] == 255 {
        assert slot.payload[k] == slot.payload[end..][k - end] == s.d.slots[i].payload[end..][k - end];
      }
    }
    CheckpointSteps(s.r.nextOffset, end);
    if Checkpointed(end) > t.r.persistedOffset {
      CheckpointFits(c, s.a.verified, s.r, s.d.slots[i], s.a.accepted[i], InProgress, Checkpointed(end));
      CheckpointCounts(end, s.r.target.imageBytes, s.r.journal.sequence + 1);
      PrefixOf(slot.payload, t1.a.accepted[i], Checkpointed(end), end);
      AppendKeepsStore(c, t1, InProgress, Checkpointed(end));
      AppendFrame(t1, InProgress, Checkpointed(end));
      if Append(t1, InProgress, Checkpointed(end)).1 {
        AppendIsNewest(t1, InProgress, Checkpointed(end));
      }
    }
  }

  lemma AcceptedGrows(c: Crypto, verified: set<seq<byte>>, s: Slot, accepted: seq<byte>, data: seq<byte>)
    requires SlotShape(s) && JournalTrue(c, verified, s, accepted)
    ensures JournalTrue(c, verified, s, accepted + data)
  {
    hide Signed, Ordered;
    if HeaderUsable(s.header) {
      forall k | 0 <= k < CAPACITY ensures RecordTrue(c, verified, s, accepted + data, s.cells[k]) {
        assert RecordTrue(c, verified, s, accepted, s.cells[k]);
        if Progress(s.cells[k], s.header.imageBytes) {
          assert (accepted + data)[..s.cells[k].offset] == accepted[..s.cells[k].offset];
        }
      }
    }
  }

  lemma CheckpointSteps(m: nat, n: nat)
    requires m <= n
    ensures Checkpointed(m) <= Checkpointed(n)
  {
    var a, b := m / CHECKPOINT, n / CHECKPOINT;
    assert Checkpointed(m) == CHECKPOINT * a && Checkpointed(n) == CHECKPOINT * b;
    assert a <= b;
  }

  lemma CheckpointCounts(end: nat, imageBytes: nat, sequence: nat)
    requires end <= imageBytes && sequence > 0
    ensures Counts(Record(sequence, InProgress, Checkpointed(end)), imageBytes)
  {
    assert Checkpointed(end) == CHECKPOINT * (end / CHECKPOINT);
  }

  lemma WriteFreshKeeps(c: Crypto, s: State, data: seq<byte>)
    requires Inv(c, s) && s.r.phase == Receiving && s.r.nextOffset + |data| <= s.r.target.imageBytes
    ensures Inv(c, WriteFresh(s, data).0)
  {
    hide EraseAhead, ProgramChunk, AcceptChunk, Accept, RejectTerminal, StoreTrue, Transferring, Signed, ChunkInFlash;
    assert s.r.prefix.Some? by { HashIsReady(s.r, s.d.slots[Inactive(s.r)], s.a.accepted[Inactive(s.r)]); }
    var t := WriteFresh(s, data).0;
    var m := s.r.nextOffset + |data|;
    EraseAheadKeeps(c, s, m);
    var (s1, erased) := EraseAhead(s, m);
    if !erased { FailedKeeps(c, s1, t); return; }
    ProgramChunkKeeps(c, s1, data);
    var (s2, failure) := ProgramChunk(s1, data);
    if failure != None { FailedKeeps(c, s2, t); return; }
    AcceptChunkKeeps(c, s1, s2, data);
    var (s3, kept) := AcceptChunk(s2, data);
    if !kept { FailedKeeps(c, s3, t); } else { QuietStep(c, s3, t); }
  }

  lemma HashIsReady(r: Ram, s: Slot, accepted: seq<byte>)
    requires SlotShape(s) && Transferring(r, s, accepted)
    ensures r.prefix.Some?
  {
  }

  lemma WriteKeeps(c: Crypto, s: State, request: Option<Chunk>)
    requires Inv(c, s)
    ensures Inv(c, HandleWrite(s, request).0)
  {
    hide WriteFresh, Compare, Accept, Reject, RejectTerminal, StoreTrue, RamTrue;
    var t := HandleWrite(s, request).0;
    if s.r.phase == Receiving && request.Some? && |request.value.data| <= CHUNK && s.r.manifestLoaded
       && request.value.id == s.r.target.id && |request.value.data| != 0
       && request.value.offset == s.r.nextOffset && s.r.prefix != None
       && request.value.offset + |request.value.data| <= s.r.target.imageBytes {
      WriteFreshKeeps(c, s, request.value.data);
    } else {
      QuietStep(c, s, t);
    }
  }

  // ----- selecting, finishing, aborting -----

  /** Selecting a verified image logs a backed selection. */
  lemma SelectKeeps(c: Crypto, s: State)
    requires Inv(c, s) && s.r.phase == ReadyToReboot
    ensures Inv(c, SelectInactive(s).0)
  {
    hide JournalTrue, Signed, SelectSlot;
    var t := SelectInactive(s).0;
  }

  lemma SelectAndReportKeeps(c: Crypto, s: State)
    requires Inv(c, s) && s.r.phase == ReadyToReboot
    ensures Inv(c, SelectAndReport(s).0)
  {
    hide SelectInactive, Accept, Reject, StoreTrue, RamTrue;
    SelectKeeps(c, s);
    QuietStep(c, SelectInactive(s).0, SelectAndReport(s).0);
  }

  /** A Complete record is written only over bytes whose digest a verified manifest announces. */
  lemma FinishKeeps(c: Crypto, s: State)
    requires Inv(c, s) && s.r.phase == Receiving && s.r.manifestLoaded && s.r.nextOffset == s.r.target.imageBytes
    ensures Inv(c, FinishImage(c, s).0)
  {
    hide VerifyImage, Append, SelectAndReport, RejectTerminal, StoreTrue, Signed, ScanCells;
    var t := FinishImage(c, s).0;
    var i, n := Inactive(s.r), s.r.target.imageBytes;
    var (s1, failure) := VerifyImage(c, s);
    StoreKept(c, s, s1);
    if failure != None { FailedKeeps(c, s1, t); return; }
    assert c.digest(s.d.slots[i].payload[..n]) == s.r.target.sha by { VerifiedMatches(c, s); }
    assert AppendFits(c, s1, Complete, n) by {
      assert JournalTrue(c, s.a.verified, s.d.slots[i], s.a.accepted[i]) by { JournalAt(c, s, i); }
      CheckpointFits(c, s.a.verified, s.r, s.d.slots[i], s.a.accepted[i], Complete, n);
    }
    AppendKeepsStore(c, s1, Complete, n);
    AppendFrame(s1, Complete, n);
    var (s2, appended) := Append(s1, Complete, n);
    if !appended { FailedKeeps(c, s2, t); return; }
    var s3 := s2.(r := s2.r.(phase := ReadyToReboot));
    StoreKept(c, s2, s3);
    SelectAndReportKeeps(c, s3);
  }

  lemma JournalAt(c: Crypto, s: State, i: nat)
    requires Shape(s) && StoreTrue(c, s) && i < 2
    ensures JournalTrue(c, s.a.verified, s.d.slots[i], s.a.accepted[i])
  {
  }

  lemma VerifiedMatches(c: Crypto, s: State)
    requires Shape(s) && VerifyImage(c, s).1 == None
    ensures c.digest(s.d.slots[Inactive(s.r)].payload[..s.r.target.imageBytes]) == s.r.target.sha
  {
    hide HashSlot;
  }

  lemma FinishRequestKeeps(c: Crypto, s: State, request: Option<Digest>)
    requires Inv(c, s)
    ensures Inv(c, HandleFinish(c, s, request).0)
  {
    hide SelectAndReport, FinishImage, Reject, StoreTrue, RamTrue;
    var t := HandleFinish(c, s, request).0;
    if request.Some? && s.r.target.valid && request.value == s.r.target.id && s.r.manifestLoaded
       && s.r.phase == ReadyToReboot {
      SelectAndReportKeeps(c, s);
    } else if request.Some? && s.r.target.valid && request.value == s.r.target.id && s.r.manifestLoaded
       && s.r.phase == Receiving && s.r.nextOffset == s.r.target.imageBytes {
      FinishKeeps(c, s);
    } else {
      QuietStep(c, s, t);
    }
  }

  lemma RebootKeeps(c: Crypto, s: State, request: Option<Digest>)
    requires Inv(c, s)
    ensures Inv(c, HandleReboot(s, request).0)
  {
    hide SelectInactive, Accept, Reject, StoreTrue, RamTrue;
    var t := HandleReboot(s, request).0;
    if request.Some? && s.r.target.valid && request.value == s.r.target.id && s.r.phase == ReadyToReboot {
      SelectKeeps(c, s);
      QuietStep(c, SelectInactive(s).0, t);
    } else {
      QuietStep(c, s, t);
    }
  }

  /** An Abandoned record is true of anything. */
  lemma AbandonFits(c: Crypto, s: State, offset: nat)
    requires Shape(s)
    ensures AppendFits(c, s, Abandoned, offset)
  {
    hide Signed;
  }

  lemma CloseKeepsStore(c: Crypto, s: State)
    requires Shape(s) && StoreTrue(c, s)
    ensures var t := CloseJournal(s).0;
      && Shape(t) && StoreTrue(c, t) && t.a == s.a && t.r.manifestLoaded == s.r.manifestLoaded && t.r.target == s.r.target
  {
    hide Append, AppendFits, EraseJournal, JournalTrue, SelectionsBacked;
    var t := CloseJournal(s).0;
    if t != s {
      AbandonFits(c, s, s.r.nextOffset);
      AppendKeepsStore(c, s, Abandoned, s.r.nextOffset);
      AppendFrame(s, Abandoned, s.r.nextOffset);
      var (s1, appended) := Append(s, Abandoned, s.r.nextOffset);
      if !appended {
        var i := Inactive(s1.r);
        JournalThinned(c, s1.a.verified, s1.d.slots[i], t.d.slots[i], s1.a.accepted[i]);
        StoreWithSlot(c, s1, t, i);
      }
    }
  }

  lemma AbortKeeps(c: Crypto, s: State, request: Option<Digest>)
    requires Inv(c, s)
    ensures Inv(c, HandleAbort(s, request).0)
  {
    hide CloseJournal, Accept, Reject, RejectTerminal, StoreTrue, Signed, Transferring;
    var t := HandleAbort(s, request).0;
    if request == None || s.r.phase in {PendingVerify, Confirmed} || (s.r.target.valid && request.value != s.r.target.id) {
      QuietStep(c, s, t);
    } else {
      var (d1, selected) := SelectSlot(s.d, s.r.running);
      var s1 := s.(d := d1, r := CancelReboot(s.r));
      StoreKept(c, s, s1);
      if !selected { FailedKeeps(c, s1, t); return; }
      CloseKeepsStore(c, s1);
      var (s2, closed) := CloseJournal(s1);
      if !closed { FailedKeeps(c, s2, t); } else { StoreKept(c, s2, t); }
    }
  }

  // ----- reset -----

  /** What the newest checkpoint of a true journal says about flash. */
  lemma NewestCheckpoint(c: Crypto, verified: set<seq<byte>>, s: Slot, accepted: seq<byte>)
    requires SlotShape(s) && JournalTrue(c, verified, s, accepted)
    requires JournalOf(s).Some? && JournalOf(s).value.mark == InProgress
    ensures var o := JournalOf(s).value.offset;
      && o % CHECKPOINT == 0 && o <= |accepted| && s.payload[..o] == accepted[..o]
      && JournalTrue(c, verified, s, accepted[..o])
  {
    hide Signed, ScanCells;
    var n := s.header.imageBytes;
    var j := JournalOf(s).value;
    ScanIsNewest(s.cells, n, CAPACITY);
    var m :| 0 <= m < CAPACITY && s.cells[m] == Record(j.sequence, InProgress, j.offset);
    assert RecordTrue(c, verified, s, accepted, s.cells[m]);
    forall k | 0 <= k < CAPACITY ensures RecordTrue(c, verified, s, accepted[..j.offset], s.cells[k]) {
      assert RecordTrue(c, verified, s, accepted, s.cells[k]);
      assert k < m ==> Climbs(s.cells[k], s.cells[m], n);
      assert m < k ==> Climbs(s.cells[m], s.cells[k], n);
      if Progress(s.cells[k], n) {
        assert accepted[..j.offset][..s.cells[k].offset] == accepted[..s.cells[k].offset];
      }
    }
  }

  lemma NewestCompletion(c: Crypto, verified: set<seq<byte>>, s: Slot, accepted: seq<byte>)
    requires SlotShape(s) && JournalTrue(c, verified, s, accepted) && IsReady(JournalOf(s))
    ensures Signed(c, verified, s.header.imageBytes, s.header.sha)
    ensures c.digest(s.payload[..s.header.imageBytes]) == s.header.sha
  {
    hide Signed, ScanCells;
    ScanIsNewest(s.cells, s.header.imageBytes, CAPACITY);
    var j := JournalOf(s).value;
    var m :| 0 <= m < CAPACITY && s.cells[m] == Record(j.sequence, Complete, j.offset);
    assert RecordTrue(c, verified, s, accepted, s.cells[m]);
  }

  /** A resumed transfer starts from bytes that are in flash and were accepted before the reset. */
  lemma ResumeKeeps(c: Crypto, s: State)
    requires Shape(s) && StoreTrue(c, s) && !s.r.manifestLoaded
    requires JournalOf(s.d.slots[Inactive(s.r)]).Some? && JournalOf(s.d.slots[Inactive(s.r)]).value.mark == InProgress
    ensures var (t, ok) := Resume(s); var i := Inactive(s.r);
      && Shape(t) && StoreTrue(c, t) && t.r.phase == Receiving && !t.r.manifestLoaded && t.r.running == s.r.running
      && t.d.slots == s.d.slots && t.a.verified == s.a.verified
      && t.r.nextOffset <= |s.a.accepted[i]| && t.a.accepted[i] == s.a.accepted[i][..t.r.nextOffset]
      && (ok ==> Inv(c, t))
  {
    hide Reads, ChunkReads, JournalOf, ScanCells, Signed, JournalTrue, SelectionsBacked;
    var i := Inactive(s.r);
    var slot := s.d.slots[i];
    var t := Resume(s).0;
    NewestCheckpoint(c, s.a.verified, slot, s.a.accepted[i]);
    StoreWithSlot(c, s, t, i);
    var j := JournalOf(slot).value;
    JournalIs(slot);
    assert j.offset % SECTOR == 0 && Checkpointed(j.offset) == j.offset;
  }

  lemma JournalIs(s: Slot)
    requires SlotShape(s) && JournalOf(s).Some?
    ensures HeaderUsable(s.header) && JournalOf(s).value == ScanCells(s.cells, s.header.imageBytes, CAPACITY)
    ensures JournalOf(s).value.found
  {
  }

  lemma ChooseInactiveKeeps(c: Crypto, s: State, rolledBack: bool)
    requires Shape(s) && StoreTrue(c, s) && !s.r.manifestLoaded
    ensures var (t, ok) := ChooseInactive(s, rolledBack);
      && Shape(t) && StoreTrue(c, t) && !t.r.manifestLoaded && (ok ==> Inv(c, t))
  {
    hide Resume, JournalOf, Signed, JournalTrue, SelectionsBacked, Transferring;
    var i := Inactive(s.r);
    var t := ChooseInactive(s, rolledBack).0;
    var inactive := JournalOf(s.d.slots[i]);
    if inactive.Some? && inactive.value.mark == InProgress {
      ResumeKeeps(c, s);
    } else {
      StoreKept(c, s, t);
      if IsReady(inactive) { NewestCompletion(c, s.a.verified, s.d.slots[i], s.a.accepted[i]); }
    }
  }

  lemma BindPendingKeeps(c: Crypto, s: State)
    requires Inv(c, s) && s.r.phase == PendingVerify && !s.r.manifestLoaded
    ensures var (t, ok) := BindPending(c, s);
      && Shape(t) && StoreTrue(c, t) && !t.r.manifestLoaded && (ok ==> Inv(c, t))
  {
    hide Rollback, HashSlot, StoreTrue, Transferring, Signed;
    var (t, ok) := BindPending(c, s);
    StoreKept(c, s, t);
  }

  lemma ChooseKeeps(c: Crypto, s: State, runningBoot: BootState, inactiveBoot: BootState)
    requires Shape(s) && StoreTrue(c, s) && !s.r.manifestLoaded
    ensures var (t, ok) := Choose(c, s, runningBoot, inactiveBoot);
      && Shape(t) && StoreTrue(c, t) && !t.r.manifestLoaded && (ok ==> Inv(c, t))
  {
    hide Rollback, BindPending, ChooseInactive, JournalOf, StoreTrue, Transferring, Signed;
    var t := Choose(c, s, runningBoot, inactiveBoot).0;
    var running := JournalOf(s.d.slots[s.r.running]);
    var rolledBack := IsReady(JournalOf(s.d.slots[Inactive(s.r)]))
                      && (inactiveBoot == BootInvalid || inactiveBoot == BootAborted);
    if runningBoot == BootPending && !IsReady(running) {
      StoreKept(c, s, t);
    } else if IsReady(running) && (runningBoot == BootPending || (runningBoot == BootValid && !rolledBack)) {
      var r := BindJournal(s.r, s.d.slots[s.r.running].header, running.value);
      if runningBoot == BootPending {
        var s1 := s.(r := r.(phase := PendingVerify));
        StoreKept(c, s, s1);
        BindPendingKeeps(c, s1);
      } else {
        StoreKept(c, s, t);
      }
    } else {
      ChooseInactiveKeeps(c, s, rolledBack);
    }
  }

  lemma BootKeeps(c: Crypto, s: State, running: nat, version: Version, usable: bool, plan: seq<Outcome>,
                  runningBoot: BootState, inactiveBoot: BootState)
    requires Inv(c, s) && running < 2
    ensures Inv(c, Boot(c, s, running, version, usable, plan, runningBoot, inactiveBoot))
  {
    hide ReadJournal, Choose, StoreTrue, Transferring, Signed;
    var t := Boot(c, s, running, version, usable, plan, runningBoot, inactiveBoot);
    var r0 := FreshRam(running, version);
    var s0 := s.(d := s.d.(alive := true, plan := plan), r := if usable then r0.(misc := r0.misc.(begun := true)) else r0);
    StoreKept(c, s, s0);
    if usable {
      var (d1, first) := ReadJournal(s0.d, s0.r.running);
      var (d2, second) := ReadJournal(d1, Inactive(s0.r));
      var (s1, ok) := Load(c, s0, runningBoot, inactiveBoot);
      if first == None || second == None {
        StoreKept(c, s0, s1);
      } else {
        StoreKept(c, s0, s0.(d := d2));
        ChooseKeeps(c, s0.(d := d2), runningBoot, inactiveBoot);
      }
      if !ok { FailedKeeps(c, s1, t); }
    }
  }

  lemma RollbackKeeps(c: Crypto, s: State, e: Error)
    requires Inv(c, s) && !s.r.manifestLoaded
    ensures Inv(c, Rollback(s, e))
  {
    hide Rollback, StoreTrue, Signed, Transferring;
    FailedKeeps(c, s, Rollback(s, e));
  }

  lemma LoopKeeps(c: Crypto, s: State, now: nat, healthy: bool, transmitIdle: bool)
    requires Inv(c, s)
    ensures Inv(c, Loop(s, now, healthy, transmitIdle))
  {
    hide Rollback, ArmReboot, StoreTrue, Signed, Transferring;
    var t := Loop(s, now, healthy, transmitIdle);
    if s.r.phase != PendingVerify {
      QuietStep(c, s, t);
    } else {
      var s1 := s.(r := s.r.(misc := ArmReboot(s.r.misc, now)));
      QuietStep(c, s, s1);
      RollbackKeeps(c, s1, RollbackFailed);
      var s2 := s1.(d := Call(s1.d).0);
      QuietStep(c, s1, s2);
      RollbackKeeps(c, s2, RollbackFailed);
      StoreKept(c, s, t);
    }
  }

  // ----- whole runs -----

  lemma StepKeeps(c: Crypto, s: State, e: Event)
    requires Inv(c, s)
    ensures Inv(c, Step(c, s, e))
  {
    hide StoreTrue, RamTrue, Boot, Loop, HandleBegin, HandleWrite, HandleFinish, HandleReboot, HandleAbort, Rollback;
    var t := Step(c, s, e);
    match e
    case Reset(running, version, usable, plan, runningBoot, inactiveBoot) =>
      BootKeeps(c, s, running % 2, version, usable, plan, runningBoot, inactiveBoot);
    case Begin(b) => BeginKeeps(c, s, b); if t.r.misc != s.r.misc { RejectKeeps(c, s, NotBegun); }
    case Write(chunk) => WriteKeeps(c, s, chunk); RejectKeeps(c, s, NotBegun);
    case Finish(id) => FinishRequestKeeps(c, s, id); RejectKeeps(c, s, NotBegun);
    case Reboot(id) => RebootKeeps(c, s, id); RejectKeeps(c, s, NotBegun);
    case Abort(id) => AbortKeeps(c, s, id); RejectKeeps(c, s, NotBegun);
    case Status(ok) => QuietStep(c, s, t);
    case Initialized(healthy, now) =>
      if s.r.phase == PendingVerify {
        assert !s.r.manifestLoaded by { LoadedPhases(c, s); }
        RollbackKeeps(c, s, RollbackFailed);
      }
      if t.r.phase == s.r.phase { QuietStep(c, s, t); }
    case Tick(now, healthy, transmitIdle) => LoopKeeps(c, s, now, healthy, transmitIdle);
  }

  lemma LoadedPhases(c: Crypto, s: State)
    requires Shape(s) && RamTrue(c, s)
    ensures s.r.manifestLoaded ==> s.r.phase in {Receiving, ReadyToReboot, Failed}
  {
  }

  lemma RejectKeeps(c: Crypto, s: State, e: Error)
    requires Inv(c, s)
    ensures Inv(c, Reject(s, e).0)
  {
    hide StoreTrue, RamTrue;
    QuietStep(c, s, Reject(s, e).0);
  }

  lemma {:induction false} RunKeeps(c: Crypto, s: State, events: seq<Event>)
    requires Inv(c, s)
    ensures Inv(c, Run(c, s, events))
    decreases |events|
  {
    hide StoreTrue, RamTrue, Step;
    if events != [] {
      RunKeeps(c, s, events[..|events| - 1]);
      StepKeeps(c, Run(c, s, events[..|events| - 1]), events[|events| - 1]);
    }
  }
}
