/** How many records of each kind a journal collects, and which events leave gaps or a second Abandoned record. */
module BleOtaCensus {
  import opened Bytes
  import opened BleOta
  import opened BleOtaProofs
  import opened BleOtaRuns
  import opened BleOtaAbort
  import opened BleOtaJournal
  import opened BleOtaReopen

  // ----- one append -----

  predicate NextRecord(cell: Cell, j: Cursor, mark: Mark) {
    cell.Record? && cell.mark == mark && cell.sequence == j.sequence + 1
  }

  /** The journal as it was, with at most one further record in the cell of the cursor; the cursor moves only behind a record. */
  predicate OneRecord(r: Ram, q: Ram, s: Slot, t: Slot, mark: Mark)
    requires SlotShape(s) && SlotShape(t)
  {
    var j := r.journal;
    t.header == s.header && q.target == r.target && q.running == r.running
    && ((q.journal == j && t.cells == s.cells)
        || (j.headerReady && j.nextSlot < CAPACITY && t.cells == s.cells[j.nextSlot := t.cells[j.nextSlot]]
            && ((q.journal == j && t.cells[j.nextSlot] == Garbage)
                || (q.journal in {j, Cursor(true, j.sequence + 1, j.nextSlot + 1)} && NextRecord(t.cells[j.nextSlot], j, mark)))))
  }

  lemma AppendIsOneRecord(s: State, mark: Mark, offset: nat)
    requires Shape(s)
    ensures var t := Append(s, mark, offset).0; var i := Inactive(s.r); OneRecord(s.r, t.r, s.d.slots[i], t.d.slots[i], mark)
  {
    hide Append;
    AppendFrame(s, mark, offset);
    AppendLeaves(s, mark, offset);
    if !s.r.journal.headerReady { NoCursorNoAppend(s, mark, offset); }
    if Append(s, mark, offset).1 {
      AppendWrites(s, mark, offset);
      AppendGuard(s, mark, offset);
    }
  }

  lemma NoCursorNoAppend(s: State, mark: Mark, offset: nat)
    requires Shape(s) && !s.r.journal.headerReady
    ensures Append(s, mark, offset) == (s, false)
  {
  }

  lemma WriteIsOneRecord(s: State, q: Option<Chunk>)
    requires Shape(s)
    ensures var t := HandleWrite(s, q).0; var i := Inactive(s.r); OneRecord(s.r, t.r, s.d.slots[i], t.d.slots[i], InProgress)
  {
    hide WriteFresh, Compare;
    if q.Some? && s.r.nextOffset + |q.value.data| <= s.r.target.imageBytes && s.r.prefix.Some? {
      FreshIsOneRecord(s, q.value.data);
    }
  }

  lemma FreshIsOneRecord(s: State, data: seq<byte>)
    requires Shape(s) && s.r.nextOffset + |data| <= s.r.target.imageBytes && s.r.prefix.Some?
    ensures var t := WriteFresh(s, data).0; var i := Inactive(s.r); OneRecord(s.r, t.r, s.d.slots[i], t.d.slots[i], InProgress)
  {
    hide EraseAhead, ProgramChunk, Append, Checkpointed, NextRecord;
    var m := s.r.nextOffset + |data|;
    EraseAheadFrame(s, m);
    var s1 := EraseAhead(s, m).0;
    ProgramChunkFrame(s1, data);
    var s2 := ProgramChunk(s1, data).0;
    AppendIsOneRecord(s2.(r := s2.r.(prefix := Some(s2.r.prefix.value + data), nextOffset := m),
                          a := SetAccepted(s2.a, Inactive(s.r), s2.a.accepted[Inactive(s.r)] + data)), InProgress, Checkpointed(m));
  }

  lemma FinishIsOneRecord(c: Crypto, s: State, id: Option<Digest>)
    requires Shape(s)
    ensures var t := HandleFinish(c, s, id).0; var i := Inactive(s.r); OneRecord(s.r, t.r, s.d.slots[i], t.d.slots[i], Complete)
  {
    hide VerifyImage, Append, SelectSlot;
    AppendIsOneRecord(VerifyImage(c, s).0, Complete, s.r.target.imageBytes);
  }

  // ----- gaps -----

  /** A blank cell in front of an occupied one. */
  ghost predicate Gap(cells: seq<Cell>) {
    exists j, k :: 0 <= j < k < |cells| && cells[j] == Blank && cells[k] != Blank
  }

  /** What leaves a gap in a journal without one: a sector erase that failed half way, or an abort whose cursor stands behind
      blank cells. */
  ghost predicate LeavesGap(c: Crypto, s: State, e: Event, i: nat)
    requires Shape(s)
  {
    i == Inactive(s.r) && s.d.alive && s.r.misc.begun
    && match e
       case Begin(b) =>
         var (t, r) := HandleBegin(c, s, b);
         Opens(s.r.phase) && !r.ok && r.error == Some(FlashEraseFailed) && Gap(t.d.slots[i].cells)
       case Abort(id) =>
         var (t, r) := HandleAbort(s, id);
         if r.ok then
           s.r.journal.headerReady && Append(Selected(s), Abandoned, s.r.nextOffset).1
           && exists j :: 0 <= j < s.r.journal.nextSlot && j < CAPACITY && s.d.slots[i].cells[j] == Blank
         else r.error == Some(JournalFailed) && Gap(t.d.slots[i].cells)
       case _ => false
  }

  lemma BlankHasNoGap(s: Slot)
    requires SlotShape(s) && forall k :: 0 < k < CAPACITY ==> s.cells[k] == Blank
    ensures !Gap(s.cells)
  {
  }

  lemma PrepareGap(s: State, m: Manifest, id: Digest)
    requires Shape(s) && !Gap(s.d.slots[Inactive(s.r)].cells) && 0 < m.imageBytes <= IMAGE_MAX
    ensures var (t, failure) := PrepareNewUpdate(s, m, id);
      Gap(t.d.slots[Inactive(s.r)].cells) ==> failure == Some(FlashEraseFailed)
  {
    hide Append, EraseJournal, WriteHeader, SelectSlot, Gap;
    var i := Inactive(s.r);
    var s0, h := s.(r := CancelReboot(s.r)), Header(m.imageBytes, id, m.sha, m.version);
    var (s1, failure) := OpenJournal(s0, h);
    OpenedBlank(s0, h);
    if failure == None {
      var s2 := s1.(r := s1.r.(journal := Cursor(true, 0, 0), target := Target(true, id, m.sha, m.version, m.imageBytes),
                               nextOffset := 0, persistedOffset := 0, erasedThrough := 0));
      AppendIsOneRecord(s2, InProgress, 0);
      BlankHasNoGap(Append(s2, InProgress, 0).0.d.slots[i]);
    } else if failure == Some(JournalFailed) {
      BlankHasNoGap(s1.d.slots[i]);
    }
  }

  lemma BeginGap(c: Crypto, s: State, b: Option<(seq<byte>, seq<byte>)>)
    requires Shape(s) && !Gap(s.d.slots[Inactive(s.r)].cells)
    ensures var (t, r) := HandleBegin(c, s, b);
      Gap(t.d.slots[Inactive(s.r)].cells) ==> Opens(s.r.phase) && !r.ok && r.error == Some(FlashEraseFailed)
  {
    hide PrepareNewUpdate, BindResumed, Parse, Gap;
    if b.Some? && Parse(c, b.value.0).Some? {
      ParseBounds(c, b.value.0);
      var s1, m, id := s.(a := s.a.(verified := s.a.verified + {b.value.0})), Parse(c, b.value.0).value, c.digest(b.value.0);
      if Opens(s.r.phase) { PrepareGap(s1, m, id); } else { BindFrame(s1, m, id); }
    }
  }

  lemma AbortGap(s: State, id: Option<Digest>)
    requires Shape(s) && !Gap(s.d.slots[Inactive(s.r)].cells)
    ensures var (t, r) := HandleAbort(s, id); var i, k := Inactive(s.r), s.r.journal.nextSlot;
      Gap(t.d.slots[i].cells) <==>
        if r.ok then
          s.r.journal.headerReady && Append(Selected(s), Abandoned, s.r.nextOffset).1
          && exists j :: 0 <= j < k && j < CAPACITY && s.d.slots[i].cells[j] == Blank
        else r.error == Some(JournalFailed) && Gap(t.d.slots[i].cells)
  {
    hide Append, EraseJournal, SelectSlot, HandleAbort;
    AbortParts(s, id);
    if HandleAbort(s, id).1.ok && s.r.journal.headerReady {
      if Append(Selected(s), Abandoned, s.r.nextOffset).1 {
        AppendWrites(Selected(s), Abandoned, s.r.nextOffset);
        var i, k := Inactive(s.r), s.r.journal.nextSlot;
        RecordGap(s.d.slots[i].cells, k, Record(s.r.journal.sequence + 1, Abandoned, s.r.nextOffset));
      }
    }
  }

  lemma RecordGap(cells: seq<Cell>, k: nat, cell: Cell)
    requires k < |cells| && !Gap(cells) && cell != Blank && (cells[k] == Blank || cells[k] == cell)
    ensures Gap(cells[k := cell]) <==> exists j :: 0 <= j < k && cells[j] == Blank
  {
    var t := cells[k := cell];
    if j :| 0 <= j < k && cells[j] == Blank { assert t[j] == Blank && t[k] != Blank; }
    if Gap(t) {
      var j, m :| 0 <= j < m < |t| && t[j] == Blank && t[m] != Blank;
      assert m == k;
      assert cells[j] == Blank;
    }
  }

  /** A record of a running transfer goes right behind the last occupied cell. */
  lemma TransferGap(c: Crypto, s: State, q: Ram, left: Slot, mark: Mark)
    requires Inv(c, s) && s.r.phase == Receiving && !Gap(s.d.slots[Inactive(s.r)].cells)
    requires SlotShape(left) && OneRecord(s.r, q, s.d.slots[Inactive(s.r)], left, mark)
    ensures !Gap(left.cells)
  {
    hide StoreTrue, Signed, ScanCells;
    var i, k, n := Inactive(s.r), s.r.journal.nextSlot, s.r.target.imageBytes;
    var cells := s.d.slots[i].cells;
    ScanIsNewest(cells, n, CAPACITY);
    LastIsOccupied(cells, n, CAPACITY);
    if k > 0 { assert forall j :: 0 <= j < k - 1 ==> cells[j] != Blank; }
  }

  /** Exactly when an event leaves a gap in a journal that had none. */
  lemma GapsExactly(c: Crypto, s: State, e: Event, i: nat)
    requires Inv(c, s) && i < 2 && !Gap(s.d.slots[i].cells)
    ensures Gap(Step(c, s, e).d.slots[i].cells) <==> LeavesGap(c, s, e, i)
  {
    hide Step, HandleBegin, HandleWrite, HandleFinish, HandleAbort, Append, Inv, Gap;
    InvIsShape(c, s);
    if e.Reset? {
      BootCursor(c, s, e);
    } else if i != Inactive(s.r) {
      OtherSlot(c, s, e);
    } else if s.d.alive && s.r.misc.begun && (e.Begin? || e.Write? || e.Finish? || e.Abort?) {
      Handled(c, s, e);
      if s.r.phase != Receiving { IdleTransfer(c, s); }
      match e
      case Begin(b) => BeginGap(c, s, b);
      case Abort(id) => AbortGap(s, id);
      case Write(q) =>
        var t := HandleWrite(s, q).0;
        WriteIsOneRecord(s, q);
        if s.r.phase == Receiving { TransferGap(c, s, t.r, t.d.slots[i], InProgress); }
      case Finish(id) =>
        var t := HandleFinish(c, s, id).0;
        FinishIsOneRecord(c, s, id);
        if s.r.phase == Receiving { TransferGap(c, s, t.r, t.d.slots[i], Complete); }
    } else {
      Quiet(c, s, e);
    }
  }

  // ----- a second Abandoned record -----

  predicate AbandonedAt(s: Slot, k: nat)
    requires SlotShape(s)
  {
    HeaderUsable(s.header) && k < CAPACITY && Counts(s.cells[k], s.header.imageBytes) && s.cells[k].mark == Abandoned
  }

  ghost predicate Twice(s: Slot)
    requires SlotShape(s)
  {
    exists j, k :: 0 <= j < k && AbandonedAt(s, j) && AbandonedAt(s, k)
  }

  /** An abort whose record is in its cell beside another Abandoned one. */
  ghost predicate AddsSecond(s: State, e: Event, left: Slot)
    requires Shape(s) && SlotShape(left)
  {
    var j := s.r.journal;
    e.Abort? && s.d.alive && s.r.misc.begun && j.headerReady && AbandonedAt(left, j.nextSlot)
    && left.cells[j.nextSlot] == Record(j.sequence + 1, Abandoned, s.r.nextOffset)
    && exists m: nat :: m != j.nextSlot && AbandonedAt(left, m) && AbandonedAt(s.d.slots[Inactive(s.r)], m)
  }

  /** Cells that are new are unreadable, blank, or a record with another mark. */
  lemma NotTwice(before: Slot, after: Slot)
    requires SlotShape(before) && SlotShape(after) && !Twice(before)
    requires forall k: nat :: AbandonedAt(after, k) ==> AbandonedAt(before, k)
    ensures !Twice(after)
  {
    hide AbandonedAt;
  }

  lemma ThinnedAbandoned(before: Slot, after: Slot)
    requires SlotShape(before) && SlotShape(after) && after.header in {before.header, NoHeader, TornHeader}
    requires forall k :: 0 <= k < CAPACITY && after.cells[k] != before.cells[k] ==> !after.cells[k].Record? || after.cells[k].mark != Abandoned
    ensures forall k: nat :: AbandonedAt(after, k) ==> AbandonedAt(before, k)
  {
  }

  lemma NoneAbandoned(s: Slot)
    requires SlotShape(s) && forall k :: 0 <= k < CAPACITY ==> !s.cells[k].Record? || s.cells[k].mark != Abandoned
    ensures forall k: nat :: !AbandonedAt(s, k)
  {
  }

  lemma PrepareOnce(s: State, m: Manifest, id: Digest)
    requires Shape(s) && !Twice(s.d.slots[Inactive(s.r)]) && 0 < m.imageBytes <= IMAGE_MAX
    ensures !Twice(PrepareNewUpdate(s, m, id).0.d.slots[Inactive(s.r)])
  {
    hide Append, EraseJournal, WriteHeader, SelectSlot, Twice, AbandonedAt;
    var i := Inactive(s.r);
    var s0, h := s.(r := CancelReboot(s.r)), Header(m.imageBytes, id, m.sha, m.version);
    var (s1, failure) := OpenJournal(s0, h);
    OpenedBlank(s0, h);
    if failure == None {
      var s2 := s1.(r := s1.r.(journal := Cursor(true, 0, 0), target := Target(true, id, m.sha, m.version, m.imageBytes),
                               nextOffset := 0, persistedOffset := 0, erasedThrough := 0));
      AppendIsOneRecord(s2, InProgress, 0);
      var left := Append(s2, InProgress, 0).0.d.slots[i];
      NoneAbandoned(left);
      NotTwice(s.d.slots[i], left);
    } else if failure == Some(JournalFailed) {
      NoneAbandoned(s1.d.slots[i]);
      NotTwice(s.d.slots[i], s1.d.slots[i]);
    } else {
      ThinnedAbandoned(s.d.slots[i], s1.d.slots[i]);
      NotTwice(s.d.slots[i], s1.d.slots[i]);
    }
  }

  lemma BeginOnce(c: Crypto, s: State, b: Option<(seq<byte>, seq<byte>)>)
    requires Shape(s) && !Twice(s.d.slots[Inactive(s.r)])
    ensures !Twice(HandleBegin(c, s, b).0.d.slots[Inactive(s.r)])
  {
    hide PrepareNewUpdate, BindResumed, Parse, Twice;
    if b.Some? && Parse(c, b.value.0).Some? {
      ParseBounds(c, b.value.0);
      var s1, m, id := s.(a := s.a.(verified := s.a.verified + {b.value.0})), Parse(c, b.value.0).value, c.digest(b.value.0);
      if Opens(s.r.phase) { PrepareOnce(s1, m, id); } else { BindFrame(s1, m, id); }
    }
  }

  /** Behind an abort only the cell of the cursor can hold an Abandoned record that is new. */
  lemma AbortAdds(s: State, id: Option<Digest>)
    requires Shape(s)
    ensures var left, slot, j := HandleAbort(s, id).0.d.slots[Inactive(s.r)], s.d.slots[Inactive(s.r)], s.r.journal;
      forall k: nat :: AbandonedAt(left, k) && !AbandonedAt(slot, k) ==>
        j.headerReady && k == j.nextSlot && left.cells[k] == Record(j.sequence + 1, Abandoned, s.r.nextOffset)
  {
    hide Append, EraseJournal, SelectSlot, HandleAbort;
    AbortParts(s, id);
    AppendFrame(Selected(s), Abandoned, s.r.nextOffset);
    AppendLeaves(Selected(s), Abandoned, s.r.nextOffset);
    if !s.r.journal.headerReady { NoCursorStays(s, id); }
  }

  lemma NoCursorStays(s: State, id: Option<Digest>)
    requires Shape(s) && !s.r.journal.headerReady
    ensures HandleAbort(s, id).0.d.slots == s.d.slots
  {
    hide SelectSlot;
  }

  lemma AbortTwice(s: State, id: Option<Digest>)
    requires Shape(s) && s.d.alive && s.r.misc.begun && !Twice(s.d.slots[Inactive(s.r)])
    ensures var left := HandleAbort(s, id).0.d.slots[Inactive(s.r)]; Twice(left) <==> AddsSecond(s, Abort(id), left)
  {
    hide HandleAbort, AbandonedAt;
    var left, slot := HandleAbort(s, id).0.d.slots[Inactive(s.r)], s.d.slots[Inactive(s.r)];
    AbortAdds(s, id);
    if Twice(left) {
      var j, k :| 0 <= j < k && AbandonedAt(left, j) && AbandonedAt(left, k);
      assert !(AbandonedAt(slot, j) && AbandonedAt(slot, k));
    }
    if AddsSecond(s, Abort(id), left) {
      var m: nat :| m != s.r.journal.nextSlot && AbandonedAt(left, m) && AbandonedAt(slot, m);
      var k := s.r.journal.nextSlot;
      assert if m < k then AbandonedAt(left, m) && AbandonedAt(left, k) else AbandonedAt(left, k) && AbandonedAt(left, m);
    }
  }

  lemma RecordOnce(r: Ram, q: Ram, s: Slot, t: Slot, mark: Mark)
    requires SlotShape(s) && SlotShape(t) && OneRecord(r, q, s, t, mark) && mark != Abandoned && !Twice(s)
    ensures !Twice(t)
  {
    hide Twice, AbandonedAt;
    ThinnedAbandoned(s, t);
    NotTwice(s, t);
  }

  /** Exactly when an event leaves a second Abandoned record in a journal that had one at most. */
  lemma SecondAbandonedExactly(c: Crypto, s: State, e: Event, i: nat)
    requires Shape(s) && i < 2 && !Twice(s.d.slots[i])
    ensures var left := Step(c, s, e).d.slots[i]; Twice(left) <==> i == Inactive(s.r) && AddsSecond(s, e, left)
  {
    hide Step, HandleBegin, HandleWrite, HandleFinish, HandleAbort, Twice, AbandonedAt;
    if e.Reset? {
      BootCursor(c, s, e);
    } else if i != Inactive(s.r) {
      OtherSlot(c, s, e);
    } else if s.d.alive && s.r.misc.begun && (e.Begin? || e.Write? || e.Finish? || e.Abort?) {
      Handled(c, s, e);
      match e
      case Begin(b) => BeginOnce(c, s, b);
      case Abort(id) => AbortTwice(s, id);
      case Write(q) =>
        var t := HandleWrite(s, q).0;
        WriteIsOneRecord(s, q);
        RecordOnce(s.r, t.r, s.d.slots[i], t.d.slots[i], InProgress);
      case Finish(id) =>
        var t := HandleFinish(c, s, id).0;
        FinishIsOneRecord(c, s, id);
        RecordOnce(s.r, t.r, s.d.slots[i], t.d.slots[i], Complete);
    } else {
      Quiet(c, s, e);
    }
  }

  // ----- aborts that counted by the other journal -----

  /** Whether an abort counted by the running slot's records may have put its own into the journal of slot `i` since that was
      last opened. */
  function NextMixed(c: Crypto, tr: Traced, e: Event, i: nat, mixed: bool): bool
    requires TraceShape(tr)
  {
    var s := tr.s;
    if i != Inactive(s.r) || !s.d.alive || !s.r.misc.begun then mixed
    else
      match e
      case Begin(b) =>
        var r := HandleBegin(c, s, b).1;
        mixed && !(Opens(s.r.phase) && (r.ok || r.error == Some(JournalFailed)))
      case Abort(id) =>
        var r := HandleAbort(s, id).1;
        if !s.r.journal.headerReady || (!r.ok && r.error != Some(JournalFailed)) then mixed
        else if r.ok && !Append(Selected(s), Abandoned, s.r.nextOffset).1 then false
        else mixed || tr.foreign
      case _ => mixed
  }

  function Mixed(c: Crypto, s: State, events: seq<Event>, i: nat): bool
    requires Shape(s)
    decreases |events|
  {
    if events == [] then false
    else
      var n := |events| - 1;
      NextMixed(c, Trace(c, s, events[..n]), events[n], i, Mixed(c, s, events[..n], i))
  }

  predicate Top(s: Slot) {
    HeaderUsable(s.header) ==> AbandonedTop(s.cells, s.header.imageBytes)
  }

  /** The cursor has counted every record but the one in its own cell, and no other is Abandoned. */
  predicate Counting(r: Ram, s: Slot)
    requires SlotShape(s)
  {
    r.journal.headerReady && HeaderUsable(s.header) ==>
      forall j :: 0 <= j < CAPACITY && Counts(s.cells[j], s.header.imageBytes) ==>
        if j != r.journal.nextSlot then s.cells[j].sequence <= r.journal.sequence && s.cells[j].mark != Abandoned
        else s.cells[j].mark == Abandoned ==> s.cells[j].sequence == r.journal.sequence + 1
  }

  predicate Sole(foreign: bool, r: Ram, s: Slot)
    requires SlotShape(s)
  {
    Top(s) && (!foreign ==> Counting(r, s))
  }

  lemma SoleThinned(foreign: bool, r: Ram, q: Ram, s: Slot, t: Slot)
    requires SlotShape(s) && SlotShape(t) && Sole(foreign, r, s) && q.journal == r.journal
    requires t.header in {s.header, NoHeader, TornHeader}
    requires forall k :: 0 <= k < CAPACITY ==> t.cells[k] in {s.cells[k], Blank, Garbage}
    ensures Sole(foreign, q, t)
  {
    hide Counts;
    if HeaderUsable(t.header) {
      NeverCounts(t.header.imageBytes);
      forall j, k | 0 <= j < CAPACITY && 0 <= k < CAPACITY && j != k ensures BelowAbandoned(t.cells[j], t.cells[k], t.header.imageBytes) {
        assert BelowAbandoned(s.cells[j], s.cells[k], t.header.imageBytes);
      }
    }
  }

  lemma SoleRecord(r: Ram, q: Ram, s: Slot, t: Slot, mark: Mark)
    requires SlotShape(s) && SlotShape(t) && Sole(false, r, s) && OneRecord(r, q, s, t, mark)
    ensures Top(t) && (mark != Abandoned || q.journal == r.journal ==> Counting(q, t))
  {
    hide Counts;
    if HeaderUsable(t.header) { NeverCounts(t.header.imageBytes); }
  }

  lemma SoleNoCursor(foreign: bool, r: Ram, s: Slot)
    requires SlotShape(s) && Top(s) && !r.journal.headerReady
    ensures Sole(foreign, r, s)
  {
  }

  lemma TopUnusable(s: Slot)
    requires !HeaderUsable(s.header)
    ensures Top(s)
  {
  }

  /** A cursor taken from a scan. */
  lemma SoleScanned(r: Ram, s: Slot)
    requires SlotShape(s) && Top(s) && JournalOf(s).Some? && JournalOf(s).value.mark != Abandoned
    requires r.journal == Cursor(true, JournalOf(s).value.sequence, JournalOf(s).value.lastOccupied)
    ensures Sole(false, r, s)
  {
    hide ScanCells;
    var n := s.header.imageBytes;
    JournalIs(s);
    ScanIsNewest(s.cells, n, CAPACITY);
    var m := ShownLeads(s);
    forall j | 0 <= j < CAPACITY && Counts(s.cells[j], n) ensures s.cells[j].mark != Abandoned {
      assert j != m ==> BelowAbandoned(s.cells[m], s.cells[j], n);
    }
  }

  lemma SoleBlank(foreign: bool, r: Ram, s: Slot)
    requires SlotShape(s) && forall k :: 0 <= k < CAPACITY ==> s.cells[k] == Blank
    ensures Sole(foreign, r, s)
  {
  }

  lemma PrepareSole(foreign: bool, s: State, m: Manifest, id: Digest)
    requires Shape(s) && 0 < m.imageBytes <= IMAGE_MAX
    ensures var (t, failure) := PrepareNewUpdate(s, m, id); var slot, left := s.d.slots[Inactive(s.r)], t.d.slots[Inactive(s.r)];
      && (failure == None || failure == Some(JournalFailed) ==> Sole(false, t.r, left))
      && (failure != None && failure != Some(JournalFailed) && Sole(foreign, s.r, slot) ==> Sole(foreign, t.r, left))
  {
    hide Append, EraseJournal, WriteHeader, SelectSlot, Sole;
    var i := Inactive(s.r);
    var s0, h := s.(r := CancelReboot(s.r)), Header(m.imageBytes, id, m.sha, m.version);
    var (s1, failure) := OpenJournal(s0, h);
    OpenedBlank(s0, h);
    if failure == None {
      var s2 := s1.(r := s1.r.(journal := Cursor(true, 0, 0), target := Target(true, id, m.sha, m.version, m.imageBytes),
                               nextOffset := 0, persistedOffset := 0, erasedThrough := 0));
      SoleBlank(false, s2.r, s2.d.slots[i]);
      AppendIsOneRecord(s2, InProgress, 0);
      var t := Append(s2, InProgress, 0).0;
      SoleRecord(s2.r, t.r, s2.d.slots[i], t.d.slots[i], InProgress);
      SoleIs(t.r, PrepareNewUpdate(s, m, id).0.r, t.d.slots[i]);
    } else if failure == Some(JournalFailed) {
      SoleBlank(false, s1.r, s1.d.slots[i]);
    } else if Sole(foreign, s.r, s.d.slots[i]) {
      SoleThinned(foreign, s.r, s1.r, s.d.slots[i], s1.d.slots[i]);
    }
  }

  lemma SoleIs(r: Ram, q: Ram, s: Slot)
    requires SlotShape(s) && Top(s) && Counting(r, s) && q.journal == r.journal
    ensures Sole(false, q, s)
  {
    hide Counts;
  }

  lemma BeginSole(c: Crypto, foreign: bool, mixed: bool, s: State, b: Option<(seq<byte>, seq<byte>)>)
    requires Shape(s) && (!mixed ==> Sole(foreign, s.r, s.d.slots[Inactive(s.r)]))
    ensures var (t, r) := HandleBegin(c, s, b); var started := Opens(s.r.phase) && (r.ok || r.error == Some(JournalFailed));
      !(mixed && !started) ==> Sole(foreign && !started, t.r, t.d.slots[Inactive(s.r)])
  {
    hide PrepareNewUpdate, BindResumed, Parse, Sole;
    if b.Some? && Parse(c, b.value.0).Some? {
      ParseBounds(c, b.value.0);
      var s1, m, id := s.(a := s.a.(verified := s.a.verified + {b.value.0})), Parse(c, b.value.0).value, c.digest(b.value.0);
      if Opens(s.r.phase) {
        PrepareSole(foreign, s1, m, id);
        var t := PrepareNewUpdate(s1, m, id).0;
        forall r: Ram | r.journal == t.r.journal ensures SameSole(t.r, r, t.d.slots[Inactive(s.r)]) { SoleCursor(t.r, r, t.d.slots[Inactive(s.r)]); }
      } else {
        BindFrame(s1, m, id);
      }
    }
    forall r: Ram | r.journal == s.r.journal ensures SameSole(s.r, r, s.d.slots[Inactive(s.r)]) { SoleCursor(s.r, r, s.d.slots[Inactive(s.r)]); }
  }

  /** Only the cursor matters. */
  ghost predicate SameSole(r: Ram, q: Ram, s: Slot)
    requires SlotShape(s)
  {
    forall foreign: bool :: Sole(foreign, r, s) ==> Sole(foreign, q, s)
  }

  lemma SoleCursor(r: Ram, q: Ram, s: Slot)
    requires SlotShape(s) && q.journal == r.journal
    ensures SameSole(r, q, s)
  {
    hide Counts;
  }

  lemma AbortSole(foreign: bool, mixed: bool, s: State, id: Option<Digest>)
    requires Shape(s) && (!mixed ==> Sole(foreign, s.r, s.d.slots[Inactive(s.r)]))
    ensures var (t, r) := HandleAbort(s, id); var i := Inactive(s.r);
      var mixed' := if !s.r.journal.headerReady || (!r.ok && r.error != Some(JournalFailed)) then mixed
                    else if r.ok && !Append(Selected(s), Abandoned, s.r.nextOffset).1 then false
                    else mixed || foreign;
      !mixed' ==> Sole(foreign && !r.ok, t.r, t.d.slots[i])
  {
    hide Append, EraseJournal, SelectSlot, HandleAbort, Sole, Counting, Top;
    var (t, r) := HandleAbort(s, id);
    var i, s1 := Inactive(s.r), Selected(s);
    AbortParts(s, id);
    AbortCursor(s, id);
    if !r.ok { SoleCursor(s.r, t.r, s.d.slots[i]); }
    SoleCursor(s.r, s1.r, s.d.slots[i]);
    AppendIsOneRecord(s1, Abandoned, s.r.nextOffset);
    var s2, ok := Append(s1, Abandoned, s.r.nextOffset).0, Append(s1, Abandoned, s.r.nextOffset).1;
    AppendFrame(s1, Abandoned, s.r.nextOffset);
    if r.ok && s.r.journal.headerReady && !ok {
      TopUnusable(t.d.slots[i]);
      SoleNoCursor(false, t.r, t.d.slots[i]);
    } else if !mixed && r.ok {
      SoleTop(foreign, s.r, s.d.slots[i]);
      if s.r.journal.headerReady && !foreign { SoleRecord(s1.r, s2.r, s.d.slots[i], s2.d.slots[i], Abandoned); }
      if !s.r.journal.headerReady || !foreign { SoleNoCursor(false, t.r, t.d.slots[i]); }
    } else if !mixed && r.error == Some(JournalFailed) && !foreign {
      SoleRecord(s1.r, s2.r, s.d.slots[i], s2.d.slots[i], Abandoned);
      SoleIs(s2.r, s2.r, s2.d.slots[i]);
      SoleThinned(false, s2.r, t.r, s2.d.slots[i], t.d.slots[i]);
    }
  }

  lemma SoleTop(foreign: bool, r: Ram, s: Slot)
    requires SlotShape(s) && Sole(foreign, r, s)
    ensures Top(s)
  {
  }

  /** The cursor behind an abort. */
  lemma AbortCursor(s: State, id: Option<Digest>)
    requires Shape(s)
    ensures var (t, r) := HandleAbort(s, id); if r.ok then t.r.journal == NO_CURSOR else t.r.journal == s.r.journal
  {
    hide Append, EraseJournal, SelectSlot;
    AppendFrame(Selected(s), Abandoned, s.r.nextOffset);
  }

  ghost predicate SoleKept(tr: Traced, mixed: seq<bool>)
    requires TraceShape(tr) && |mixed| == 2
  {
    var i := Inactive(tr.s.r);
    && (!mixed[i] ==> Sole(tr.foreign, tr.s.r, tr.s.d.slots[i]))
    && (!mixed[1 - i] ==> Top(tr.s.d.slots[1 - i]))
  }

  lemma StepSole(c: Crypto, tr: Traced, e: Event, mixed: seq<bool>)
    requires BleOtaJournal.Kept(c, tr) && |mixed| == 2 && SoleKept(tr, mixed)
    ensures SoleKept(Next(c, tr, e), [NextMixed(c, tr, e, 0, mixed[0]), NextMixed(c, tr, e, 1, mixed[1])])
  {
    hide Step, Inv, Sole, Top, HandleBegin, HandleWrite, HandleFinish, HandleAbort, Append, NextLedger, TakesRunning, Tells, Tidy, CursorSound;
    KeptShape(c, tr);
    if e.Reset? { ResetSole(c, tr, e, mixed); } else { RequestSole(c, tr, e, mixed[Inactive(tr.s.r)]); OtherSlot(c, tr.s, e); }
  }

  lemma KeptShape(c: Crypto, tr: Traced)
    requires BleOtaJournal.Kept(c, tr)
    ensures Shape(tr.s) && Inv(c, tr.s) && (tr.foreign ==> tr.s.r.phase in {Confirmed, PendingVerify, Failed})
  {
    hide Inv, Tells, Tidy, CursorSound;
    InvIsShape(c, tr.s);
  }

  lemma ResetSole(c: Crypto, tr: Traced, e: Event, mixed: seq<bool>)
    requires BleOtaJournal.Kept(c, tr) && |mixed| == 2 && SoleKept(tr, mixed) && e.Reset?
    ensures SoleKept(Next(c, tr, e), mixed)
  {
    hide Step, Inv, Top, Counting, NextLedger, TakesRunning, Tells, Tidy, CursorSound, JournalOf;
    KeptShape(c, tr);
    BootCursor(c, tr.s, e);
    var u := Next(c, tr, e);
    var i := Inactive(u.s.r);
    assert u.s.d.slots == tr.s.d.slots;
    if !mixed[i] && !u.foreign {
      if u.s.r.journal.headerReady { SoleScanned(u.s.r, u.s.d.slots[i]); } else { SoleNoCursor(false, u.s.r, u.s.d.slots[i]); }
    }
  }

  lemma RequestSole(c: Crypto, tr: Traced, e: Event, mixed: bool)
    requires BleOtaJournal.Kept(c, tr) && !e.Reset? && (!mixed ==> Sole(tr.foreign, tr.s.r, tr.s.d.slots[Inactive(tr.s.r)]))
    ensures var u := Next(c, tr, e); var i := Inactive(tr.s.r);
      !NextMixed(c, tr, e, i, mixed) ==> Sole(u.foreign, u.s.r, u.s.d.slots[i])
  {
    hide Step, Inv, Sole, HandleBegin, HandleWrite, HandleFinish, HandleAbort, Append, NextLedger, BleOtaJournal.Kept;
    KeptShape(c, tr);
    var s := tr.s;
    var i := Inactive(s.r);
    if s.d.alive && s.r.misc.begun && (e.Begin? || e.Write? || e.Finish? || e.Abort?) {
      Handled(c, s, e);
      match e
      case Begin(b) => BeginSole(c, tr.foreign, mixed, s, b);
      case Abort(id) => AbortSole(tr.foreign, mixed, s, id);
      case Write(q) =>
        var t := HandleWrite(s, q).0;
        WriteIsOneRecord(s, q);
        if tr.foreign { ForeignRejects(c, s); SoleCursor(s.r, t.r, s.d.slots[i]); }
        else if !mixed { RecordSole(s.r, t.r, s.d.slots[i], t.d.slots[i], InProgress); }
      case Finish(id) =>
        var t := HandleFinish(c, s, id).0;
        FinishIsOneRecord(c, s, id);
        if tr.foreign { ForeignRejects(c, s); SoleCursor(s.r, t.r, s.d.slots[i]); }
        else if !mixed { RecordSole(s.r, t.r, s.d.slots[i], t.d.slots[i], Complete); }
    } else {
      Quiet(c, s, e);
      SoleCursor(s.r, Step(c, s, e).r, s.d.slots[i]);
    }
  }

  lemma RecordSole(r: Ram, q: Ram, s: Slot, t: Slot, mark: Mark)
    requires SlotShape(s) && SlotShape(t) && Sole(false, r, s) && OneRecord(r, q, s, t, mark) && mark != Abandoned
    ensures Sole(false, q, t)
  {
    hide Top, Counting, OneRecord;
    SoleRecord(r, q, s, t, mark);
  }

  lemma {:induction false} MixedKeeps(c: Crypto, s: State, events: seq<Event>)
    requires Factory(s) && !s.r.journal.headerReady
    ensures SoleKept(Trace(c, s, events), [Mixed(c, s, events, 0), Mixed(c, s, events, 1)])
    decreases |events|
  {
    hide Next, NextMixed, SoleKept, Inv;
    if events == [] {
      FactorySole(s);
    } else {
      var n := |events| - 1;
      MixedKeeps(c, s, events[..n]);
      TraceKeeps(c, s, events[..n]);
      StepSole(c, Trace(c, s, events[..n]), events[n], [Mixed(c, s, events[..n], 0), Mixed(c, s, events[..n], 1)]);
    }
  }

  lemma FactorySole(s: State)
    requires Factory(s) && !s.r.journal.headerReady
    ensures SoleKept(Traced(s, [OPENED, OPENED], false), [false, false])
  {
  }

  // ----- how many records a journal collects -----

  /** The cells of a journal, counted by kind: checkpoints, completions, abandonments, unreadable ones and blank ones. */
  datatype Census = Census(checkpoints: nat, completions: nat, abandoned: nat, torn: nat, blank: nat)

  ghost function Counted(cells: seq<Cell>, imageBytes: nat, n: nat): (all: Census)
    requires n <= |cells|
    ensures all.checkpoints + all.completions + all.abandoned + all.torn + all.blank == n
  {
    if n == 0 then Census(0, 0, 0, 0, 0)
    else
      var before, cell := Counted(cells, imageBytes, n - 1), cells[n - 1];
      if cell == Blank then before.(blank := before.blank + 1)
      else if !Counts(cell, imageBytes) then before.(torn := before.torn + 1)
      else match cell.mark
        case InProgress => before.(checkpoints := before.checkpoints + 1)
        case Complete => before.(completions := before.completions + 1)
        case Abandoned => before.(abandoned := before.abandoned + 1)
  }

  ghost function Checkpoints(cells: seq<Cell>, imageBytes: nat, n: nat): nat
    requires n <= |cells|
  {
    if n == 0 then 0 else Checkpoints(cells, imageBytes, n - 1) + if Progress(cells[n - 1], imageBytes) then 1 else 0
  }

  /** Offsets climb in steps of 64 KiB. */
  lemma {:induction false} CheckpointsClimb(cells: seq<Cell>, imageBytes: nat, n: nat, bound: nat)
    requires n <= |cells| && Ordered(cells, imageBytes)
    requires forall k :: 0 <= k < n && Progress(cells[k], imageBytes) ==> cells[k].offset <= bound
    ensures CHECKPOINT * Checkpoints(cells, imageBytes, n) <= bound + CHECKPOINT
  {
    if n > 0 {
      var last := cells[n - 1];
      if Progress(last, imageBytes) {
        forall k | 0 <= k < n - 1 && Progress(cells[k], imageBytes) ensures cells[k].offset <= last.offset - CHECKPOINT {
          assert Climbs(cells[k], last, imageBytes);
          MultiplesApart(cells[k].offset, last.offset);
        }
        if last.offset == 0 {
          NoneBelow(cells, imageBytes, n - 1);
        } else {
          MultiplesApart(0, last.offset);
          CheckpointsClimb(cells, imageBytes, n - 1, last.offset - CHECKPOINT);
        }
      } else {
        CheckpointsClimb(cells, imageBytes, n - 1, bound);
      }
    }
  }

  lemma MultiplesApart(a: nat, b: nat)
    requires a % CHECKPOINT == 0 && b % CHECKPOINT == 0 && a < b
    ensures a + CHECKPOINT <= b
  {
    assert a == CHECKPOINT * (a / CHECKPOINT) && b == CHECKPOINT * (b / CHECKPOINT);
  }

  lemma {:induction false} NoneBelow(cells: seq<Cell>, imageBytes: nat, n: nat)
    requires n <= |cells| && forall k :: 0 <= k < n ==> !Progress(cells[k], imageBytes)
    ensures Checkpoints(cells, imageBytes, n) == 0
  {
    if n > 0 { NoneBelow(cells, imageBytes, n - 1); }
  }

  lemma {:induction false} CheckpointsCounted(cells: seq<Cell>, imageBytes: nat, n: nat)
    requires n <= |cells|
    ensures Counted(cells, imageBytes, n).checkpoints == Checkpoints(cells, imageBytes, n)
  {
    if n > 0 { CheckpointsCounted(cells, imageBytes, n - 1); }
  }

  /** One completion at most. */
  lemma {:induction false} OneCompletion(cells: seq<Cell>, imageBytes: nat, n: nat)
    requires n <= |cells| && Ordered(cells, imageBytes)
    ensures Counted(cells, imageBytes, n).completions <= 1
    ensures Counted(cells, imageBytes, n).completions == 1 ==> exists k :: 0 <= k < n && Completion(cells[k], imageBytes)
  {
    if n > 0 {
      OneCompletion(cells, imageBytes, n - 1);
      if Counted(cells, imageBytes, n - 1).completions == 1 {
        var k :| 0 <= k < n - 1 && Completion(cells[k], imageBytes);
        assert OneEnd(cells[k], cells[n - 1], imageBytes);
      } else {
        assert Counted(cells, imageBytes, n).completions == 1 ==> Completion(cells[n - 1], imageBytes);
      }
    }
  }

  /** One abandonment at most, if abandonments are numbered above all others. */
  lemma {:induction false} OneAbandonment(cells: seq<Cell>, imageBytes: nat, n: nat)
    requires n <= |cells| && AbandonedTop(cells, imageBytes)
    ensures Counted(cells, imageBytes, n).abandoned <= 1
    ensures Counted(cells, imageBytes, n).abandoned == 1 ==>
      exists k :: 0 <= k < n && Counts(cells[k], imageBytes) && cells[k].mark == Abandoned
  {
    if n > 0 {
      OneAbandonment(cells, imageBytes, n - 1);
      var last := cells[n - 1];
      if Counted(cells, imageBytes, n - 1).abandoned == 1 {
        var k :| 0 <= k < n - 1 && Counts(cells[k], imageBytes) && cells[k].mark == Abandoned;
        assert BelowAbandoned(cells[k], last, imageBytes) && BelowAbandoned(last, cells[k], imageBytes);
      } else {
        assert Counted(cells, imageBytes, n).abandoned == 1 ==> Counts(last, imageBytes) && last.mark == Abandoned;
      }
    }
  }

  /** No blank cell below an occupied one. */
  lemma {:induction false} NoneBlank(cells: seq<Cell>, imageBytes: nat, n: nat)
    requires n <= |cells| && forall k :: 0 <= k < n ==> cells[k] != Blank
    ensures Counted(cells, imageBytes, n).blank == 0
  {
    if n > 0 { NoneBlank(cells, imageBytes, n - 1); }
  }

  /** In every run of a new device, for the journal of either slot: every occupied stretch is checkpoints, completions,
      abandonments, unreadable records and gaps; checkpoints are at most one for each 64 KiB of the image and one for its start,
      completions at most one; there is at most one abandonment unless an abort counted by the other journal; and unless that
      or a cut erase left one there is no gap, so that readable records number at most three more than the image has 64 KiB. */
  lemma JournalBound(c: Crypto, s: State, events: seq<Event>, i: nat)
    requires Factory(s) && !s.r.journal.headerReady && i < 2 && HeaderUsable(Run(c, s, events).d.slots[i].header)
    ensures var slot := Run(c, s, events).d.slots[i]; var n := slot.header.imageBytes;
      var used := ScanCells(slot.cells, n, CAPACITY).lastOccupied; var all := Counted(slot.cells, n, used);
      && used == all.checkpoints + all.completions + all.abandoned + all.torn + all.blank
      && all.checkpoints <= n / CHECKPOINT + 1 <= 48 && all.completions <= 1
      && (!Mixed(c, s, events, i) ==> all.abandoned <= 1 && used <= n / CHECKPOINT + 3 + all.torn + all.blank)
      && (Trace(c, s, events).ledgers[i].clean ==>
            all.abandoned <= 1 && all.blank == 0 && used <= n / CHECKPOINT + 3 + all.torn)
  {
    hide Trace, Run, Mixed, Tells, CursorSound, ScanCells, Counted, Counts, Counting, Signed;
    MixedKeeps(c, s, events);
    TraceKeeps(c, s, events);
    TraceIsRun(c, s, events);
    var tr := Trace(c, s, events);
    var slot := tr.s.d.slots[i];
    var n := slot.header.imageBytes;
    var used := ScanCells(slot.cells, n, CAPACITY).lastOccupied;
    assert JournalTrue(c, tr.s.a.verified, slot, tr.s.a.accepted[i]) by { JournalAt(c, tr.s, i); }
    CheckpointsCounted(slot.cells, n, used);
    OffsetsFit(slot.cells, n);
    CheckpointsClimb(slot.cells, n, used, CHECKPOINT * (n / CHECKPOINT));
    OneCompletion(slot.cells, n, used);
    if !Mixed(c, s, events, i) {
      assert Top(slot);
      OneAbandonment(slot.cells, n, used);
    }
    if tr.ledgers[i].clean {
      OneAbandonment(slot.cells, n, used);
      LastIsOccupied(slot.cells, n, CAPACITY);
      NoneBlank(slot.cells, n, used);
    }
  }

  lemma OffsetsFit(cells: seq<Cell>, n: nat)
    ensures forall k :: 0 <= k < |cells| && Progress(cells[k], n) ==> cells[k].offset <= CHECKPOINT * (n / CHECKPOINT)
  {
    forall k | 0 <= k < |cells| && Progress(cells[k], n) ensures cells[k].offset <= CHECKPOINT * (n / CHECKPOINT) {
      var o := cells[k].offset;
      assert o == CHECKPOINT * (o / CHECKPOINT) && o / CHECKPOINT <= n / CHECKPOINT;
    }
  }

  // ----- journals that leave the bound -----

  /** A reset without faults that goes on with the transfer of the slot that is not running. */
  lemma ResumedUndisturbed(c: Crypto, s: State, e: Event)
    requires Shape(s) && e.Reset? && e.usable && e.plan == [] && e.runningBoot == BootUnknown
    requires var j := JournalOf(s.d.slots[1 - e.running % 2]); j.Some? && j.value.mark == InProgress
    ensures var t := Step(c, s, e); var slot := s.d.slots[1 - e.running % 2]; var j := JournalOf(slot).value;
      && t.d == s.d.(alive := true, plan := []) && t.r.phase == Receiving && t.r.misc.begun && t.r.running == e.running % 2
      && t.r.journal == Cursor(true, j.sequence, j.lastOccupied) && t.r.nextOffset == j.offset
      && t.r.target == Target(true, slot.header.updateId, slot.header.sha, slot.header.target, slot.header.imageBytes)
  {
    hide ReadJournal, JournalOf, Reads, ChunkReads;
    var d := s.d.(alive := true, plan := []);
    JournalReadable(d, e.running % 2);
    JournalReadable(d, 1 - e.running % 2);
    ReadsSucceed(d, ChunkReads(JournalOf(s.d.slots[1 - e.running % 2]).value.offset));
  }

  /** An abort of a fresh cursor in front of blank cells. */
  lemma AbortAppends(s: State)
    requires Shape(s) && s.r.phase == Receiving && s.d.alive && s.d.plan == [] && s.r.target.valid && s.r.journal.headerReady
    requires s.r.journal.nextSlot < CAPACITY && s.r.journal.sequence != SEQUENCE_MAX
    requires s.d.slots[Inactive(s.r)].cells[s.r.journal.nextSlot] == Blank
    ensures var (t, r) := HandleAbort(s, Some(s.r.target.id)); var i, j := Inactive(s.r), s.r.journal;
      r.ok && t.d.slots[i] == s.d.slots[i].(cells := s.d.slots[i].cells[j.nextSlot := Record(j.sequence + 1, Abandoned, s.r.nextOffset)])
  {
  }

  /** The cells behind the abort of `StaleAbortExample`. */
  lemma StaleCells(c: Crypto, s: State, text: seq<byte>, signature: seq<byte>)
    requires Stale(c, s, text, signature)
    ensures var s1 := Step(c, s, Begin(Some((text, signature)))); var s2 := Step(c, s1, Abort(Some(s.r.target.id)));
      var i, j := Inactive(s.r), s.r.journal;
      && s2.d.slots[i] == s.d.slots[i].(cells := s.d.slots[i].cells[j.nextSlot := Record(j.sequence + 1, Abandoned, s.r.nextOffset)])
      && s2.r.running == s.r.running
  {
    hide Step, Request, Parse, HandleAbort;
    var begin, abort := Begin(Some((text, signature))), Abort(Some(s.r.target.id));
    assert s.d.plan == [FAILS] + [];
    SelectFailsFirst(c, s, text, signature, []);
    StepIsRequest(c, s, begin);
    var s1 := Step(c, s, begin);
    Handled(c, s1, abort);
    RecordsAbort(s1);
    AbortParts(s1, Some(s.r.target.id));
    AppendWrites(Selected(s1), Abandoned, s1.r.nextOffset);
    AbortOther(s1, Some(s.r.target.id));
  }

  predicate ThreeThenStale(s: Slot, offset: nat)
    requires SlotShape(s)
  {
    HeaderUsable(s.header) && s.header.imageBytes >= 0x2_0000 && offset <= s.header.imageBytes
    && s.cells == [Record(1, InProgress, 0), Record(2, InProgress, 0x1_0000), Record(3, InProgress, 0x2_0000), Blank,
                   Record(3, Abandoned, offset)] + Repeat(Blank, CAPACITY - 5)
  }

  lemma ThirdShows(s: Slot, offset: nat)
    requires SlotShape(s) && ThreeThenStale(s, offset)
    ensures JournalOf(s) == Some(Scan(true, 3, InProgress, 0x2_0000, 5))
  {
    hide ScanCells;
    var n := s.header.imageBytes;
    assert s.cells[0] == Record(1, InProgress, 0) && s.cells[1] == Record(2, InProgress, 0x1_0000);
    assert s.cells[2] == Record(3, InProgress, 0x2_0000) && s.cells[3] == Blank && s.cells[4] == Record(3, Abandoned, offset);
    assert forall k :: 5 <= k < CAPACITY ==> s.cells[k] == Blank;
    LeaderIsShown(s, 2);
    ScanIsNewest(s.cells, n, CAPACITY);
    LastIsOccupied(s.cells, n, CAPACITY);
    OccupiedBelow(s.cells, n, CAPACITY, 4);
  }

  /** The scan reaches every occupied cell. */
  lemma {:induction false} OccupiedBelow(cells: seq<Cell>, imageBytes: nat, n: nat, k: nat)
    requires k < n <= |cells| && cells[k] != Blank
    ensures ScanCells(cells, imageBytes, n).lastOccupied > k
  {
    if k < n - 1 { OccupiedBelow(cells, imageBytes, n - 1, k); }
  }

  lemma SixCounted(s: Slot, offset: nat)
    requires SlotShape(s) && ThreeThenStale(s, offset)
    ensures var t := s.(cells := s.cells[5 := Record(4, Abandoned, 0x2_0000)]);
      && Counted(t.cells, s.header.imageBytes, 6) == Census(3, 0, 2, 0, 1)
      && ScanCells(t.cells, s.header.imageBytes, CAPACITY).lastOccupied == 6 && Gap(t.cells) && Twice(t)
  {
    hide ScanCells;
    var n, t := s.header.imageBytes, s.(cells := s.cells[5 := Record(4, Abandoned, 0x2_0000)]);
    assert t.cells[0] == Record(1, InProgress, 0) && t.cells[1] == Record(2, InProgress, 0x1_0000);
    assert t.cells[2] == Record(3, InProgress, 0x2_0000) && t.cells[3] == Blank && t.cells[4] == Record(3, Abandoned, offset);
    assert t.cells[5] == Record(4, Abandoned, 0x2_0000) && forall k :: 6 <= k < CAPACITY ==> t.cells[k] == Blank;
    assert Counted(t.cells, n, 2) == Census(2, 0, 0, 0, 0);
    assert Counted(t.cells, n, 4) == Census(3, 0, 0, 0, 1);
    assert AbandonedAt(t, 4) && AbandonedAt(t, 5);
    OccupiedBelow(t.cells, n, CAPACITY, 5);
    LastIsOccupied(t.cells, n, CAPACITY);
  }

  /** Both ways out of the bound, from a confirmed boot beside a transfer of three checkpoints: a begin that cannot select the
      running slot and an abort that counts by its journal leave a gap; a reset goes on with the transfer, and its abort
      adds a second Abandoned record. */
  lemma AbandonedTwice(c: Crypto, s: State, text: seq<byte>, signature: seq<byte>, version: Version)
    requires Stale(c, s, text, signature) && s.r.journal == Cursor(true, 2, 4)
    requires var slot := s.d.slots[Inactive(s.r)];
      && HeaderUsable(slot.header) && slot.header.imageBytes >= 0x2_0000 && s.r.nextOffset <= slot.header.imageBytes
      && slot.cells == [Record(1, InProgress, 0), Record(2, InProgress, 0x1_0000), Record(3, InProgress, 0x2_0000)]
                       + Repeat(Blank, CAPACITY - 3)
    ensures var i, slot := Inactive(s.r), s.d.slots[Inactive(s.r)];
      var s2 := Step(c, Step(c, s, Begin(Some((text, signature)))), Abort(Some(s.r.target.id)));
      var s3 := Step(c, s2, Reset(s.r.running, version, true, [], BootUnknown, BootUnknown));
      var s4 := Step(c, s3, Abort(Some(slot.header.updateId)));
      && !Gap(slot.cells) && Gap(s2.d.slots[i].cells) && !Twice(s2.d.slots[i]) && s3.r.phase == Receiving
      && Counted(s4.d.slots[i].cells, slot.header.imageBytes, 6) == Census(3, 0, 2, 0, 1) && Twice(s4.d.slots[i])
      && ScanCells(s4.d.slots[i].cells, slot.header.imageBytes, CAPACITY).lastOccupied == 6
  {
    hide Step, HandleAbort, Inv, Parse, JournalOf, ScanCells, Counted;
    var i, slot, reset := Inactive(s.r), s.d.slots[Inactive(s.r)], Reset(s.r.running, version, true, [], BootUnknown, BootUnknown);
    StaleCells(c, s, text, signature);
    var s2 := Step(c, Step(c, s, Begin(Some((text, signature)))), Abort(Some(s.r.target.id)));
    var stale := s2.d.slots[i];
    assert ThreeThenStale(stale, s.r.nextOffset);
    ThirdShows(stale, s.r.nextOffset);
    OneGap(slot, stale, s.r.nextOffset);
    ResumedUndisturbed(c, s2, reset);
    var s3 := Step(c, s2, reset);
    Handled(c, s3, Abort(Some(slot.header.updateId)));
    AbortAppends(s3);
    SixCounted(stale, s.r.nextOffset);
  }

  lemma OneGap(s: Slot, t: Slot, offset: nat)
    requires SlotShape(s) && SlotShape(t) && ThreeThenStale(t, offset)
    requires s.cells == [Record(1, InProgress, 0), Record(2, InProgress, 0x1_0000), Record(3, InProgress, 0x2_0000)]
                        + Repeat(Blank, CAPACITY - 3)
    ensures !Gap(s.cells) && Gap(t.cells) && !Twice(t)
  {
    assert t.cells[3] == Blank && t.cells[4] != Blank;
    assert forall k: nat :: AbandonedAt(t, k) ==> k == 4;
  }

  const BLANKED: Outcome := Lost(true, [], [Kept, Applied])

  /** A gap alone, by the other cause: a begin whose erase blanks the first of two records and keeps the second. */
  lemma GapByErase(c: Crypto, s: State, text: seq<byte>, signature: seq<byte>)
    requires Waiting(s) && s.d.plan == [Done, BLANKED] && Parse(c, text).Some? && c.authentic(text, signature)
    requires s.d.slots[1].cells[0] != Blank && s.d.slots[1].cells[1] != Blank
    requires forall k :: 2 <= k < CAPACITY ==> s.d.slots[1].cells[k] == Blank
    ensures var (t, begun) := Request(c, s, Begin(Some((text, signature))));
      && begun.error == Some(FlashEraseFailed) && t.d.slots[1] == s.d.slots[1].(cells := s.d.slots[1].cells[0 := Blank])
      && !Gap(s.d.slots[1].cells) && Gap(t.d.slots[1].cells)
  {
    hide Parse, WriteHeader;
    ParseBounds(c, text);
    var s1 := s.(a := s.a.(verified := s.a.verified + {text}), r := CancelReboot(s.r));
    BlankedOpen(s1);
    var cells := s.d.slots[1].cells;
    assert cells[0 := Blank][0] == Blank && cells[0 := Blank][1] != Blank;
  }

  lemma BlankedOpen(s: State)
    requires Shape(s) && s.r.running == 0 && s.d.alive && s.d.plan == [Done, BLANKED]
    requires forall k :: 2 <= k < CAPACITY ==> s.d.slots[1].cells[k] == Blank
    ensures forall h: BleOta.Header :: var (t, failure) := OpenJournal(s, h);
      failure == Some(FlashEraseFailed) && t.d.slots[1] == s.d.slots[1].(cells := s.d.slots[1].cells[0 := Blank])
  {
    hide WriteHeader;
    var d1 := SelectSlot(s.d, 0).0;
    assert d1.plan == [BLANKED] && d1.plan[1..] == [];
    var cells := EraseJournal(d1, 1).0.slots[1].cells;
    assert cells == s.d.slots[1].cells[0 := Blank];
  }
}
