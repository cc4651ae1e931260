/** Exactly when an abandoned transfer stays abandoned, and a run in which it does not. */
module BleOtaAbort {
  import opened Bytes
  import opened BleOta
  import opened BleOtaProofs
  import opened BleOtaRuns

  /** The record `readJournal` reports. */
  function Shown(s: Slot): (cell: Option<Cell>)
    requires SlotShape(s)
    ensures cell.Some? ==> cell.value.Record?
  {
    match JournalOf(s)
    case Some(j) => Some(Record(j.sequence, j.mark, j.offset))
    case None => None
  }

  /** A countable record that leads is the one shown. */
  lemma LeaderIsShown(s: Slot, k: nat)
    requires SlotShape(s) && HeaderUsable(s.header) && k < CAPACITY && Counts(s.cells[k], s.header.imageBytes)
    requires Leads(s.cells, k, s.cells[k], s.header.imageBytes)
    ensures Shown(s) == Some(s.cells[k])
  {
    hide ScanCells, Counts;
    var n := s.header.imageBytes;
    ScanIsNewest(s.cells, n, CAPACITY);
    var m := ScanPicks(s.cells, n, CAPACITY);
    assert s.cells[..CAPACITY] == s.cells;
    assert Counts(s.cells[m], n);
  }

  /** And the one shown leads. */
  lemma ShownLeads(s: Slot) returns (k: nat)
    requires SlotShape(s) && Shown(s).Some?
    ensures k < CAPACITY && HeaderUsable(s.header) && Shown(s) == Some(s.cells[k]) && Counts(s.cells[k], s.header.imageBytes)
    ensures Leads(s.cells, k, s.cells[k], s.header.imageBytes)
  {
    hide ScanCells, Counts;
    k := ScanPicks(s.cells, s.header.imageBytes, CAPACITY);
    assert s.cells[..CAPACITY] == s.cells;
  }

  lemma NothingShown(s: Slot)
    requires SlotShape(s) && Shown(s) == None && HeaderUsable(s.header)
    ensures forall k :: 0 <= k < CAPACITY ==> !Counts(s.cells[k], s.header.imageBytes)
  {
    hide ScanCells, Counts;
    ScanIsNewest(s.cells, s.header.imageBytes, CAPACITY);
  }

  // ----- abandoning a transfer -----

  /** The newest record of an aborted slot no longer resumes or boots anything. */
  predicate Closed(s: Slot)
    requires SlotShape(s)
  {
    Shown(s).Some? ==> Shown(s).value.mark == Abandoned
  }

  /** One more Abandoned record closes a journal exactly when it was closed already or the record counts and leads. */
  lemma ClosedByRecord(s: Slot, k: nat, cell: Cell)
    requires SlotShape(s) && k < CAPACITY && (s.cells[k] == Blank || s.cells[k] == cell) && cell.Record? && cell.mark == Abandoned
    ensures SlotShape(s.(cells := s.cells[k := cell]))
    ensures Closed(s.(cells := s.cells[k := cell])) <==>
      Closed(s) || (Counts(cell, s.header.imageBytes) && Leads(s.cells, k, cell, s.header.imageBytes))
  {
    hide Counts, JournalOf;
    var t := s.(cells := s.cells[k := cell]);
    if HeaderUsable(s.header) {
      var n := s.header.imageBytes;
      NeverCounts(n);
      if s.cells[k] == cell { assert t == s; }
      if Counts(cell, n) && Leads(s.cells, k, cell, n) {
        LeaderIsShown(t, k);
      } else {
        if Shown(t).Some? {
          var m := ShownLeads(t);
          if m != k {
            assert forall j :: 0 <= j < CAPACITY && j != k ==> s.cells[j] == t.cells[j];
            assert Leads(s.cells, m, s.cells[m], n);
            LeaderIsShown(s, m);
          }
        } else {
          NothingShown(t);
        }
        if Shown(s).Some? {
          var m := ShownLeads(s);
          if Leads(t.cells, m, s.cells[m], n) { LeaderIsShown(t, m); }
        } else {
          NothingShown(s);
        }
      }
    } else {
      Unusable(s);
      Unusable(t);
    }
  }

  lemma Unusable(s: Slot)
    requires SlotShape(s) && !HeaderUsable(s.header)
    ensures Shown(s) == None
  {
  }

  /** Exactly when an acknowledged abort leaves the journal closed, in any state: with no header on record it leaves the journal
      as it is; a sector it had to erase is closed; and a record it appended closes the journal if that was closed already or
      if the record counts and leads. */
  lemma AbortClosesExactly(s: State, request: Option<Digest>)
    requires Shape(s) && HandleAbort(s, request).1.ok
    ensures var i, j := Inactive(s.r), s.r.journal; var slot, left := s.d.slots[i], HandleAbort(s, request).0.d.slots[i];
      var recorded := j.headerReady && Append(Selected(s), Abandoned, s.r.nextOffset).1;
      var cell := Record(j.sequence + 1, Abandoned, s.r.nextOffset);
      Closed(left) <==>
        Closed(slot) || (j.headerReady && !recorded)
        || (recorded && Counts(cell, slot.header.imageBytes) && Leads(slot.cells, j.nextSlot, cell, slot.header.imageBytes))
  {
    hide Append, EraseJournal, JournalOf, Counts, SelectSlot;
    var i, j := Inactive(s.r), s.r.journal;
    var slot, s1 := s.d.slots[i], Selected(s);
    if j.headerReady {
      AppendFrame(s1, Abandoned, s.r.nextOffset);
      if Append(s1, Abandoned, s.r.nextOffset).1 {
        AppendWrites(s1, Abandoned, s.r.nextOffset);
        ClosedByRecord(slot, j.nextSlot, Record(j.sequence + 1, Abandoned, s.r.nextOffset));
      } else {
        Unusable(HandleAbort(s, request).0.d.slots[i]);
      }
    }
  }

  /** Without faults, in terms of the state before: the record is appended when the cursor has a cell and a number left and that
      cell is blank (or holds this very record); when it is not, the sector is erased. */
  lemma AbortClosesUndisturbed(s: State, id: Digest)
    requires Shape(s) && s.d.alive && s.d.plan == [] && s.r.phase != PendingVerify && s.r.phase != Confirmed
    requires s.r.target.valid ==> id == s.r.target.id
    ensures var (t, receipt) := HandleAbort(s, Some(id)); var i, j := Inactive(s.r), s.r.journal;
      var slot, left, cell := s.d.slots[i], t.d.slots[i], Record(j.sequence + 1, Abandoned, s.r.nextOffset);
      var fits := j.nextSlot < CAPACITY && j.sequence != SEQUENCE_MAX && slot.cells[j.nextSlot] in {Blank, cell};
      && receipt.ok
      && (Closed(left) <==>
            Closed(slot)
            || (j.headerReady && (fits ==> Counts(cell, slot.header.imageBytes)
                                           && Leads(slot.cells, j.nextSlot, cell, slot.header.imageBytes))))
  {
    hide JournalOf, Counts, Closed, Leads;
    FitsExactly(Selected(s));
    AcceptedUndisturbed(s, id);
    AbortClosesExactly(s, Some(id));
  }

  lemma FitsExactly(s: State)
    requires Shape(s) && s.d.alive && s.d.plan == []
    ensures var j := s.r.journal; var slot := s.d.slots[Inactive(s.r)];
      Append(s, Abandoned, s.r.nextOffset).1 <==>
        j.headerReady && j.nextSlot < CAPACITY && j.sequence != SEQUENCE_MAX
        && slot.cells[j.nextSlot] in {Blank, Record(j.sequence + 1, Abandoned, s.r.nextOffset)}
  {
  }

  lemma AcceptedUndisturbed(s: State, id: Digest)
    requires Shape(s) && s.d.alive && s.d.plan == [] && s.r.phase != PendingVerify && s.r.phase != Confirmed
    requires s.r.target.valid ==> id == s.r.target.id
    ensures HandleAbort(s, Some(id)).1.ok && Selected(s).d.alive && Selected(s).d.plan == []
  {
    hide CloseJournal;
    ClosesUndisturbed(Selected(s));
  }

  lemma ClosesUndisturbed(s: State)
    requires Shape(s) && s.d.alive && s.d.plan == []
    ensures CloseJournal(s).1
  {
    hide WriteCell;
    if s.r.journal.nextSlot < CAPACITY {
      WritesUndisturbed(s.d, Inactive(s.r), s.r.journal.nextSlot, Record(s.r.journal.sequence + 1, Abandoned, s.r.nextOffset));
    }
  }

  lemma WritesUndisturbed(d: Device, i: nat, k: nat, cell: Cell)
    requires DeviceShape(d) && i < 2 && k < CAPACITY && d.alive && d.plan == []
    ensures WriteCell(d, i, k, cell).0.alive && WriteCell(d, i, k, cell).0.plan == []
  {
  }

  /** The state in which `handleAbort` turns to the journal. */
  function Selected(s: State): (t: State)
    requires Shape(s)
    ensures Shape(t) && t.d.slots == s.d.slots && t.r == CancelReboot(s.r) && t.a == s.a && t.d.log == s.d.log
  {
    s.(d := SelectSlot(s.d, s.r.running).0, r := CancelReboot(s.r))
  }

  /** An acknowledged record is in its cell, which was blank or held it already. */
  lemma AppendWrites(s: State, mark: Mark, offset: nat)
    requires Shape(s) && Append(s, mark, offset).1
    ensures var i, k := Inactive(s.r), s.r.journal.nextSlot; var cell := Record(s.r.journal.sequence + 1, mark, offset);
      && k < CAPACITY && (s.d.slots[i].cells[k] == Blank || s.d.slots[i].cells[k] == cell)
      && Append(s, mark, offset).0.d.slots[i] == s.d.slots[i].(cells := s.d.slots[i].cells[k := cell])
  {
    hide Call;
  }

  /** Abandoning a running transfer closes its journal. */
  lemma AbortCloses(c: Crypto, s: State, request: Option<Digest>)
    requires Inv(c, s) && s.r.phase == Receiving && HandleAbort(s, request).1.ok
    ensures Closed(HandleAbort(s, request).0.d.slots[Inactive(s.r)])
  {
    hide Append, HandleAbort, JournalOf, ScanCells, Signed, StoreTrue;
    var i, j := Inactive(s.r), s.r.journal;
    var slot, n := s.d.slots[i], s.r.target.imageBytes;
    var cell := Record(j.sequence + 1, Abandoned, s.r.nextOffset);
    AbortClosesExactly(s, request);
    ScanIsNewest(slot.cells, n, CAPACITY);
    assert Leads(slot.cells, j.nextSlot, cell, n);
  }

  /** After a begin that failed to select the running slot, the RAM of a confirmed boot still counts that slot's records.  An
      abort then writes its record under their numbers: exactly when the journal closes. */
  lemma StaleAbort(c: Crypto, s: State, text: seq<byte>, signature: seq<byte>)
    requires Stale(c, s, text, signature)
    ensures var (s1, begun) := Request(c, s, Begin(Some((text, signature))));
      var (s2, aborted) := Request(c, s1, Abort(Some(s.r.target.id)));
      var i, j := Inactive(s.r), s.r.journal; var slot, left := s.d.slots[i], s2.d.slots[i];
      var cell := Record(j.sequence + 1, Abandoned, s.r.nextOffset);
      && !begun.ok && s1.r.phase == Failed && aborted.ok && s2.r.phase == Idle
      && (Closed(left) <==>
            Closed(slot) || (Counts(cell, slot.header.imageBytes) && Leads(slot.cells, j.nextSlot, cell, slot.header.imageBytes)))
  {
    hide OpenJournal, StartTransfer, HandleAbort, JournalOf, Counts, Parse, Leads;
    var b := s.(a := s.a.(verified := s.a.verified + {text}), r := CancelReboot(s.r));
    SelectFails(b);
    var s1 := Request(c, s, Begin(Some((text, signature)))).0;
    assert s1.d == s.d.(plan := []) && s1.r.phase == Failed && s1.r.journal == s.r.journal && s1.r.target == s.r.target;
    RecordsAbort(s1);
    AbortClosesExactly(s1, Some(s.r.target.id));
  }

  /** A confirmed boot whose next call fails without effect. */
  predicate Stale(c: Crypto, s: State, text: seq<byte>, signature: seq<byte>) {
    && Shape(s) && s.r.phase == Confirmed && s.r.misc.begun && s.d.alive && s.d.plan == [Lost(true, [], [])]
    && Parse(c, text).Some? && c.authentic(text, signature)
    && s.r.target.valid && s.r.journal.headerReady && s.r.nextOffset <= s.r.target.imageBytes
    && s.r.journal.nextSlot < CAPACITY && s.r.journal.sequence != SEQUENCE_MAX
    && s.d.slots[Inactive(s.r)].cells[s.r.journal.nextSlot] == Blank
  }

  lemma SelectFails(s: State)
    requires Shape(s) && s.d.alive && s.d.plan == [Lost(true, [], [])]
    ensures forall h: BleOta.Header :: OpenJournal(s, h) == (s.(d := s.d.(plan := [])), Some(BootSelectFailed))
  {
    hide EraseJournal, WriteHeader;
    assert s.d.plan[1..] == [];
  }

  lemma RecordsAbort(s: State)
    requires Shape(s) && s.r.phase == Failed && s.d.alive && s.d.plan == []
    requires s.r.target.valid && s.r.journal.headerReady && s.r.nextOffset <= s.r.target.imageBytes
    requires s.r.journal.nextSlot < CAPACITY && s.r.journal.sequence != SEQUENCE_MAX
    requires s.d.slots[Inactive(s.r)].cells[s.r.journal.nextSlot] == Blank
    ensures Append(Selected(s), Abandoned, s.r.nextOffset).1
    ensures HandleAbort(s, Some(s.r.target.id)).1.ok && HandleAbort(s, Some(s.r.target.id)).0.r.phase == Idle
  {
  }

  /** It does not close over a transfer of three checkpoints when the running slot's journal has two records and four cells: the
      new record shares the number of the last checkpoint and comes behind it. */
  lemma StaleAbortExample(c: Crypto, s: State, text: seq<byte>, signature: seq<byte>)
    requires Stale(c, s, text, signature) && s.r.journal == Cursor(true, 2, 4)
    requires var slot := s.d.slots[Inactive(s.r)];
      && HeaderUsable(slot.header) && slot.header.imageBytes >= 0x2_0000
      && slot.cells == [Record(1, InProgress, 0), Record(2, InProgress, 0x1_0000), Record(3, InProgress, 0x2_0000)]
                       + Repeat(Blank, CAPACITY - 3)
    ensures var s1 := Request(c, s, Begin(Some((text, signature)))).0;
      var (s2, aborted) := Request(c, s1, Abort(Some(s.r.target.id)));
      aborted.ok && !Closed(s2.d.slots[Inactive(s.r)])
  {
    hide Request, JournalOf;
    var slot := s.d.slots[Inactive(s.r)];
    StaleAbort(c, s, text, signature);
    assert slot.cells[2] == Record(3, InProgress, 0x2_0000);
    LeaderIsShown(slot, 2);
  }

  // ----- an abandoned transfer that comes back -----

  /** The plan begins with `n` calls that succeed. */
  function Through(n: nat, rest: seq<Outcome>): seq<Outcome> { Repeat(Done, n) + rest }

  lemma {:induction false} ReadsThrough(d: Device, n: nat, m: nat, rest: seq<Outcome>)
    requires d.alive && d.plan == Through(n + m, rest)
    ensures Reads(d, n) == (d.(plan := Through(m, rest)), true)
  {
    if n > 0 {
      ReadsThrough(d, n - 1, m + 1, rest);
      assert Through(m + 1, rest) == [Done] + Through(m, rest);
    }
  }

  lemma NothingLeft(rest: seq<Outcome>)
    ensures Through(0, rest) == rest
  {
  }

  const TORN_ERASE: Outcome := Lost(true, [], [Kept, Kept, Ruined])
  const TORN_BOOT: seq<Outcome> := Through(1 + (1 + CAPACITY), [Done, TORN_ERASE])

  function ResetOf(version: Version, plan: seq<Outcome>): Event {
    Reset(0, version, true, plan, BootUnknown, BootUnknown)
  }

  /** A device that waits for an update in slot 1; slot 0 runs and has no journal. */
  predicate Waiting(s: State) {
    && Shape(s) && s.r.running == 0 && !HeaderUsable(s.d.slots[0].header) && s.r.misc.begun && s.d.alive
    && s.r.phase == Idle && !s.r.target.valid && !s.r.journal.headerReady && !s.r.manifestLoaded
  }

  /** A reset with an unused or closed journal in slot 1 leaves an idle updater. */
  lemma IdleBoot(c: Crypto, s: State, version: Version, plan: seq<Outcome>, rest: seq<Outcome>)
    requires Shape(s) && !HeaderUsable(s.d.slots[0].header) && Closed(s.d.slots[1])
    requires (plan == [] && rest == []) || (HeaderUsable(s.d.slots[1].header) && plan == Through(1 + (1 + CAPACITY), rest))
    ensures var t := Step(c, s, ResetOf(version, plan));
      Waiting(t) && t.d == s.d.(alive := true, plan := rest) && t.a == s.a
  {
    hide Reads, Call, ScanCells, Counts, Through;
    var d := s.d.(alive := true, plan := plan);
    if plan == [] && rest == [] {
      JournalReadable(d, 0);
      JournalReadable(d, 1);
    } else {
      ReadsThrough(d, 1, 1 + CAPACITY, rest);
      assert 1 + CAPACITY == 1 + (CAPACITY + 0);
      ReadsThrough(d.(plan := Through(1 + CAPACITY, rest)), 1, CAPACITY, rest);
      ReadsThrough(d.(plan := Through(CAPACITY, rest)), CAPACITY, 0, rest);
      NothingLeft(rest);
    }
  }

  /** An update begun and abandoned without a fault: two records, and closed. */
  lemma BegunAndAbandoned(c: Crypto, s: State, text: seq<byte>, signature: seq<byte>)
    requires Waiting(s) && Inv(c, s) && s.d.plan == [] && Parse(c, text).Some? && c.authentic(text, signature)
    ensures var t1 := Step(c, s, Begin(Some((text, signature)))); var (t2, receipt) := Request(c, t1, Abort(Some(c.digest(text))));
      && receipt.ok && t2.d.slots[0] == s.d.slots[0] && t1.d.alive
      && HeaderUsable(t2.d.slots[1].header) && t2.d.slots[1].header.updateId == c.digest(text)
      && t2.d.slots[1].cells[0] == Record(1, InProgress, 0) && t2.d.slots[1].cells[1] == Record(2, Abandoned, 0)
      && (forall k :: 2 <= k < CAPACITY ==> t2.d.slots[1].cells[k] == Blank)
  {
    hide Inv, Parse, EraseJournal, WriteHeader, Append, SelectSlot, HandleAbort;
    var m, id := Parse(c, text).value, c.digest(text);
    var s1 := s.(a := s.a.(verified := s.a.verified + {text}));
    ParseBounds(c, text);
    Opened(s1, m, id);
    var t1 := PrepareNewUpdate(s1, m, id).0;
    assert Step(c, s, Begin(Some((text, signature)))) == t1;
    AbandonsFresh(t1);
  }

  lemma ParseBounds(c: Crypto, text: seq<byte>)
    requires Parse(c, text).Some?
    ensures 0 < Parse(c, text).value.imageBytes <= IMAGE_MAX
  {
  }

  lemma Opened(s: State, m: Manifest, id: Digest)
    requires Shape(s) && s.d.alive && s.d.plan == [] && 0 < m.imageBytes <= IMAGE_MAX
    ensures var (t, failure) := PrepareNewUpdate(s, m, id); var i := Inactive(s.r);
      && failure == None && t.r.phase == Receiving && t.r.misc.begun == s.r.misc.begun && t.d.alive && t.d.plan == []
      && t.r.running == s.r.running
      && t.r.target == Target(true, id, m.sha, m.version, m.imageBytes) && t.r.journal == Cursor(true, 1, 1) && t.r.nextOffset == 0
      && t.d.slots[s.r.running] == s.d.slots[s.r.running] && t.d.slots[i].header == Header(m.imageBytes, id, m.sha, m.version)
      && t.d.slots[i].cells == Repeat(Blank, CAPACITY)[0 := Record(1, InProgress, 0)]
  {
  }

  lemma AbandonsFresh(s: State)
    requires Shape(s) && s.r.phase == Receiving && s.d.alive && s.d.plan == [] && s.r.target.valid
    requires s.r.journal == Cursor(true, 1, 1) && s.r.nextOffset == 0
    requires s.d.slots[Inactive(s.r)].cells == Repeat(Blank, CAPACITY)[0 := Record(1, InProgress, 0)]
    ensures var (t, receipt) := HandleAbort(s, Some(s.r.target.id)); var i := Inactive(s.r);
      && receipt.ok && t.d.alive && t.d.slots[s.r.running] == s.d.slots[s.r.running]
      && t.d.slots[i] == s.d.slots[i].(cells := s.d.slots[i].cells[1 := Record(2, Abandoned, 0)])
  {
  }

  /** The next begin is cut in its journal erase: the checkpoint survives, the Abandoned record does not.  The abort that
      follows is acknowledged without touching the journal. */
  lemma TornErase(c: Crypto, s: State, text: seq<byte>, signature: seq<byte>)
    requires Waiting(s) && s.d.plan == [Done, TORN_ERASE] && Parse(c, text).Some? && c.authentic(text, signature)
    requires forall k :: 2 <= k < CAPACITY ==> s.d.slots[1].cells[k] == Blank
    ensures var (t1, begun) := Request(c, s, Begin(Some((text, signature))));
      var (t2, aborted) := Request(c, t1, Abort(Some(c.digest(text))));
      && !begun.ok && aborted.ok && t1.d.alive && t2.d.slots[0] == s.d.slots[0]
      && t2.d.slots[1] == s.d.slots[1].(cells := s.d.slots[1].cells[1 := Garbage])
  {
    hide Parse, WriteHeader;
    ParseBounds(c, text);
    TornOpen(s.(a := s.a.(verified := s.a.verified + {text}), r := CancelReboot(s.r)));
  }

  lemma TornOpen(s: State)
    requires Shape(s) && s.r.running == 0 && s.d.alive && s.d.plan == [Done, TORN_ERASE]
    requires forall k :: 2 <= k < CAPACITY ==> s.d.slots[1].cells[k] == Blank
    ensures forall h: BleOta.Header :: var (t, failure) := OpenJournal(s, h);
      && failure == Some(FlashEraseFailed) && t.r == s.r && t.a == s.a && t.d.alive && t.d.plan == [] && t.d.slots[0] == s.d.slots[0]
      && t.d.slots[1] == s.d.slots[1].(cells := s.d.slots[1].cells[1 := Garbage])
  {
    hide WriteHeader;
    var d1 := SelectSlot(s.d, 0).0;
    assert d1.plan == [TORN_ERASE] && d1.plan[1..] == [];
    var cells := EraseJournal(d1, 1).0.slots[1].cells;
    assert cells == s.d.slots[1].cells[1 := Garbage];
  }

  /** The first half: reset, begin, abort.  The journal is closed. */
  lemma Abandoned1(c: Crypto, s: State, version: Version, text: seq<byte>, signature: seq<byte>)
    requires Factory(s) && Parse(c, text).Some? && c.authentic(text, signature)
    ensures var s1 := Step(c, s, ResetOf(version, []));
      var s2 := Step(c, s1, Begin(Some((text, signature)))); var (s3, first) := Request(c, s2, Abort(Some(c.digest(text))));
      && s3 == Step(c, s2, Abort(Some(c.digest(text)))) && first.ok && Inv(c, s3) && Closed(s3.d.slots[1])
      && !HeaderUsable(s3.d.slots[0].header) && HeaderUsable(s3.d.slots[1].header)
      && s3.d.slots[1].header.updateId == c.digest(text) && s3.d.slots[1].cells[0] == Record(1, InProgress, 0)
      && (forall k :: 2 <= k < CAPACITY ==> s3.d.slots[1].cells[k] == Blank)
  {
    hide Step, Request, Inv, Parse, JournalOf;
    var e2, e3 := Begin(Some((text, signature))), Abort(Some(c.digest(text)));
    FactoryIsTrue(c, s);
    Unusable(s.d.slots[1]);
    IdleBoot(c, s, version, [], []);
    StepKeeps(c, s, ResetOf(version, []));
    var s1 := Step(c, s, ResetOf(version, []));
    BegunAndAbandoned(c, s1, text, signature);
    StepKeeps(c, s1, e2);
    var s2 := Step(c, s1, e2);
    StepIsRequest(c, s2, e3);
    StepKeeps(c, s2, e3);
    var slot := Step(c, s2, e3).d.slots[1];
    assert Closed(slot) by { LeadIsAbandoned(slot); }
  }

  lemma LeadIsAbandoned(s: Slot)
    requires SlotShape(s) && HeaderUsable(s.header) && s.cells[0] == Record(1, InProgress, 0) && s.cells[1] == Record(2, Abandoned, 0)
    requires forall k :: 2 <= k < CAPACITY ==> s.cells[k] == Blank
    ensures Closed(s)
  {
    hide JournalOf;
    LeaderIsShown(s, 1);
  }

  /** Where abandoning fails, as one run from a new device: reset; begin and abort, acknowledged and closed; reset; a second
      begin whose journal erase is cut, so that the checkpoint survives and the Abandoned record does not; an abort,
      acknowledged; reset.  The abandoned transfer is being received again. */
  lemma AbortedTransferReturns(c: Crypto, s: State, version: Version, text: seq<byte>, signature: seq<byte>)
    requires Factory(s) && Parse(c, text).Some? && c.authentic(text, signature)
    ensures var begin, abort := Begin(Some((text, signature))), Abort(Some(c.digest(text)));
      var s2 := Step(c, Step(c, s, ResetOf(version, [])), begin);
      var s3 := Step(c, s2, abort);
      var s5 := Step(c, Step(c, s3, ResetOf(version, TORN_BOOT)), begin);
      var s6 := Step(c, s5, abort);
      var s7 := Step(c, s6, ResetOf(version, []));
      && Request(c, s2, abort).1.ok && Closed(s3.d.slots[1])
      && Request(c, s5, abort).1.ok && !Closed(s6.d.slots[1])
      && s7.r.phase == Receiving && s7.r.target.id == c.digest(text)
  {
    hide Step, Request, Inv, Parse, JournalOf, Factory;
    var e2, e3 := Begin(Some((text, signature))), Abort(Some(c.digest(text)));
    FactoryShape(s);
    Abandoned1(c, s, version, text, signature);
    var s3 := Step(c, Step(c, Step(c, s, ResetOf(version, [])), e2), e3);
    IdleBoot(c, s3, version, TORN_BOOT, [Done, TORN_ERASE]);
    StepKeeps(c, s3, ResetOf(version, TORN_BOOT));
    var s4 := Step(c, s3, ResetOf(version, TORN_BOOT));
    TornErase(c, s4, text, signature);
    StepIsRequest(c, s4, e2);
    StepKeeps(c, s4, e2);
    var s5 := Step(c, s4, e2);
    StepIsRequest(c, s5, e3);
    StepKeeps(c, s5, e3);
    var s6 := Step(c, s5, e3);
    CheckpointLeft(s6.d.slots[1]);
    InvIsShape(c, s6);
    Comes(c, s6, ResetOf(version, []));
  }

  lemma FactoryShape(s: State)
    requires Factory(s)
    ensures Shape(s)
  {
  }

  lemma InvIsShape(c: Crypto, s: State)
    requires Inv(c, s)
    ensures Shape(s)
  {
  }

  lemma StepIsRequest(c: Crypto, s: State, e: Event)
    requires Shape(s) && s.d.alive && (e.Begin? || e.Abort?)
    ensures Step(c, s, e) == Request(c, s, e).0
  {
    hide Request;
  }

  lemma CheckpointLeft(s: Slot)
    requires SlotShape(s) && HeaderUsable(s.header) && s.cells[0] == Record(1, InProgress, 0) && s.cells[1] == Garbage
    requires forall k :: 2 <= k < CAPACITY ==> s.cells[k] == Blank
    ensures JournalOf(s).Some? && JournalOf(s).value.mark == InProgress && !Closed(s)
  {
    hide JournalOf, ScanCells;
    LeaderIsShown(s, 0);
  }

  lemma Comes(c: Crypto, s: State, e: Event)
    requires Inv(c, s) && e.Reset? && e.usable && e.plan == [] && e.running == 0 && e.runningBoot == BootUnknown
    requires JournalOf(s.d.slots[1]).Some? && JournalOf(s.d.slots[1]).value.mark == InProgress
    ensures Step(c, s, e).r.phase == Receiving && Step(c, s, e).r.target.id == s.d.slots[1].header.updateId
  {
    hide Step, JournalOf, Inv;
    InvIsShape(c, s);
    ResumesExactly(c, s, e);
  }
}
