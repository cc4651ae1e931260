/** What a journal shows over whole runs. */
module BleOtaJournal {
  import opened Bytes
  import opened BleOta
  import opened BleOtaProofs
  import opened BleOtaRuns
  import opened BleOtaAbort

  // ----- what was appended -----

  /** What was appended to a journal since it was last opened: the last record acknowledged, and those that were in flight when
      a later call failed.  `clean` ends with an erase of the sector that was cut and with an abort that counted by another
      journal, and begins again when the sector is erased. */
  datatype Ledger = Ledger(clean: bool, last: Option<Cell>, flights: set<Cell>)

  const OPENED := Ledger(true, None, {})

  /** A run with a ledger for each slot; `foreign` says that the RAM counts the records of the running slot. */
  datatype Traced = Traced(s: State, ledgers: seq<Ledger>, foreign: bool)

  predicate TraceShape(tr: Traced) {
    Shape(tr.s) && |tr.ledgers| == 2
  }

  function Acknowledged(l: Ledger, cell: Cell): Ledger { l.(last := Some(cell), flights := {}) }

  function InFlight(l: Ledger, cell: Cell): Ledger { l.(flights := l.flights + {cell}) }

  const FIRST_RECORD := Record(1, InProgress, 0)

  predicate Opens(p: Phase) { p == Idle || p == Confirmed || p == RolledBack }

  /** A begin request, by its receipt. */
  function AfterBegin(l: Ledger, s: State, r: Receipt): Ledger {
    if !Opens(s.r.phase) then l
    else if r.ok then Ledger(true, Some(FIRST_RECORD), {})
    else if r.error == Some(FlashEraseFailed) then l.(clean := false)
    else if r.error == Some(JournalFailed) then InFlight(OPENED, FIRST_RECORD)
    else l
  }

  /** A write or finish request: the record it may append, by whether the cursor moved and by its receipt. */
  function AfterAppend(l: Ledger, s: State, t: State, r: Receipt, cell: Cell): Ledger {
    if t.r.journal != s.r.journal then Acknowledged(l, cell)
    else if r.error == Some(JournalFailed) then InFlight(l, cell)
    else l
  }

  /** An abort request: a record of its own, or the whole sector erased. */
  function AfterAbort(l: Ledger, s: State, r: Receipt, foreign: bool): Ledger
    requires Shape(s)
  {
    if !s.r.journal.headerReady then l
    else if r.ok then
      if !Append(Selected(s), Abandoned, s.r.nextOffset).1 then OPENED
      else if foreign then l.(clean := false)
      else Acknowledged(l, Record(s.r.journal.sequence + 1, Abandoned, s.r.nextOffset))
    else if r.error == Some(JournalFailed) then l.(clean := false)
    else l
  }

  function NextLedger(c: Crypto, tr: Traced, e: Event): Ledger
    requires TraceShape(tr)
  {
    var s, l := tr.s, tr.ledgers[Inactive(tr.s.r)];
    if !s.d.alive || !s.r.misc.begun then l
    else
      match e
      case Begin(b) => AfterBegin(l, s, HandleBegin(c, s, b).1)
      case Write(q) =>
        if s.r.phase != Receiving || q == None then l
        else
          var (t, r) := HandleWrite(s, q);
          AfterAppend(l, s, t, r, Record(s.r.journal.sequence + 1, InProgress, Checkpointed(s.r.nextOffset + |q.value.data|)))
      case Finish(id) =>
        if s.r.phase != Receiving then l
        else
          var (t, r) := HandleFinish(c, s, id);
          AfterAppend(l, s, t, r, Record(s.r.journal.sequence + 1, Complete, s.r.target.imageBytes))
      case Abort(id) => AfterAbort(l, s, HandleAbort(s, id).1, tr.foreign)
      case _ => l
  }

  /** `loadExistingState` takes over the running slot's own journal. */
  predicate TakesRunning(s: State, e: Event)
    requires Shape(s) && e.Reset?
  {
    var running := e.running % 2;
    var inactive := JournalOf(s.d.slots[1 - running]);
    IsReady(JournalOf(s.d.slots[running]))
    && (e.runningBoot == BootPending
        || (e.runningBoot == BootValid
            && !(IsReady(inactive) && (e.inactiveBoot == BootInvalid || e.inactiveBoot == BootAborted))))
  }

  function NextForeign(c: Crypto, tr: Traced, e: Event): bool
    requires TraceShape(tr)
  {
    var s := tr.s;
    if e.Reset? then e.usable && TakesRunning(s, e)
    else if !s.d.alive || !s.r.misc.begun then tr.foreign
    else if e.Begin? && Opens(s.r.phase) then
      var r := HandleBegin(c, s, e.begin).1;
      tr.foreign && !r.ok && r.error != Some(JournalFailed)
    else if e.Abort? then tr.foreign && !HandleAbort(s, e.id).1.ok
    else tr.foreign
  }

  function Next(c: Crypto, tr: Traced, e: Event): (u: Traced)
    requires TraceShape(tr)
    ensures TraceShape(u) && u.s == Step(c, tr.s, e)
  {
    var i := Inactive(tr.s.r);
    Traced(Step(c, tr.s, e), if e.Reset? then tr.ledgers else tr.ledgers[i := NextLedger(c, tr, e)], NextForeign(c, tr, e))
  }

  function Trace(c: Crypto, s: State, events: seq<Event>): (tr: Traced)
    requires Shape(s)
    ensures TraceShape(tr)
    decreases |events|
  {
    if events == [] then Traced(s, [OPENED, OPENED], false) else Next(c, Trace(c, s, events[..|events| - 1]), events[|events| - 1])
  }

  // ----- the invariant -----

  predicate Tells(l: Ledger, s: Slot)
    requires SlotShape(s)
  {
    Shown(s) == l.last || (Shown(s).Some? && Shown(s).value in l.flights)
  }

  /** No blank cell in front of an occupied one. */
  predicate Packed(cells: seq<Cell>) {
    forall j, k :: 0 <= j < k < |cells| && cells[k] != Blank ==> cells[j] != Blank
  }

  predicate BelowAbandoned(p: Cell, q: Cell, imageBytes: nat) {
    Counts(p, imageBytes) && Counts(q, imageBytes) && q.mark == Abandoned ==> p.sequence < q.sequence
  }

  /** An Abandoned record is numbered above all others. */
  predicate AbandonedTop(cells: seq<Cell>, imageBytes: nat) {
    forall j, k :: 0 <= j < |cells| && 0 <= k < |cells| && j != k ==> BelowAbandoned(cells[j], cells[k], imageBytes)
  }

  predicate Tidy(s: Slot) {
    HeaderUsable(s.header) ==> Packed(s.cells) && AbandonedTop(s.cells, s.header.imageBytes)
  }

  /** The cursor stands behind records it has counted, none of them Abandoned, and in front of blank cells; its own cell may hold
      what a failed append left. */
  predicate CursorSound(r: Ram, s: Slot)
    requires SlotShape(s)
  {
    r.journal.headerReady ==>
      var k, n := r.journal.nextSlot, r.target.imageBytes;
      && HeaderUsable(s.header) && s.header.imageBytes == n && k <= CAPACITY
      && (forall j :: 0 <= j < k ==> s.cells[j] != Blank)
      && (forall j :: 0 <= j < k && Counts(s.cells[j], n) ==> s.cells[j].sequence <= r.journal.sequence && s.cells[j].mark != Abandoned)
      && (forall j :: k < j < CAPACITY ==> s.cells[j] == Blank)
  }

  ghost predicate Kept(c: Crypto, tr: Traced) {
    && TraceShape(tr) && Inv(c, tr.s)
    && (forall i :: 0 <= i < 2 && tr.ledgers[i].clean ==> Tells(tr.ledgers[i], tr.s.d.slots[i]) && Tidy(tr.s.d.slots[i]))
    && (tr.ledgers[Inactive(tr.s.r)].clean && !tr.foreign ==> CursorSound(tr.s.r, tr.s.d.slots[Inactive(tr.s.r)]))
    && (tr.foreign ==> tr.s.r.phase in {Confirmed, PendingVerify, Failed})
  }

  // ----- one append -----

  /** An acknowledged append behind a sound cursor is what the journal shows. */
  lemma AppendAcknowledged(s: State, mark: Mark, offset: nat)
    requires Shape(s) && CursorSound(s.r, s.d.slots[Inactive(s.r)]) && Tidy(s.d.slots[Inactive(s.r)])
    requires Append(s, mark, offset).1 && Counts(Record(s.r.journal.sequence + 1, mark, offset), s.r.target.imageBytes)
    ensures var t := Append(s, mark, offset).0; var slot := t.d.slots[Inactive(s.r)];
      && Shown(slot) == Some(Record(s.r.journal.sequence + 1, mark, offset)) && Tidy(slot)
      && (mark != Abandoned ==> CursorSound(t.r, slot))
  {
    hide Append, Counts, JournalOf;
    var i, k, n := Inactive(s.r), s.r.journal.nextSlot, s.r.target.imageBytes;
    var cell := Record(s.r.journal.sequence + 1, mark, offset);
    AppendGuard(s, mark, offset);
    AppendWrites(s, mark, offset);
    AppendFrame(s, mark, offset);
    NeverCounts(n);
    var slot := Append(s, mark, offset).0.d.slots[i];
    assert Leads(slot.cells, k, cell, n);
    LeaderIsShown(slot, k);
  }

  lemma AppendGuard(s: State, mark: Mark, offset: nat)
    requires Shape(s) && Append(s, mark, offset).1
    ensures s.r.journal.headerReady
  {
  }

  /** An append that failed over a blank cell leaves the journal showing what it did or the record in flight. */
  lemma AppendLost(s: State, mark: Mark, offset: nat)
    requires Shape(s) && CursorSound(s.r, s.d.slots[Inactive(s.r)]) && Tidy(s.d.slots[Inactive(s.r)]) && mark != Abandoned
    requires !Append(s, mark, offset).1 && Counts(Record(s.r.journal.sequence + 1, mark, offset), s.r.target.imageBytes)
    requires s.r.journal.headerReady
    requires s.r.journal.nextSlot < CAPACITY ==> s.d.slots[Inactive(s.r)].cells[s.r.journal.nextSlot] == Blank
    ensures var t := Append(s, mark, offset).0; var slot := t.d.slots[Inactive(s.r)];
      && Shown(slot) in {Shown(s.d.slots[Inactive(s.r)]), Some(Record(s.r.journal.sequence + 1, mark, offset))}
      && Tidy(slot) && CursorSound(t.r, slot)
  {
    hide Append, Counts, JournalOf;
    var i, k, n := Inactive(s.r), s.r.journal.nextSlot, s.r.target.imageBytes;
    var cell := Record(s.r.journal.sequence + 1, mark, offset);
    var slot, left := s.d.slots[i], Append(s, mark, offset).0.d.slots[i];
    AppendFrame(s, mark, offset);
    AppendLeaves(s, mark, offset);
    NeverCounts(n);
    if left.cells == slot.cells {
      assert left == slot;
    } else if left.cells[k] == cell {
      assert Leads(left.cells, k, cell, n);
      LeaderIsShown(left, k);
    } else if Shown(slot).Some? {
      var m := ShownLeads(slot);
      LeaderIsShown(left, m);
    } else {
      NothingShown(slot);
      if Shown(left).Some? { var m := ShownLeads(left); }
    }
  }

  /** What a failed append can leave. */
  lemma AppendLeaves(s: State, mark: Mark, offset: nat)
    requires Shape(s)
    ensures var i, k := Inactive(s.r), s.r.journal.nextSlot; var slot, left := s.d.slots[i], Append(s, mark, offset).0.d.slots[i];
      left.cells == slot.cells
      || (k < CAPACITY && left.cells[k] in {Garbage, Record(s.r.journal.sequence + 1, mark, offset)}
          && left.cells == slot.cells[k := left.cells[k]])
  {
    hide Call;
  }

  /** The cursor, the ledger and the order of a journal do not depend on the image. */
  lemma PayloadFree(l: Ledger, r: Ram, q: Ram, s: Slot, t: Slot)
    requires SlotShape(s) && SlotShape(t) && SameJournal(s, t) && q.journal == r.journal && q.target == r.target
    ensures Tells(l, t) <==> Tells(l, s)
    ensures Tidy(t) <==> Tidy(s)
    ensures CursorSound(q, t) <==> CursorSound(r, s)
  {
    hide Counts, JournalOf;
    SamePayloadJournal(s, t);
  }

  ghost predicate SlotKept(l: Ledger, r: Ram, s: Slot)
    requires SlotShape(s)
  {
    Tells(l, s) && Tidy(s) && CursorSound(r, s)
  }

  /** While receiving, the cursor is behind the newest record and in front of blank cells. */
  lemma ReceivingCursor(r: Ram, s: Slot, accepted: seq<byte>)
    requires SlotShape(s) && Transferring(r, s, accepted)
    ensures r.journal.headerReady && HeaderUsable(s.header)
    ensures r.journal.nextSlot < CAPACITY ==> s.cells[r.journal.nextSlot] == Blank
  {
    hide ScanCells, Counts;
    ScanIsNewest(s.cells, r.target.imageBytes, CAPACITY);
  }

  /** One append of a running transfer, whatever becomes of it. */
  lemma AppendNoted(l: Ledger, s: State, mark: Mark, offset: nat)
    requires Shape(s) && SlotKept(l, s.r, s.d.slots[Inactive(s.r)]) && mark != Abandoned && s.r.journal.headerReady
    requires Counts(Record(s.r.journal.sequence + 1, mark, offset), s.r.target.imageBytes)
    requires s.r.journal.nextSlot < CAPACITY ==> s.d.slots[Inactive(s.r)].cells[s.r.journal.nextSlot] == Blank
    ensures var (t, ok) := Append(s, mark, offset); var cell := Record(s.r.journal.sequence + 1, mark, offset);
      && SlotKept(if ok then Acknowledged(l, cell) else InFlight(l, cell), t.r, t.d.slots[Inactive(s.r)])
      && (ok <==> t.r.journal != s.r.journal)
  {
    hide Append, Counts, Shown, Tidy, CursorSound;
    AppendFrame(s, mark, offset);
    if Append(s, mark, offset).1 { AppendAcknowledged(s, mark, offset); } else { AppendLost(s, mark, offset); }
  }

  // ----- one event -----

  lemma WriteNoted(c: Crypto, l: Ledger, s: State, q: Chunk)
    requires Inv(c, s) && s.r.phase == Receiving && SlotKept(l, s.r, s.d.slots[Inactive(s.r)])
    ensures var (t, r) := HandleWrite(s, Some(q));
      var cell := Record(s.r.journal.sequence + 1, InProgress, Checkpointed(s.r.nextOffset + |q.data|));
      SlotKept(AfterAppend(l, s, t, r, cell), t.r, t.d.slots[Inactive(s.r)])
  {
    hide WriteFresh, Compare, SlotKept, StoreTrue, Transferring, Signed;
    var (t, r) := HandleWrite(s, Some(q));
    var i := Inactive(s.r);
    if |q.data| <= CHUNK && s.r.manifestLoaded && q.id == s.r.target.id && |q.data| != 0 && s.r.prefix.Some?
       && q.offset == s.r.nextOffset && s.r.nextOffset + |q.data| <= s.r.target.imageBytes {
      FreshNoted(c, l, s, q.data);
    } else {
      Untouched(l, s.r, t.r, s.d.slots[i]);
    }
  }

  lemma Untouched(l: Ledger, r: Ram, q: Ram, s: Slot)
    requires SlotShape(s) && SlotKept(l, r, s) && q.journal == r.journal && q.target == r.target
    ensures SlotKept(l, q, s)
  {
    hide Counts, JournalOf;
  }

  lemma Repainted(l: Ledger, r: Ram, q: Ram, s: Slot, t: Slot)
    requires SlotShape(s) && SlotShape(t) && SlotKept(l, r, s) && SameJournal(s, t) && q.journal == r.journal && q.target == r.target
    ensures SlotKept(l, q, t)
  {
    hide Tells, Tidy, CursorSound;
    PayloadFree(l, r, q, s, t);
  }

  lemma FreshNoted(c: Crypto, l: Ledger, s: State, data: seq<byte>)
    requires Inv(c, s) && s.r.phase == Receiving && SlotKept(l, s.r, s.d.slots[Inactive(s.r)])
    requires s.r.nextOffset + |data| <= s.r.target.imageBytes && s.r.prefix.Some?
    ensures var (t, r) := WriteFresh(s, data);
      var cell := Record(s.r.journal.sequence + 1, InProgress, Checkpointed(s.r.nextOffset + |data|));
      SlotKept(AfterAppend(l, s, t, r, cell), t.r, t.d.slots[Inactive(s.r)])
  {
    hide EraseAhead, ProgramChunk, Append, Counts, SlotKept, Inv, Checkpointed;
    var i, m := Inactive(s.r), s.r.nextOffset + |data|;
    InvIsShape(c, s);
    EraseAheadFrame(s, m);
    var s1 := EraseAhead(s, m).0;
    ProgramChunkFrame(s1, data);
    var s2 := ProgramChunk(s1, data).0;
    var t := WriteFresh(s, data).0;
    Repainted(l, s.r, s1.r, s.d.slots[i], s1.d.slots[i]);
    Repainted(l, s.r, s2.r, s.d.slots[i], s2.d.slots[i]);
    Untouched(l, s1.r, s1.r.(phase := Failed, misc := t.r.misc), s1.d.slots[i]);
    Untouched(l, s2.r, s2.r.(phase := Failed, misc := t.r.misc), s2.d.slots[i]);
    if EraseAhead(s, m).1 && ProgramChunk(s1, data).1 == None { AcceptNoted(c, l, s, s2, data, t.r.misc); }
  }

  /** Accounting for a chunk in flash, then only messages or the terminal phase. */
  lemma AcceptNoted(c: Crypto, l: Ledger, s: State, s2: State, data: seq<byte>, misc: Misc)
    requires Inv(c, s) && s.r.phase == Receiving && Shape(s2) && s2.r == s.r.(erasedThrough := s2.r.erasedThrough)
    requires SlotKept(l, s2.r, s2.d.slots[Inactive(s.r)]) && SameJournal(s.d.slots[Inactive(s.r)], s2.d.slots[Inactive(s.r)])
    requires s.r.nextOffset + |data| <= s.r.target.imageBytes && s.r.prefix.Some?
    ensures var (u, kept) := AcceptChunk(s2, data); var slot := u.d.slots[Inactive(s.r)];
      var cell := Record(s.r.journal.sequence + 1, InProgress, Checkpointed(s.r.nextOffset + |data|));
      && u.r.running == s.r.running
      && (kept ==> SlotKept(if u.r.journal != s.r.journal then Acknowledged(l, cell) else l, u.r.(misc := misc), slot))
      && (!kept ==> u.r.journal == s.r.journal && SlotKept(InFlight(l, cell), u.r.(misc := misc, phase := Failed), slot))
  {
    hide Append, Counts, SlotKept, Inv, Checkpointed;
    var i, m := Inactive(s.r), s.r.nextOffset + |data|;
    InvIsShape(c, s);
    var s3 := s2.(r := s2.r.(prefix := Some(s2.r.prefix.value + data), nextOffset := m),
                  a := SetAccepted(s2.a, i, s2.a.accepted[i] + data));
    Untouched(l, s2.r, s3.r, s2.d.slots[i]);
    Untouched(l, s2.r, s3.r.(misc := misc), s2.d.slots[i]);
    CheckpointCounts(m, s.r.target.imageBytes, s.r.journal.sequence + 1);
    FreeCell(c, s);
    AppendNoted(l, s3, InProgress, Checkpointed(m));
    AppendFrame(s3, InProgress, Checkpointed(m));
    var (s4, ok) := Append(s3, InProgress, Checkpointed(m));
    var cell := Record(s.r.journal.sequence + 1, InProgress, Checkpointed(m));
    Untouched(if ok then Acknowledged(l, cell) else InFlight(l, cell), s4.r, s4.r.(misc := misc), s4.d.slots[i]);
    Untouched(if ok then Acknowledged(l, cell) else InFlight(l, cell), s4.r, s4.r.(misc := misc, phase := Failed), s4.d.slots[i]);
  }

  lemma FreeCell(c: Crypto, s: State)
    requires Inv(c, s) && s.r.phase == Receiving
    ensures var slot, k := s.d.slots[Inactive(s.r)], s.r.journal.nextSlot;
      s.r.journal.headerReady && HeaderUsable(slot.header) && (k < CAPACITY ==> slot.cells[k] == Blank)
  {
    hide Transferring, StoreTrue, Signed;
    ReceivingCursor(s.r, s.d.slots[Inactive(s.r)], s.a.accepted[Inactive(s.r)]);
  }

  lemma FinishNoted(c: Crypto, l: Ledger, s: State, id: Option<Digest>)
    requires Inv(c, s) && s.r.phase == Receiving && SlotKept(l, s.r, s.d.slots[Inactive(s.r)])
    ensures var (t, r) := HandleFinish(c, s, id); var cell := Record(s.r.journal.sequence + 1, Complete, s.r.target.imageBytes);
      SlotKept(AfterAppend(l, s, t, r, cell), t.r, t.d.slots[Inactive(s.r)])
  {
    hide VerifyImage, Append, SelectSlot, Counts, SlotKept, Inv;
    InvIsShape(c, s);
    var (t, r) := HandleFinish(c, s, id);
    var i, n := Inactive(s.r), s.r.target.imageBytes;
    FreeCell(c, s);
    if s.r.nextOffset == n {
      var s1 := VerifyImage(c, s).0;
      VerifyErrors(c, s);
      Untouched(l, s.r, s1.r, s.d.slots[i]);
      Untouched(l, s.r, s1.r.(phase := Failed, misc := t.r.misc), s.d.slots[i]);
      CompletionCounts(n, s.r.journal.sequence + 1);
      AppendNoted(l, s1, Complete, n);
      AppendFrame(s1, Complete, n);
      var (s2, ok) := Append(s1, Complete, n);
      var cell := Record(s.r.journal.sequence + 1, Complete, n);
      Untouched(if ok then Acknowledged(l, cell) else InFlight(l, cell), s2.r, s2.r.(phase := t.r.phase, misc := t.r.misc), s2.d.slots[i]);
    }
    Untouched(l, s.r, s.r.(misc := t.r.misc), s.d.slots[i]);
  }

  lemma VerifyErrors(c: Crypto, s: State)
    requires Shape(s)
    ensures VerifyImage(c, s).1 in {None, Some(ImageHashMismatch), Some(ImageInvalid)}
  {
    hide HashSlot;
  }

  lemma CompletionCounts(n: nat, sequence: nat)
    requires sequence > 0
    ensures Counts(Record(sequence, Complete, n), n)
  {
  }

  /** What the trace keeps about one slot and the RAM. */
  ghost predicate Noted(l: Ledger, foreign: bool, r: Ram, s: Slot)
    requires SlotShape(s)
  {
    (l.clean ==> Tells(l, s) && Tidy(s)) && (l.clean && !foreign ==> CursorSound(r, s))
  }

  /** Closing the journal: what its ledger becomes. */
  function AfterClose(l: Ledger, s: State, closed: bool, foreign: bool): Ledger
    requires Shape(s)
  {
    if !s.r.journal.headerReady then l
    else if Append(s, Abandoned, s.r.nextOffset).1 then
      if foreign then l.(clean := false) else Acknowledged(l, Record(s.r.journal.sequence + 1, Abandoned, s.r.nextOffset))
    else if closed then OPENED
    else l.(clean := false)
  }

  lemma CloseNoted(l: Ledger, foreign: bool, s: State)
    requires Shape(s) && Noted(l, foreign, s.r, s.d.slots[Inactive(s.r)])
    ensures var (t, closed) := CloseJournal(s); var slot := t.d.slots[Inactive(s.r)]; var l' := AfterClose(l, s, closed, foreign);
      && t.r.running == s.r.running && t.r.target == s.r.target
      && (l'.clean ==> Tells(l', slot) && Tidy(slot)) && (!closed && s.r.journal.headerReady ==> !l'.clean)
      && (!closed ==> s.r.journal.headerReady)
  {
    hide Append, EraseJournal, Tells, Tidy, CursorSound;
    if s.r.journal.headerReady {
      AppendFrame(s, Abandoned, s.r.nextOffset);
      if Append(s, Abandoned, s.r.nextOffset).1 {
        if l.clean && !foreign {
          AbandonCounts(s.r.target.imageBytes, s.r.journal.sequence + 1, s.r.nextOffset);
          AppendAcknowledged(s, Abandoned, s.r.nextOffset);
          TellsLast(Acknowledged(l, Record(s.r.journal.sequence + 1, Abandoned, s.r.nextOffset)), CloseJournal(s).0.d.slots[Inactive(s.r)]);
        }
      } else {
        var d1 := Append(s, Abandoned, s.r.nextOffset).0.d;
        if EraseJournal(d1, Inactive(s.r)).1 { ErasedShows(d1, Inactive(s.r)); TellsLast(OPENED, EraseJournal(d1, Inactive(s.r)).0.slots[Inactive(s.r)]); }
      }
    }
  }

  lemma TellsLast(l: Ledger, s: Slot)
    requires SlotShape(s) && Shown(s) == l.last
    ensures Tells(l, s) && (!HeaderUsable(s.header) ==> Tidy(s))
  {
    hide Shown;
  }

  lemma AbortNoted(l: Ledger, foreign: bool, s: State, id: Option<Digest>)
    requires Shape(s) && Noted(l, foreign, s.r, s.d.slots[Inactive(s.r)])
    ensures var (t, r) := HandleAbort(s, id);
      Noted(AfterAbort(l, s, r, foreign), foreign && !r.ok, t.r, t.d.slots[Inactive(s.r)])
  {
    hide Append, CloseJournal, SelectSlot, Tells, Tidy, CursorSound;
    var i, s1 := Inactive(s.r), Selected(s);
    var t := HandleAbort(s, id).0;
    SameNoted(l, foreign, s.r, s1.r, s.d.slots[i]);
    SameNoted(l, foreign, s.r, t.r, s.d.slots[i]);
    CloseNoted(l, foreign, s1);
    SameAppend(s);
    NoCursor(t.r, t.d.slots[i]);
  }

  lemma SameAppend(s: State)
    requires Shape(s)
    ensures Selected(s).r.journal == s.r.journal && Selected(s).r.nextOffset == s.r.nextOffset
  {
  }

  lemma NoCursor(r: Ram, s: Slot)
    requires SlotShape(s)
    ensures !r.journal.headerReady ==> CursorSound(r, s)
  {
  }

  lemma AbandonCounts(n: nat, sequence: nat, offset: nat)
    requires sequence > 0 && offset <= n
    ensures Counts(Record(sequence, Abandoned, offset), n)
  {
  }

  lemma ErasedShows(d: Device, i: nat)
    requires DeviceShape(d) && i < 2 && EraseJournal(d, i).1
    ensures Shown(EraseJournal(d, i).0.slots[i]) == None && !HeaderUsable(EraseJournal(d, i).0.slots[i].header)
  {
    hide EraseJournal;
  }

  lemma BeginNoted(c: Crypto, l: Ledger, foreign: bool, s: State, b: Option<(seq<byte>, seq<byte>)>)
    requires Shape(s) && Noted(l, foreign, s.r, s.d.slots[Inactive(s.r)])
    ensures var (t, r) := HandleBegin(c, s, b); var l' := AfterBegin(l, s, r);
      && Noted(l', foreign && !(Opens(s.r.phase) && (r.ok || r.error == Some(JournalFailed))), t.r, t.d.slots[Inactive(s.r)])
  {
    hide BeginVerified, Noted, Parse;
    var (t, r) := HandleBegin(c, s, b);
    SameNoted(l, foreign, s.r, t.r, s.d.slots[Inactive(s.r)]);
    if b.Some? && Parse(c, b.value.0).Some? {
      ParseBounds(c, b.value.0);
      VerifiedNoted(l, foreign, s.(a := s.a.(verified := s.a.verified + {b.value.0})), Parse(c, b.value.0).value, c.digest(b.value.0));
    }
  }

  lemma VerifiedNoted(l: Ledger, foreign: bool, s: State, m: Manifest, id: Digest)
    requires Shape(s) && Noted(l, foreign, s.r, s.d.slots[Inactive(s.r)]) && 0 < m.imageBytes <= IMAGE_MAX
    ensures var (t, r) := BeginVerified(s, m, id);
      Noted(AfterBegin(l, s, r), foreign && !(Opens(s.r.phase) && (r.ok || r.error == Some(JournalFailed))), t.r,
            t.d.slots[Inactive(s.r)])
  {
    hide BindResumed, PrepareNewUpdate, Noted;
    var t := BeginVerified(s, m, id).0;
    var i := Inactive(s.r);
    SameNoted(l, foreign, s.r, t.r, s.d.slots[i]);
    if Opens(s.r.phase) {
      PrepareNoted(l, foreign, s, m, id);
      var (s2, failure) := PrepareNewUpdate(s, m, id);
      if failure != None {
        var l2 := AfterBegin(l, s, BeginVerified(s, m, id).1);
        SameNoted(l2, failure != Some(JournalFailed) && foreign, s2.r, t.r, s2.d.slots[i]);
      }
    } else {
      BindFrame(s, m, id);
    }
  }

  lemma BindFrame(s: State, m: Manifest, id: Digest)
    requires Shape(s)
    ensures var t := BindResumed(s, m, id).0; t.d.slots == s.d.slots && t.r.journal == s.r.journal && t.r.target == s.r.target
  {
    hide RebuildPrefix;
    RebuildFrame(s.(r := s.r.(manifestLoaded := true, misc := s.r.misc.(resumed := true, error := None))));
  }

  lemma SameNoted(l: Ledger, foreign: bool, r: Ram, q: Ram, s: Slot)
    requires SlotShape(s) && Noted(l, foreign, r, s)
    ensures q.journal == r.journal && q.target == r.target ==> Noted(l, foreign, q, s)
  {
    hide Counts, JournalOf;
  }

  /** `prepareNewUpdate`, wherever it stops. */
  lemma PrepareNoted(l: Ledger, foreign: bool, s: State, m: Manifest, id: Digest)
    requires Shape(s) && Noted(l, foreign, s.r, s.d.slots[Inactive(s.r)]) && 0 < m.imageBytes <= IMAGE_MAX
    ensures var (t, failure) := PrepareNewUpdate(s, m, id); var slot := t.d.slots[Inactive(s.r)];
      && t.r.running == s.r.running && failure in {None, Some(BootSelectFailed), Some(FlashEraseFailed), Some(JournalFailed)}
      && (failure == None ==> Noted(Ledger(true, Some(FIRST_RECORD), {}), false, t.r, slot))
      && (failure == Some(JournalFailed) ==> Noted(InFlight(OPENED, FIRST_RECORD), false, t.r, slot))
      && (failure == Some(BootSelectFailed) ==> Noted(l, foreign, t.r, slot))
      && (failure == Some(FlashEraseFailed) ==> Noted(l.(clean := false), foreign, t.r, slot))
  {
    hide Append, EraseJournal, WriteHeader, SelectSlot, Tells, Tidy, CursorSound;
    var i := Inactive(s.r);
    var s0 := s.(r := CancelReboot(s.r));
    var h := Header(m.imageBytes, id, m.sha, m.version);
    SameNoted(l, foreign, s.r, s0.r, s.d.slots[i]);
    var (s1, failure) := OpenJournal(s0, h);
    if failure == None || failure == Some(JournalFailed) {
      OpenedBlank(s0, h);
      BlankNoted(s1.r, s1.d.slots[i]);
    }
    if failure == None {
      var s2 := s1.(r := s1.r.(journal := Cursor(true, 0, 0), target := Target(true, id, m.sha, m.version, m.imageBytes),
                               nextOffset := 0, persistedOffset := 0, erasedThrough := 0));
      BlankCursor(s2.r, s2.d.slots[i]);
      FirstCounts(m.imageBytes);
      AppendNoted(OPENED, s2, InProgress, 0);
      AppendFrame(s2, InProgress, 0);
      var (s3, ok) := Append(s2, InProgress, 0);
      KeptIsNoted(if ok then Acknowledged(OPENED, FIRST_RECORD) else InFlight(OPENED, FIRST_RECORD), s3.r, s3.d.slots[i]);
      if ok { SameNoted(Ledger(true, Some(FIRST_RECORD), {}), false, s3.r, PrepareNewUpdate(s, m, id).0.r, s3.d.slots[i]); }
    }
  }

  lemma FirstCounts(n: nat)
    ensures Counts(FIRST_RECORD, n)
  {
  }

  lemma KeptIsNoted(l: Ledger, r: Ram, s: Slot)
    requires SlotShape(s) && SlotKept(l, r, s)
    ensures Noted(l, false, r, s)
  {
    hide Tells, Tidy, CursorSound;
  }

  lemma OpenedBlank(s: State, h: BleOta.Header)
    requires Shape(s)
    ensures var (t, failure) := OpenJournal(s, h); var slot := t.d.slots[Inactive(s.r)];
      && (failure == None ==> slot.header == h)
      && (failure == None || failure == Some(JournalFailed) ==>
            t.r == s.r.(journal := NO_CURSOR) && forall k :: 0 <= k < CAPACITY ==> slot.cells[k] == Blank)
  {
    hide EraseJournal, WriteHeader, SelectSlot;
  }

  lemma BlankShows(s: Slot)
    requires SlotShape(s) && forall k :: 0 <= k < CAPACITY ==> s.cells[k] == Blank
    ensures Shown(s) == None && Tidy(s)
  {
    hide Counts, JournalOf;
    if Shown(s).Some? { var k := ShownLeads(s); }
    if HeaderUsable(s.header) { NeverCounts(s.header.imageBytes); }
  }

  lemma BlankNoted(r: Ram, s: Slot)
    requires SlotShape(s) && (forall k :: 0 <= k < CAPACITY ==> s.cells[k] == Blank) && r.journal == NO_CURSOR
    ensures Noted(InFlight(OPENED, FIRST_RECORD), false, r, s)
  {
    hide JournalOf, Tidy;
    BlankShows(s);
  }

  lemma BlankCursor(r: Ram, s: Slot)
    requires SlotShape(s) && (forall k :: 0 <= k < CAPACITY ==> s.cells[k] == Blank)
    requires r.journal == Cursor(true, 0, 0) && HeaderUsable(s.header) && s.header.imageBytes == r.target.imageBytes
    ensures SlotKept(OPENED, r, s)
  {
    hide JournalOf, Tidy;
    BlankShows(s);
  }

  // ----- resets -----

  /** Where the cursor of a reset comes from. */
  lemma BootCursor(c: Crypto, s: State, e: Event)
    requires Shape(s) && e.Reset?
    ensures var t := Step(c, s, e); var slot := s.d.slots[1 - e.running % 2]; var j := JournalOf(slot);
      && t.d.slots == s.d.slots && t.r.running == e.running % 2
      && (t.r.journal.headerReady && !(e.usable && TakesRunning(s, e)) ==>
            j.Some? && j.value.mark != Abandoned && t.r.target.imageBytes == slot.header.imageBytes
            && t.r.journal == Cursor(true, j.value.sequence, j.value.lastOccupied))
      && (e.usable && TakesRunning(s, e) ==> t.r.phase in {Confirmed, PendingVerify, Failed})
  {
    hide Call, HashSlot, ReadJournal, RebuildPrefix, JournalOf, Choose;
    var r0 := FreshRam(e.running % 2, e.version);
    var s0 := s.(d := s.d.(alive := true, plan := e.plan), r := if e.usable then r0.(misc := r0.misc.(begun := true)) else r0);
    if e.usable {
      var d2 := ReadJournal(ReadJournal(s0.d, s0.r.running).0, Inactive(s0.r)).0;
      ChooseCursor(c, s0.(d := d2), e);
    }
  }

  lemma ChooseCursor(c: Crypto, s: State, e: Event)
    requires Shape(s) && e.Reset? && s.r.running == e.running % 2 && s.r.journal == NO_CURSOR
    ensures var (t, ok) := Choose(c, s, e.runningBoot, e.inactiveBoot); var slot := s.d.slots[1 - e.running % 2]; var j := JournalOf(slot);
      && t.d.slots == s.d.slots && t.r.running == s.r.running
      && (t.r.journal.headerReady && !TakesRunning(s, e) ==>
            j.Some? && j.value.mark != Abandoned && t.r.target.imageBytes == slot.header.imageBytes
            && t.r.journal == Cursor(true, j.value.sequence, j.value.lastOccupied))
      && (TakesRunning(s, e) ==> t.r.phase in {Confirmed, PendingVerify, Failed})
  {
    hide Call, HashSlot, RebuildPrefix, JournalOf;
    var i := Inactive(s.r);
    if JournalOf(s.d.slots[i]).Some? {
      var j := JournalOf(s.d.slots[i]).value;
      var r := BindJournal(s.r, s.d.slots[i].header, j);
      RebuildFrame(s.(r := r.(phase := Receiving, erasedThrough := j.offset,
                              misc := r.misc.(resumed := true, error := Some(BeginRequired))),
                      a := SetAccepted(s.a, i, Truncate(s.a.accepted[i], j.offset))));
    }
  }

  lemma {:induction false} LastIsOccupied(cells: seq<Cell>, imageBytes: nat, n: nat)
    requires n <= |cells|
    ensures var k := ScanCells(cells, imageBytes, n).lastOccupied; k > 0 ==> cells[k - 1] != Blank
  {
    if n > 0 { LastIsOccupied(cells, imageBytes, n - 1); }
  }

  /** A cursor taken from the scan of a tidy journal is sound. */
  lemma ScannedCursor(r: Ram, s: Slot)
    requires SlotShape(s) && Tidy(s) && JournalOf(s).Some? && JournalOf(s).value.mark != Abandoned
    requires r.target.imageBytes == s.header.imageBytes
    requires r.journal == Cursor(true, JournalOf(s).value.sequence, JournalOf(s).value.lastOccupied)
    ensures CursorSound(r, s)
  {
    hide ScanCells;
    var n, k := s.header.imageBytes, r.journal.nextSlot;
    JournalIs(s);
    ScanIsNewest(s.cells, n, CAPACITY);
    LastIsOccupied(s.cells, n, CAPACITY);
    var m := ShownLeads(s);
    forall j | 0 <= j < k && Counts(s.cells[j], n) ensures s.cells[j].mark != Abandoned {
      assert j != m ==> BelowAbandoned(s.cells[m], s.cells[j], n);
    }
  }

  lemma ResetNoted(c: Crypto, tr: Traced, e: Event)
    requires Kept(c, tr) && e.Reset?
    ensures Kept(c, Next(c, tr, e))
  {
    hide Inv, Step, TakesRunning, Tells, Tidy, JournalOf, CursorSound;
    InvIsShape(c, tr.s);
    StepKeeps(c, tr.s, e);
    BootCursor(c, tr.s, e);
    var u := Next(c, tr, e);
    var i := Inactive(u.s.r);
    if u.ledgers[i].clean && !u.foreign {
      if u.s.r.journal.headerReady { ScannedCursor(u.s.r, u.s.d.slots[i]); } else { NoCursor(u.s.r, u.s.d.slots[i]); }
    }
  }

  // ----- every event -----

  /** Requests leave the running slot alone. */
  lemma OtherSlot(c: Crypto, s: State, e: Event)
    requires Shape(s) && !e.Reset?
    ensures var t := Step(c, s, e); t.d.slots[s.r.running] == s.d.slots[s.r.running] && t.r.running == s.r.running
  {
    hide HandleBegin, HandleWrite, HandleFinish, HandleAbort, SelectSlot, Rollback, Call;
    match e
    case Begin(b) => BeginOther(c, s, b);
    case Write(q) => WriteOtherSlot(s, q); WriteRuns(s, q);
    case Finish(id) => FinishOther(c, s, id);
    case Abort(id) => AbortOther(s, id);
    case _ =>
  }

  lemma BeginOther(c: Crypto, s: State, b: Option<(seq<byte>, seq<byte>)>)
    requires Shape(s)
    ensures var t := HandleBegin(c, s, b).0; t.d.slots[s.r.running] == s.d.slots[s.r.running] && t.r.running == s.r.running
  {
    hide PrepareNewUpdate, BindResumed, Parse;
    if b.Some? && Parse(c, b.value.0).Some? {
      ParseBounds(c, b.value.0);
      var s1 := s.(a := s.a.(verified := s.a.verified + {b.value.0}));
      PrepareOther(s1, Parse(c, b.value.0).value, c.digest(b.value.0));
      BindOther(s1, Parse(c, b.value.0).value, c.digest(b.value.0));
    }
  }

  lemma BindOther(s: State, m: Manifest, id: Digest)
    requires Shape(s)
    ensures var t := BindResumed(s, m, id).0; t.d.slots == s.d.slots && t.r.running == s.r.running
  {
    hide RebuildPrefix;
    RebuildFrame(s.(r := s.r.(manifestLoaded := true, misc := s.r.misc.(resumed := true, error := None))));
  }

  lemma PrepareOther(s: State, m: Manifest, id: Digest)
    requires Shape(s) && m.imageBytes <= IMAGE_MAX
    ensures var t := PrepareNewUpdate(s, m, id).0; t.d.slots[s.r.running] == s.d.slots[s.r.running] && t.r.running == s.r.running
  {
    hide EraseJournal, WriteHeader, Append, SelectSlot;
    var (s1, failure) := OpenJournal(s.(r := CancelReboot(s.r)), Header(m.imageBytes, id, m.sha, m.version));
    AppendFrame(s1.(r := s1.r.(journal := Cursor(true, 0, 0), target := Target(true, id, m.sha, m.version, m.imageBytes),
                               nextOffset := 0, persistedOffset := 0, erasedThrough := 0)), InProgress, 0);
  }

  lemma WriteRuns(s: State, q: Option<Chunk>)
    requires Shape(s)
    ensures HandleWrite(s, q).0.r.running == s.r.running
  {
    hide EraseAhead, ProgramChunk, Append, Compare, Checkpointed;
    if q.Some? && s.r.nextOffset + |q.value.data| <= s.r.target.imageBytes && s.r.prefix.Some? {
      var s2 := ProgramChunk(EraseAhead(s, s.r.nextOffset + |q.value.data|).0, q.value.data).0;
      var m := s.r.nextOffset + |q.value.data|;
      AppendFrame(s2.(r := s2.r.(prefix := Some(s2.r.prefix.value + q.value.data), nextOffset := m),
                      a := SetAccepted(s2.a, Inactive(s.r), s2.a.accepted[Inactive(s.r)] + q.value.data)), InProgress, Checkpointed(m));
    }
  }

  lemma FinishOther(c: Crypto, s: State, id: Option<Digest>)
    requires Shape(s)
    ensures var t := HandleFinish(c, s, id).0; t.d.slots[s.r.running] == s.d.slots[s.r.running] && t.r.running == s.r.running
  {
    hide VerifyImage, Append, SelectSlot;
    AppendFrame(VerifyImage(c, s).0, Complete, s.r.target.imageBytes);
  }

  lemma AbortOther(s: State, id: Option<Digest>)
    requires Shape(s)
    ensures var t := HandleAbort(s, id).0; t.d.slots[s.r.running] == s.d.slots[s.r.running] && t.r.running == s.r.running
  {
    hide EraseJournal, Append, SelectSlot;
    AppendFrame(Selected(s), Abandoned, s.r.nextOffset);
  }

  /** The request of a begun, live updater is its handler. */
  lemma Handled(c: Crypto, s: State, e: Event)
    requires Shape(s) && s.d.alive && s.r.misc.begun
    ensures e.Begin? ==> Step(c, s, e) == HandleBegin(c, s, e.begin).0
    ensures e.Write? ==> Step(c, s, e) == HandleWrite(s, e.chunk).0
    ensures e.Finish? ==> Step(c, s, e) == HandleFinish(c, s, e.id).0
    ensures e.Abort? ==> Step(c, s, e) == HandleAbort(s, e.id).0
  {
    hide HandleBegin, HandleWrite, HandleFinish, HandleAbort;
  }

  /** Every other event leaves slots, cursor and target alone. */
  lemma Quiet(c: Crypto, s: State, e: Event)
    requires Shape(s) && !e.Reset? && (!s.d.alive || !s.r.misc.begun || e.Reboot? || e.Status? || e.Initialized? || e.Tick?)
    ensures var t := Step(c, s, e);
      && t.d.slots == s.d.slots && t.r.journal == s.r.journal && t.r.target == s.r.target && t.r.running == s.r.running
      && (t.r.phase == s.r.phase || t.r.phase == Failed || (s.r.phase == PendingVerify && t.r.phase == Confirmed))
  {
    hide HandleBegin, HandleWrite, HandleFinish, HandleAbort, Call, SelectSlot;
  }

  lemma WriteEvent(c: Crypto, l: Ledger, s: State, q: Option<Chunk>)
    requires Inv(c, s) && Noted(l, false, s.r, s.d.slots[Inactive(s.r)])
    ensures var (t, r) := HandleWrite(s, q);
      Noted(if s.r.phase != Receiving || q == None then l
            else AfterAppend(l, s, t, r, Record(s.r.journal.sequence + 1, InProgress, Checkpointed(s.r.nextOffset + |q.value.data|))),
            false, t.r, t.d.slots[Inactive(s.r)])
  {
    hide WriteFresh, Compare, Inv, Checkpointed, Noted;
    InvIsShape(c, s);
    var (t, r) := HandleWrite(s, q);
    var i := Inactive(s.r);
    if s.r.phase == Receiving && q.Some? {
      Unclean(AfterAppend(l, s, t, r, Record(s.r.journal.sequence + 1, InProgress, Checkpointed(s.r.nextOffset + |q.value.data|))), l, t.r, t.d.slots[i]);
      if l.clean {
        NotedIsKept(l, s.r, s.d.slots[i]);
        WriteNoted(c, l, s, q.value);
        KeptIsNoted(AfterAppend(l, s, t, r, Record(s.r.journal.sequence + 1, InProgress, Checkpointed(s.r.nextOffset + |q.value.data|))), t.r, t.d.slots[i]);
      }
    } else {
      SameNoted(l, false, s.r, t.r, s.d.slots[i]);
    }
  }

  lemma FinishEvent(c: Crypto, l: Ledger, s: State, id: Option<Digest>)
    requires Inv(c, s) && Noted(l, false, s.r, s.d.slots[Inactive(s.r)])
    ensures var (t, r) := HandleFinish(c, s, id);
      Noted(if s.r.phase != Receiving then l
            else AfterAppend(l, s, t, r, Record(s.r.journal.sequence + 1, Complete, s.r.target.imageBytes)),
            false, t.r, t.d.slots[Inactive(s.r)])
  {
    hide FinishImage, SelectSlot, Inv, Noted;
    InvIsShape(c, s);
    var (t, r) := HandleFinish(c, s, id);
    var i := Inactive(s.r);
    if s.r.phase == Receiving {
      var l' := AfterAppend(l, s, t, r, Record(s.r.journal.sequence + 1, Complete, s.r.target.imageBytes));
      Unclean(l', l, t.r, t.d.slots[i]);
      if l.clean {
        NotedIsKept(l, s.r, s.d.slots[i]);
        FinishNoted(c, l, s, id);
        KeptIsNoted(l', t.r, t.d.slots[i]);
      }
    } else {
      SameNoted(l, false, s.r, t.r, s.d.slots[i]);
    }
  }

  lemma NotedIsKept(l: Ledger, r: Ram, s: Slot)
    requires SlotShape(s) && Noted(l, false, r, s) && l.clean
    ensures SlotKept(l, r, s)
  {
    hide Tells, Tidy, CursorSound;
  }

  lemma Unclean(l': Ledger, l: Ledger, r: Ram, s: Slot)
    requires SlotShape(s)
    ensures !l.clean && l'.clean == l.clean ==> Noted(l', false, r, s)
  {
  }

  /** The RAM counts the running slot's records only in phases that do not append. */
  lemma ForeignPhase(c: Crypto, tr: Traced, e: Event)
    requires TraceShape(tr) && (tr.foreign ==> tr.s.r.phase in {Confirmed, PendingVerify, Failed}) && !e.Reset?
    ensures var u := Next(c, tr, e); u.foreign ==> u.s.r.phase in {Confirmed, PendingVerify, Failed}
  {
    hide NextLedger, PrepareNewUpdate, CloseJournal, SelectSlot, Parse, Call;
    var s := tr.s;
    if tr.foreign && s.d.alive && s.r.misc.begun && (e.Begin? || e.Abort? || e.Write? || e.Finish?) { Handled(c, s, e); } else {
      Quietly(c, tr, e);
    }
  }

  lemma Quietly(c: Crypto, tr: Traced, e: Event)
    requires TraceShape(tr) && (tr.foreign ==> tr.s.r.phase in {Confirmed, PendingVerify, Failed}) && !e.Reset?
    requires !(tr.foreign && tr.s.d.alive && tr.s.r.misc.begun && (e.Begin? || e.Abort? || e.Write? || e.Finish?))
    ensures var u := Next(c, tr, e); u.foreign ==> u.s.r.phase in {Confirmed, PendingVerify, Failed}
  {
    hide NextLedger, Step, HandleBegin, HandleAbort;
    if tr.foreign { Quiet(c, tr.s, e); }
  }

  /** One request: the slot it works on. */
  lemma RequestNoted(c: Crypto, tr: Traced, e: Event)
    requires Kept(c, tr) && !e.Reset?
    ensures var u := Next(c, tr, e); var i := Inactive(tr.s.r); Noted(u.ledgers[i], u.foreign, u.s.r, u.s.d.slots[i])
  {
    hide Step, HandleBegin, HandleWrite, HandleFinish, HandleAbort, Inv, Tells, Tidy, CursorSound, AfterBegin, AfterAppend, AfterAbort;
    var s, l := tr.s, tr.ledgers[Inactive(tr.s.r)];
    var i := Inactive(s.r);
    InvIsShape(c, s);
    assert Noted(l, tr.foreign, s.r, s.d.slots[i]);
    if s.d.alive && s.r.misc.begun && (e.Begin? || e.Write? || e.Finish? || e.Abort?) {
      Handled(c, s, e);
      match e
      case Begin(b) => BeginNoted(c, l, tr.foreign, s, b);
      case Write(q) => if tr.foreign { ForeignRejects(c, s); SameNoted(l, true, s.r, HandleWrite(s, q).0.r, s.d.slots[i]); } else { WriteEvent(c, l, s, q); }
      case Finish(id) => if tr.foreign { ForeignRejects(c, s); SameNoted(l, true, s.r, HandleFinish(c, s, id).0.r, s.d.slots[i]); } else { FinishEvent(c, l, s, id); }
      case Abort(id) => AbortNoted(l, tr.foreign, s, id);
    } else {
      Quiet(c, s, e);
      SameNoted(l, tr.foreign, s.r, Step(c, s, e).r, s.d.slots[i]);
    }
  }

  lemma ForeignRejects(c: Crypto, s: State)
    requires Shape(s) && s.r.phase in {Confirmed, PendingVerify, Failed}
    ensures forall q: Option<Chunk> :: var t := HandleWrite(s, q).0; t.d == s.d && t.r.journal == s.r.journal && t.r.target == s.r.target
    ensures forall id: Option<Digest> ::
      var t := HandleFinish(c, s, id).0; t.d == s.d && t.r.journal == s.r.journal && t.r.target == s.r.target
  {
  }

  lemma StepNoted(c: Crypto, tr: Traced, e: Event)
    requires Kept(c, tr)
    ensures Kept(c, Next(c, tr, e))
  {
    hide Step, Inv, NextLedger, NextForeign, Tells, Tidy, CursorSound, TakesRunning;
    InvIsShape(c, tr.s);
    if e.Reset? {
      ResetNoted(c, tr, e);
    } else {
      StepKeeps(c, tr.s, e);
      RequestNoted(c, tr, e);
      ForeignPhase(c, tr, e);
      OtherSlot(c, tr.s, e);
    }
  }

  lemma {:induction false} TraceKeeps(c: Crypto, s: State, events: seq<Event>)
    requires Factory(s) && !s.r.journal.headerReady
    ensures Kept(c, Trace(c, s, events))
    decreases |events|
  {
    hide Kept, Next;
    if events == [] {
      FactoryKept(c, s);
    } else {
      var n := |events| - 1;
      TraceKeeps(c, s, events[..n]);
      StepNoted(c, Trace(c, s, events[..n]), events[n]);
    }
  }

  lemma FactoryKept(c: Crypto, s: State)
    requires Factory(s) && !s.r.journal.headerReady
    ensures Kept(c, Traced(s, [OPENED, OPENED], false))
  {
    hide Inv, JournalOf;
    FactoryIsTrue(c, s);
    Unusable(s.d.slots[0]);
    Unusable(s.d.slots[1]);
  }

  lemma {:induction false} TraceIsRun(c: Crypto, s: State, events: seq<Event>)
    requires Shape(s)
    ensures Trace(c, s, events).s == Run(c, s, events)
    decreases |events|
  {
    hide Step;
    if events != [] { TraceIsRun(c, s, events[..|events| - 1]); }
  }

  /** In every run of a new device, through resets, power cuts and torn records, `readJournal` returns the last record that was
      acknowledged, or one that was in flight when a later call failed; except that after a sector erase that was cut, or an
      abort that counted by the other slot's journal, nothing is promised of this slot until its sector is erased. */
  lemma JournalFollows(c: Crypto, s: State, events: seq<Event>, i: nat)
    requires Factory(s) && !s.r.journal.headerReady && i < 2
    ensures var tr := Trace(c, s, events); var slot := Run(c, s, events).d.slots[i]; var l := tr.ledgers[i];
      l.clean ==> Shown(slot) == l.last || (Shown(slot).Some? && Shown(slot).value in l.flights)
  {
    hide Trace, Run, Shown, Inv, Tidy, CursorSound;
    TraceKeeps(c, s, events);
    TraceIsRun(c, s, events);
  }
}
