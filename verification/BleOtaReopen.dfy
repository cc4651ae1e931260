/** Exactly which events open a closed journal again. */
module BleOtaReopen {
  import opened Bytes
  import opened BleOta
  import opened BleOtaProofs
  import opened BleOtaRuns
  import opened BleOtaAbort
  import opened BleOtaJournal

  // ----- what a failed erase can uncover -----

  /** The header survived, and so did a record that is not Abandoned and leads what is left. */
  ghost predicate Uncovered(before: Slot, after: Slot)
    requires SlotShape(before) && SlotShape(after)
  {
    HeaderUsable(before.header) && after.header == before.header
    && exists k :: 0 <= k < CAPACITY && after.cells[k] == before.cells[k] && Counts(before.cells[k], before.header.imageBytes)
                   && before.cells[k].mark != Abandoned && Leads(after.cells, k, before.cells[k], before.header.imageBytes)
  }

  /** Some cells and perhaps the header are gone; what is new is unreadable or Abandoned. */
  predicate Thinned(before: Slot, after: Slot)
    requires SlotShape(before) && SlotShape(after)
  {
    after.header in {before.header, NoHeader, TornHeader}
    && forall k :: 0 <= k < CAPACITY && after.cells[k] != before.cells[k] ==> !after.cells[k].Record? || after.cells[k].mark == Abandoned
  }

  lemma OpenIsUncovered(before: Slot, after: Slot)
    requires SlotShape(before) && SlotShape(after) && Thinned(before, after)
    ensures !Closed(after) <==> Uncovered(before, after)
  {
    hide JournalOf;
    if !Closed(after) {
      var k := ShownLeads(after);
      assert after.cells[k] == before.cells[k];
    }
    if Uncovered(before, after) {
      var k :| 0 <= k < CAPACITY && after.cells[k] == before.cells[k] && Counts(before.cells[k], before.header.imageBytes)
               && before.cells[k].mark != Abandoned && Leads(after.cells, k, before.cells[k], before.header.imageBytes);
      LeaderIsShown(after, k);
    }
  }

  /** A closed journal is uncovered only by losing the record that closed it. */
  lemma UncoveredLoses(before: Slot, after: Slot) returns (k: nat)
    requires SlotShape(before) && SlotShape(after) && Closed(before) && Uncovered(before, after)
    ensures k < CAPACITY && Shown(before) == Some(before.cells[k]) && before.cells[k].mark == Abandoned && after.cells[k] != before.cells[k]
  {
    hide Counts, JournalOf;
    if Shown(before) == None { NothingShown(before); }
    k := ShownLeads(before);
  }

  // ----- a begin -----

  /** The erase behind a begin that reports it failed. */
  lemma EraseThins(d: Device, i: nat)
    requires DeviceShape(d) && i < 2
    ensures Thinned(d.slots[i], EraseJournal(d, i).0.slots[i])
  {
    hide EraseJournal;
  }

  lemma PrepareOpens(s: State, m: Manifest, id: Digest)
    requires Shape(s) && Closed(s.d.slots[Inactive(s.r)]) && 0 < m.imageBytes <= IMAGE_MAX
    ensures var (t, failure) := PrepareNewUpdate(s, m, id); var i := Inactive(s.r); var slot, left := s.d.slots[i], t.d.slots[i];
      && failure in {None, Some(BootSelectFailed), Some(FlashEraseFailed), Some(JournalFailed)}
      && (!Closed(left) <==>
            failure == None
            || (failure == Some(JournalFailed) && left.cells[0] == FIRST_RECORD)
            || (failure == Some(FlashEraseFailed) && Uncovered(slot, left)))
  {
    hide Append, EraseJournal, WriteHeader, SelectSlot, JournalOf, Counts, Closed, Uncovered, Thinned, Tidy;
    var i := Inactive(s.r);
    var s0, h := s.(r := CancelReboot(s.r)), Header(m.imageBytes, id, m.sha, m.version);
    var d1, selected := SelectSlot(s0.d, s.r.running).0, SelectSlot(s0.d, s.r.running).1;
    var (s1, failure) := OpenJournal(s0, h);
    if selected && !EraseJournal(d1, i).1 {
      EraseThins(d1, i);
      OpenIsUncovered(s.d.slots[i], EraseJournal(d1, i).0.slots[i]);
    } else if selected {
      OpenedBlank(s0, h);
      if failure == None { StartOpens(s1, m, id); } else { BlankIsClosed(s1.d.slots[i]); }
    }
  }

  lemma BlankIsClosed(s: Slot)
    requires SlotShape(s) && forall k :: 0 <= k < CAPACITY ==> s.cells[k] == Blank
    ensures Closed(s)
  {
    hide JournalOf, Tidy;
    BlankShows(s);
  }

  lemma StartOpens(s: State, m: Manifest, id: Digest)
    requires Shape(s) && 0 < m.imageBytes <= IMAGE_MAX && s.r.journal == NO_CURSOR
    requires var slot := s.d.slots[Inactive(s.r)];
      slot.header == Header(m.imageBytes, id, m.sha, m.version) && forall k :: 0 <= k < CAPACITY ==> slot.cells[k] == Blank
    ensures var (t, failure) := StartTransfer(s, m, id); var left := t.d.slots[Inactive(s.r)];
      && failure in {None, Some(JournalFailed)}
      && (failure == None ==> !Closed(left))
      && (failure != None ==> (!Closed(left) <==> left.cells[0] == FIRST_RECORD))
  {
    hide Append, JournalOf, Counts;
    var i := Inactive(s.r);
    var s2 := s.(r := s.r.(journal := Cursor(true, 0, 0), target := Target(true, id, m.sha, m.version, m.imageBytes),
                           nextOffset := 0, persistedOffset := 0, erasedThrough := 0));
    AppendFrame(s2, InProgress, 0);
    AppendLeaves(s2, InProgress, 0);
    var left := Append(s2, InProgress, 0).0.d.slots[i];
    if Append(s2, InProgress, 0).1 { AppendWrites(s2, InProgress, 0); }
    assert forall k :: 0 < k < CAPACITY ==> left.cells[k] == Blank;
    FirstOpens(left);
  }

  /** A journal of one cell. */
  lemma FirstOpens(s: Slot)
    requires SlotShape(s) && HeaderUsable(s.header) && s.cells[0] in {Blank, Garbage, FIRST_RECORD}
    requires forall k :: 0 < k < CAPACITY ==> s.cells[k] == Blank
    ensures !Closed(s) <==> s.cells[0] == FIRST_RECORD
  {
    hide JournalOf, Counts;
    NeverCounts(s.header.imageBytes);
    FirstCounts(s.header.imageBytes);
    if s.cells[0] == FIRST_RECORD { LeaderIsShown(s, 0); } else if Shown(s).Some? { var k := ShownLeads(s); }
  }

  /** A begin request, by its receipt and by what its last flash call left. */
  ghost predicate BeginOpens(s: State, r: Receipt, left: Slot)
    requires Shape(s) && SlotShape(left)
  {
    Opens(s.r.phase)
    && (r.ok
        || (r.error == Some(JournalFailed) && left.cells[0] == FIRST_RECORD)
        || (r.error == Some(FlashEraseFailed) && Uncovered(s.d.slots[Inactive(s.r)], left)))
  }

  lemma BeginReopens(c: Crypto, s: State, b: Option<(seq<byte>, seq<byte>)>)
    requires Shape(s) && Closed(s.d.slots[Inactive(s.r)])
    ensures var (t, r) := HandleBegin(c, s, b); var left := t.d.slots[Inactive(s.r)]; !Closed(left) <==> BeginOpens(s, r, left)
  {
    hide BeginVerified, Parse, Closed, Uncovered;
    if b.Some? && Parse(c, b.value.0).Some? {
      ParseBounds(c, b.value.0);
      VerifiedReopens(s.(a := s.a.(verified := s.a.verified + {b.value.0})), Parse(c, b.value.0).value, c.digest(b.value.0));
    }
  }

  lemma VerifiedReopens(s: State, m: Manifest, id: Digest)
    requires Shape(s) && Closed(s.d.slots[Inactive(s.r)]) && 0 < m.imageBytes <= IMAGE_MAX
    ensures var (t, r) := BeginVerified(s, m, id); var left := t.d.slots[Inactive(s.r)]; !Closed(left) <==> BeginOpens(s, r, left)
  {
    hide PrepareNewUpdate, BindResumed, Closed, Uncovered;
    if Opens(s.r.phase) { PrepareOpens(s, m, id); } else { BindFrame(s, m, id); }
  }

  // ----- an abort -----

  /** How an abort ends for the journal: refused behind a failed erase, or before it got there; accepted. */
  lemma AbortParts(s: State, id: Option<Digest>)
    requires Shape(s)
    ensures var (t, r) := HandleAbort(s, id); var i := Inactive(s.r);
      var (s1, appended) := Append(Selected(s), Abandoned, s.r.nextOffset); var (d2, erased) := EraseJournal(s1.d, i);
      && (!r.ok && r.error != Some(JournalFailed) ==> t.d.slots == s.d.slots)
      && (!r.ok && r.error == Some(JournalFailed) ==> s.r.journal.headerReady && !appended && !erased && t.d.slots == d2.slots)
      && (r.ok && s.r.journal.headerReady && !appended ==> erased && t.d.slots == d2.slots)
      && (r.ok && !s.r.journal.headerReady ==> t.d.slots == s.d.slots)
      && (r.ok && s.r.journal.headerReady && appended ==> t.d.slots == s1.d.slots)
  {
    hide Append, EraseJournal, SelectSlot;
    AppendFrame(Selected(s), Abandoned, s.r.nextOffset);
  }

  /** A record in flight and then a failed erase. */
  lemma AppendThins(s: State)
    requires Shape(s)
    ensures var i := Inactive(s.r); var s1 := Append(s, Abandoned, s.r.nextOffset).0; Thinned(s.d.slots[i], EraseJournal(s1.d, i).0.slots[i])
  {
    hide Append, EraseJournal;
    AppendFrame(s, Abandoned, s.r.nextOffset);
    AppendLeaves(s, Abandoned, s.r.nextOffset);
  }

  lemma AbortReopens(s: State, id: Option<Digest>)
    requires Shape(s) && Closed(s.d.slots[Inactive(s.r)])
    ensures var (t, r) := HandleAbort(s, id); var slot, left := s.d.slots[Inactive(s.r)], t.d.slots[Inactive(s.r)];
      !Closed(left) <==> !r.ok && r.error == Some(JournalFailed) && Uncovered(slot, left)
  {
    hide Append, EraseJournal, SelectSlot, HandleAbort, JournalOf, Counts, Uncovered, Thinned;
    var (t, r) := HandleAbort(s, id);
    AbortParts(s, id);
    if r.ok {
      AbortClosesExactly(s, id);
    } else if r.error == Some(JournalFailed) {
      AppendThins(Selected(s));
      OpenIsUncovered(s.d.slots[Inactive(s.r)], t.d.slots[Inactive(s.r)]);
    }
  }

  // ----- every event -----

  /** A begin, in a phase that opens journals, that succeeded, landed its first record or failed in its erase; or an abort
      that could neither append its record nor erase the sector.  Behind a failed erase a record must be uncovered. */
  ghost predicate Reopens(c: Crypto, s: State, e: Event, i: nat)
    requires Shape(s)
  {
    i == Inactive(s.r) && s.d.alive && s.r.misc.begun
    && match e
       case Begin(b) => var (t, r) := HandleBegin(c, s, b); BeginOpens(s, r, t.d.slots[i])
       case Abort(id) => var (t, r) := HandleAbort(s, id); !r.ok && r.error == Some(JournalFailed) && Uncovered(s.d.slots[i], t.d.slots[i])
       case _ => false
  }

  /** While receiving, the journal is open. */
  lemma ReceivingIsOpen(c: Crypto, s: State)
    requires Inv(c, s) && s.r.phase == Receiving
    ensures !Closed(s.d.slots[Inactive(s.r)])
  {
    hide StoreTrue, Signed, ScanCells, JournalOf;
    TransferJournal(s.r, s.d.slots[Inactive(s.r)], s.a.accepted[Inactive(s.r)]);
  }

  lemma IdleTransfer(c: Crypto, s: State)
    requires Shape(s) && s.r.phase != Receiving
    ensures forall q: Option<Chunk> :: HandleWrite(s, q).0.d.slots == s.d.slots
    ensures forall id: Option<Digest> :: HandleFinish(c, s, id).0.d.slots == s.d.slots
  {
    hide SelectSlot;
  }

  /** Exactly when an event opens a closed journal again. */
  lemma ReopensExactly(c: Crypto, s: State, e: Event, i: nat)
    requires Inv(c, s) && i < 2 && Closed(s.d.slots[i])
    ensures !Closed(Step(c, s, e).d.slots[i]) <==> Reopens(c, s, e, i)
  {
    hide Step, HandleBegin, HandleWrite, HandleFinish, HandleAbort, Inv, Closed, Uncovered;
    InvIsShape(c, s);
    if e.Reset? {
      BootCursor(c, s, e);
    } else if i != Inactive(s.r) {
      OtherSlot(c, s, e);
    } else if s.d.alive && s.r.misc.begun && (e.Begin? || e.Write? || e.Finish? || e.Abort?) {
      Handled(c, s, e);
      if s.r.phase == Receiving { ReceivingIsOpen(c, s); } else { IdleTransfer(c, s); }
      match e
      case Begin(b) => BeginReopens(c, s, b);
      case Abort(id) => AbortReopens(s, id);
      case _ =>
    } else {
      Quiet(c, s, e);
    }
  }

  /** No event of a run opens the journal of slot `i`. */
  ghost predicate NeverReopens(c: Crypto, s: State, events: seq<Event>, i: nat)
    requires Shape(s)
  {
    forall k :: 0 <= k < |events| ==> !Reopens(c, Run(c, s, events[..k]), events[k], i)
  }

  /** Until such an event a closed journal stays closed and its transfer is never received again, through resets, power cuts and
      requests in any order. */
  lemma {:induction false} StaysClosed(c: Crypto, s: State, events: seq<Event>, i: nat)
    requires Inv(c, s) && i < 2 && Shape(s) && Closed(s.d.slots[i]) && NeverReopens(c, s, events, i)
    ensures var t := Run(c, s, events); Inv(c, t) && Closed(t.d.slots[i]) && (t.r.phase == Receiving ==> Inactive(t.r) != i)
    decreases |events|
  {
    hide Step, Inv, Closed, Reopens;
    if events != [] {
      var n := |events| - 1;
      assert forall k :: 0 <= k < n ==> events[..n][..k] == events[..k];
      StaysClosed(c, s, events[..n], i);
      ReopensExactly(c, Run(c, s, events[..n]), events[n], i);
      StepKeeps(c, Run(c, s, events[..n]), events[n]);
    }
    if Run(c, s, events).r.phase == Receiving { ReceivingIsOpen(c, Run(c, s, events)); }
  }

  // ----- an abort that opens -----

  const FAILS: Outcome := Lost(true, [], [])

  /** A confirmed boot with two records in its own journal, beside a transfer of one checkpoint that was abandoned at `offset`. */
  predicate AbandonedBeside(s: State, offset: nat) {
    && Shape(s) && s.r.phase == Confirmed && s.r.misc.begun && s.d.alive
    && s.r.target.valid && s.r.journal == Cursor(true, 2, 2) && s.r.nextOffset != offset
    && var slot := s.d.slots[Inactive(s.r)];
       && HeaderUsable(slot.header) && 0x1_0000 <= slot.header.imageBytes && offset <= slot.header.imageBytes
       && slot.cells == [Record(1, InProgress, 0), Record(2, InProgress, 0x1_0000), Record(3, Abandoned, offset)]
                        + Repeat(Blank, CAPACITY - 3)
  }

  /** The begin that fails before it touches a journal. */
  lemma SelectFailsFirst(c: Crypto, s: State, text: seq<byte>, signature: seq<byte>, rest: seq<Outcome>)
    requires Shape(s) && s.r.phase == Confirmed && s.r.misc.begun && s.d.alive && s.d.plan == [FAILS] + rest
    requires Parse(c, text).Some? && c.authentic(text, signature)
    ensures var (t, r) := Request(c, s, Begin(Some((text, signature))));
      && !r.ok && t.d == s.d.(plan := rest) && t.r.phase == Failed && t.r.journal == s.r.journal && t.r.target == s.r.target
      && t.r.nextOffset == s.r.nextOffset && t.r.running == s.r.running && t.r.misc.begun
  {
    hide EraseJournal, WriteHeader, Parse, StartTransfer;
    assert s.d.plan[1..] == rest;
    ParseBounds(c, text);
  }

  /** The abort programs over the record that closed the journal, and its erase fails without effect. */
  lemma AbortSpoils(s: State, offset: nat)
    requires Shape(s) && s.r.phase == Failed && s.d.alive && s.d.plan == [Done, Done, Done, FAILS] && s.r.target.valid
    requires s.r.journal == Cursor(true, 2, 2) && s.r.nextOffset != offset
    requires s.d.slots[Inactive(s.r)].cells[2] == Record(3, Abandoned, offset)
    ensures var (t, r) := HandleAbort(s, Some(s.r.target.id)); var i := Inactive(s.r);
      !r.ok && t.d.slots[i] == s.d.slots[i].(cells := s.d.slots[i].cells[2 := Garbage]) && t.r.running == s.r.running
  {
    var d1 := SelectSlot(s.d, s.r.running).0;
    assert d1.plan == [Done, Done, FAILS];
    var i, cell := Inactive(s.r), Record(3, Abandoned, s.r.nextOffset);
    var d2 := WriteCell(d1, i, 2, cell).0;
    assert d1.plan[1..] == [Done, FAILS] && [Done, FAILS][1..] == [FAILS];
    assert d2.plan == [FAILS] && !WriteCell(d1, i, 2, cell).1 && d2.slots[i].cells[2] == Garbage;
    var cells := EraseJournal(d2, i).0.slots[i].cells;
    assert cells == d2.slots[i].cells;
  }

  lemma SpoiledIsOpen(s: Slot)
    requires SlotShape(s) && HeaderUsable(s.header) && 0x1_0000 <= s.header.imageBytes
    requires s.cells[0] == Record(1, InProgress, 0) && s.cells[1] == Record(2, InProgress, 0x1_0000)
    requires s.cells[2] == Garbage && forall k :: 3 <= k < CAPACITY ==> s.cells[k] == Blank
    ensures !Closed(s) && JournalOf(s).Some? && JournalOf(s).value.mark == InProgress
  {
    hide JournalOf;
    LeaderIsShown(s, 1);
  }

  lemma ThirdCloses(s: Slot, offset: nat)
    requires SlotShape(s) && HeaderUsable(s.header) && offset <= s.header.imageBytes
    requires s.cells == [Record(1, InProgress, 0), Record(2, InProgress, 0x1_0000), Record(3, Abandoned, offset)]
                        + Repeat(Blank, CAPACITY - 3)
    ensures Closed(s)
  {
    hide JournalOf;
    assert s.cells[2] == Record(3, Abandoned, offset);
    LeaderIsShown(s, 2);
  }

  /** The second way: a begin that cannot select the running slot, then an abort that is refused.  The abandoned transfer is
      received again after the next reset. */
  lemma RefusedAbortOpens(c: Crypto, s: State, text: seq<byte>, signature: seq<byte>, offset: nat, version: Version)
    requires Inv(c, s) && AbandonedBeside(s, offset) && s.d.plan == [FAILS, Done, Done, Done, FAILS]
    requires Parse(c, text).Some? && c.authentic(text, signature)
    ensures var i, abort := Inactive(s.r), Abort(Some(s.r.target.id));
      var s1 := Step(c, s, Begin(Some((text, signature))));
      var s2 := Step(c, s1, abort);
      var s3 := Step(c, s2, Reset(s.r.running, version, true, [], BootUnknown, BootUnknown));
      && Closed(s.d.slots[i]) && Closed(s1.d.slots[i]) && !Request(c, s1, abort).1.ok && !Closed(s2.d.slots[i])
      && s3.r.phase == Receiving && s3.r.target.id == s.d.slots[i].header.updateId
  {
    hide Step, Request, HandleAbort, Inv, Parse, JournalOf, Closed;
    var i, begin, abort := Inactive(s.r), Begin(Some((text, signature))), Abort(Some(s.r.target.id));
    var rest := [Done, Done, Done, FAILS];
    assert s.d.plan == [FAILS] + rest;
    ThirdCloses(s.d.slots[i], offset);
    SelectFailsFirst(c, s, text, signature, rest);
    StepIsRequest(c, s, begin);
    StepKeeps(c, s, begin);
    var s1 := Step(c, s, begin);
    AbortSpoils(s1, offset);
    StepIsRequest(c, s1, abort);
    Handled(c, s1, abort);
    AbortReceipt(c, s1, Some(s.r.target.id));
    StepKeeps(c, s1, abort);
    var s2 := Step(c, s1, abort);
    SpoiledIsOpen(s2.d.slots[i]);
    ResumesExactly(c, s2, Reset(s.r.running, version, true, [], BootUnknown, BootUnknown));
  }

  lemma AbortReceipt(c: Crypto, s: State, id: Option<Digest>)
    requires Shape(s) && s.r.misc.begun
    ensures Request(c, s, Abort(id)) == HandleAbort(s, id)
  {
    hide HandleAbort;
  }
}
