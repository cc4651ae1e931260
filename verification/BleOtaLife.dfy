/** Two runs from a new device: an update is installed, a second one is begun and abandoned, and then an abort counts by the
    journal of the first.  It leaves a second Abandoned record; or it is refused, and the abandoned update comes back. */
module BleOtaLife {
  import opened Bytes
  import opened BleOta
  import opened BleOtaProofs
  import opened BleOtaRuns
  import opened BleOtaAbort
  import opened BleOtaJournal
  import opened BleOtaReopen
  import opened BleOtaCensus
  import opened BleOtaTransfer

  // ----- the update that is installed -----

  /** An authentic manifest for an image of one chunk. */
  predicate Announces(c: Crypto, text: seq<byte>, signature: seq<byte>, image: seq<byte>) {
    Parse(c, text).Some? && c.authentic(text, signature) && 0 < |image| <= CHUNK
    && |image| == Parse(c, text).value.imageBytes && c.digest(image) == Parse(c, text).value.sha && c.bootable(image)
  }

  lemma OneChunk(c: Crypto, s: State, image: seq<byte>)
    requires Smooth(c, s) && s.r.nextOffset == 0 && 0 < |image| <= CHUNK && |image| == s.r.target.imageBytes
    ensures var t := Step(c, s, Write(Some(Chunk(s.r.target.id, 0, image))));
      && Smooth(c, t) && t.r.target == s.r.target && t.r.running == s.r.running && t.r.nextOffset == |image|
      && t.a.accepted[Inactive(s.r)] == s.a.accepted[Inactive(s.r)] + image && t.r.journal == Cursor(true, 1, 1)
  {
    hide Step, Inv;
    SmoothIs(c, s);
    SmoothWrite(c, s, image);
    SmoothCursor(c, Step(c, s, Write(Some(Chunk(s.r.target.id, 0, image)))));
  }

  lemma SmoothCursor(c: Crypto, s: State)
    requires Smooth(c, s) && s.r.nextOffset <= CHUNK
    ensures s.r.journal == Cursor(true, 1, 1)
  {
    hide ScanCells, Signed, StoreTrue;
    assert Checkpointed(s.r.nextOffset) == 0;
  }

  /** What a finished update leaves for the next reset. */
  lemma Finished(c: Crypto, s: State)
    requires Smooth(c, s) && s.r.nextOffset == s.r.target.imageBytes && s.r.journal == Cursor(true, 1, 1)
    requires c.digest(s.a.accepted[Inactive(s.r)]) == s.r.target.sha && c.bootable(s.a.accepted[Inactive(s.r)])
    ensures var t := Step(c, s, Finish(Some(s.r.target.id))); var i := Inactive(s.r); var n := s.r.target.imageBytes;
      && Inv(c, t) && t.d.slots[s.r.running] == s.d.slots[s.r.running] && t.d.slots[i].header == s.d.slots[i].header
      && JournalOf(t.d.slots[i]) == Some(Scan(true, 2, Complete, n, 2))
  {
    hide HandleFinish, Inv, JournalOf;
    var e := Finish(Some(s.r.target.id));
    SmoothIs(c, s);
    SmoothRoom(c, s);
    StepKeeps(c, s, e);
    Handled(c, s, e);
    OtherSlot(c, s, e);
    FinishDecidesByFlash(c, s);
    FinishRecords(c, s);
  }

  lemma FinishRecords(c: Crypto, s: State)
    requires Inv(c, s) && s.r.phase == Receiving && s.r.journal == Cursor(true, 1, 1)
    requires s.r.nextOffset == s.r.target.imageBytes && s.r.manifestLoaded && HandleFinish(c, s, Some(s.r.target.id)).1.ok
    ensures var left, i, n := HandleFinish(c, s, Some(s.r.target.id)).0.d.slots[Inactive(s.r)], Inactive(s.r), s.r.target.imageBytes;
      left.header == s.d.slots[i].header && JournalOf(left) == Some(Scan(true, 2, Complete, n, 2))
  {
    hide VerifyImage, Append, SelectSlot, ScanCells, Signed, StoreTrue;
    var i, n := Inactive(s.r), s.r.target.imageBytes;
    var s1 := VerifyImage(c, s).0;
    AppendFrame(s1, Complete, n);
    AppendWrites(s1, Complete, n);
    ScanAppended(s.d.slots[i].cells, n, Record(2, Complete, n));
  }

  /** Begin, the one chunk, finish. */
  lemma Installed(c: Crypto, s: State, text: seq<byte>, signature: seq<byte>, image: seq<byte>)
    requires Inv(c, s) && Waiting(s) && s.d.plan == [] && Announces(c, text, signature, image)
    ensures var id := c.digest(text);
      var s1 := Step(c, s, Begin(Some((text, signature))));
      var s2 := Step(c, s1, Write(Some(Chunk(id, 0, image))));
      var s3 := Step(c, s2, Finish(Some(id)));
      && Inv(c, s3) && s3.d.slots[0] == s.d.slots[0] && s3.d.slots[1].header.Header? && s3.d.slots[1].header.updateId == id
      && JournalOf(s3.d.slots[1]) == Some(Scan(true, 2, Complete, |image|, 2))
  {
    hide Step, Inv, Smooth, Parse, JournalOf;
    var id, begin := c.digest(text), Begin(Some((text, signature)));
    var write := Write(Some(Chunk(id, 0, image)));
    SmoothBegin(c, s, text, signature);
    OtherSlot(c, s, begin);
    var s1 := Step(c, s, begin);
    SmoothIs(c, s1);
    OneChunk(c, s1, image);
    OtherSlot(c, s1, write);
    var s2 := Step(c, s1, write);
    SmoothIs(c, s2);
    assert [] + image == image;
    SmoothHeader(c, s2);
    Finished(c, s2);
  }

  lemma SmoothHeader(c: Crypto, s: State)
    requires Smooth(c, s)
    ensures s.d.slots[Inactive(s.r)].header.Header? && s.d.slots[Inactive(s.r)].header.updateId == s.r.target.id
  {
    hide ScanCells, Signed, StoreTrue;
  }

  // ----- boots of the installed image -----

  function BootOf(version: Version, plan: seq<Outcome>): Event {
    Reset(1, version, true, plan, BootValid, BootUnknown)
  }

  /** The boot is claimed by slot 1, whose journal has two records. */
  predicate Running1(s: State, id: Digest, n: nat) {
    && Shape(s) && s.r.running == 1 && s.r.phase == Confirmed && s.r.misc.begun && s.d.alive
    && s.r.target.valid && s.r.target.id == id && s.r.target.imageBytes == n && s.r.nextOffset == n && s.r.journal == Cursor(true, 2, 2)
  }

  const BOTH: nat := (1 + CAPACITY) + (1 + CAPACITY)

  lemma ClaimedBoot(c: Crypto, s: State, version: Version, id: Digest, n: nat, plan: seq<Outcome>, rest: seq<Outcome>)
    requires Shape(s) && JournalOf(s.d.slots[1]) == Some(Scan(true, 2, Complete, n, 2)) && s.d.slots[1].header.updateId == id
    requires JournalOf(s.d.slots[0]).Some? ==> JournalOf(s.d.slots[0]).value.mark == Abandoned
    requires (plan == [] && rest == []) || (HeaderUsable(s.d.slots[0].header) && plan == Through(BOTH, rest))
    ensures var t := Step(c, s, BootOf(version, plan)); Running1(t, id, n) && t.d == s.d.(alive := true, plan := rest)
  {
    hide ReadJournal, JournalOf, Through;
    var d := s.d.(alive := true, plan := plan);
    if plan == [] && rest == [] {
      JournalReadable(d, 1);
      JournalReadable(d, 0);
    } else {
      ReadThrough(d, 1, 1 + CAPACITY, rest);
      ReadThrough(d.(plan := Through(1 + CAPACITY, rest)), 0, 0, rest);
      NothingLeft(rest);
    }
    JournalIs(s.d.slots[1]);
  }

  lemma ReadThrough(d: Device, i: nat, m: nat, rest: seq<Outcome>)
    requires DeviceShape(d) && i < 2 && d.alive && d.plan == Through((1 + CAPACITY) + m, rest) && HeaderUsable(d.slots[i].header)
    ensures ReadJournal(d, i) == (d.(plan := Through(m, rest)), Some(JournalOf(d.slots[i])))
  {
    hide Reads, JournalOf, Through;
    assert (1 + CAPACITY) + m == 1 + (CAPACITY + m);
    ReadsThrough(d, 1, CAPACITY + m, rest);
    ReadsThrough(d.(plan := Through(CAPACITY + m, rest)), CAPACITY, m, rest);
  }

  // ----- the update that is abandoned twice -----

  /** Begun and abandoned beside the installed image: two records in slot 0. */
  lemma AbandonedOnce(c: Crypto, s: State, id: Digest, n: nat, text: seq<byte>, signature: seq<byte>)
    requires Running1(s, id, n) && s.d.plan == [] && Parse(c, text).Some? && c.authentic(text, signature)
    ensures var s1 := Step(c, s, Begin(Some((text, signature)))); var (s2, receipt) := Request(c, s1, Abort(Some(c.digest(text))));
      && s2 == Step(c, s1, Abort(Some(c.digest(text)))) && receipt.ok && s2.d.slots[1] == s.d.slots[1]
      && HeaderUsable(s2.d.slots[0].header) && s2.d.slots[0].header.imageBytes == Parse(c, text).value.imageBytes
      && s2.d.slots[0].header.updateId == c.digest(text)
      && s2.d.slots[0].cells == Repeat(Blank, CAPACITY)[0 := Record(1, InProgress, 0)][1 := Record(2, Abandoned, 0)]
  {
    hide Parse, PrepareNewUpdate, HandleAbort;
    var m, id2 := Parse(c, text).value, c.digest(text);
    var s0 := s.(a := s.a.(verified := s.a.verified + {text}));
    ParseBounds(c, text);
    Opened(s0, m, id2);
    var s1 := PrepareNewUpdate(s0, m, id2).0;
    assert Step(c, s, Begin(Some((text, signature)))) == s1;
    AbandonsFresh(s1);
    Handled(c, s1, Abort(Some(id2)));
    AbortReceipt(c, s1, Some(id2));
  }

  /** A begin that cannot select the running slot, then an abort that counts by its journal. */
  lemma AbandonedAgain(c: Crypto, s: State, id: Digest, n: nat, text: seq<byte>, signature: seq<byte>)
    requires Running1(s, id, n) && s.d.plan == [FAILS] && Parse(c, text).Some? && c.authentic(text, signature)
    requires s.d.slots[0].cells[2] == Blank
    ensures var s1 := Step(c, s, Begin(Some((text, signature)))); var (s2, receipt) := Request(c, s1, Abort(Some(id)));
      && receipt.ok && s2 == Step(c, s1, Abort(Some(id)))
      && s2.d.slots[0] == s.d.slots[0].(cells := s.d.slots[0].cells[2 := Record(3, Abandoned, n)])
  {
    hide Step, Request, Parse, HandleAbort;
    var begin := Begin(Some((text, signature)));
    assert s.d.plan == [FAILS] + [];
    SelectFailsFirst(c, s, text, signature, []);
    StepIsRequest(c, s, begin);
    var s1 := Step(c, s, begin);
    Handled(c, s1, Abort(Some(id)));
    AbortReceipt(c, s1, Some(id));
    RecordsAbort(s1);
    AbortParts(s1, Some(id));
    AppendWrites(Selected(s1), Abandoned, s1.r.nextOffset);
  }

  predicate OnceAbandoned(s: Slot) {
    HeaderUsable(s.header) && s.cells == Repeat(Blank, CAPACITY)[0 := Record(1, InProgress, 0)][1 := Record(2, Abandoned, 0)]
  }

  lemma Started(c: Crypto, s: State, version: Version)
    requires Factory(s)
    ensures var t := Step(c, s, ResetOf(version, []));
      Shape(s) && Inv(c, t) && Waiting(t) && t.d.plan == [] && !HeaderUsable(t.d.slots[0].header)
  {
    hide Step, Inv, JournalOf;
    FactoryIsTrue(c, s);
    Unusable(s.d.slots[1]);
    IdleBoot(c, s, version, [], []);
    StepKeeps(c, s, ResetOf(version, []));
  }

  lemma NoJournal(s: Slot)
    requires SlotShape(s) && !HeaderUsable(s.header)
    ensures JournalOf(s) == None
  {
  }

  /** The first half of both lives. */
  lemma BegunBeside(c: Crypto, s: State, version: Version, first: seq<byte>, firstSignature: seq<byte>, image: seq<byte>,
                    second: seq<byte>, secondSignature: seq<byte>) returns (t: State)
    requires Factory(s) && Announces(c, first, firstSignature, image)
    requires Parse(c, second).Some? && c.authentic(second, secondSignature)
    ensures var id, id2 := c.digest(first), c.digest(second);
      var s1 := Step(c, Step(c, s, ResetOf(version, [])), Begin(Some((first, firstSignature))));
      var s3 := Step(c, Step(c, s1, Write(Some(Chunk(id, 0, image)))), Finish(Some(id)));
      var s5 := Step(c, Step(c, s3, BootOf(version, [])), Begin(Some((second, secondSignature))));
      && t == Step(c, s5, Abort(Some(id2))) && Shape(t) && Request(c, s5, Abort(Some(id2))).1.ok
      && JournalOf(t.d.slots[1]) == Some(Scan(true, 2, Complete, |image|, 2)) && t.d.slots[1].header.updateId == id
      && OnceAbandoned(t.d.slots[0]) && t.d.slots[0].header.imageBytes == Parse(c, second).value.imageBytes
      && t.d.slots[0].header.updateId == id2
  {
    hide Step, Request, Inv, Parse, JournalOf, Factory;
    var id, n := c.digest(first), |image|;
    Started(c, s, version);
    var s0 := Step(c, s, ResetOf(version, []));
    Installed(c, s0, first, firstSignature, image);
    var s3 := Step(c, Step(c, Step(c, s0, Begin(Some((first, firstSignature)))), Write(Some(Chunk(id, 0, image)))), Finish(Some(id)));
    InvIsShape(c, s3);
    NoJournal(s3.d.slots[0]);
    ClaimedBoot(c, s3, version, id, n, [], []);
    var s4 := Step(c, s3, BootOf(version, []));
    AbandonedOnce(c, s4, id, n, second, secondSignature);
    t := Step(c, Step(c, s4, Begin(Some((second, secondSignature)))), Abort(Some(c.digest(second))));
  }

  lemma OnceIsClosed(s: Slot)
    requires SlotShape(s) && OnceAbandoned(s)
    ensures JournalOf(s).Some? ==> JournalOf(s).value.mark == Abandoned
  {
    hide JournalOf;
    assert s.cells[0] == Record(1, InProgress, 0) && s.cells[1] == Record(2, Abandoned, 0);
    assert forall k :: 2 <= k < CAPACITY ==> s.cells[k] == Blank;
    LeadIsAbandoned(s);
  }

  lemma ThreeCounted(s: Slot, t: Slot, n: nat)
    requires SlotShape(s) && SlotShape(t) && OnceAbandoned(s) && t == s.(cells := s.cells[2 := Record(3, Abandoned, n)])
    requires n <= s.header.imageBytes
    ensures !Twice(s) && Twice(t) && Counted(t.cells, t.header.imageBytes, 3) == Census(1, 0, 2, 0, 0)
  {
    var cells := t.cells;
    assert cells[0] == Record(1, InProgress, 0) && cells[1] == Record(2, Abandoned, 0) && cells[2] == Record(3, Abandoned, n);
    assert AbandonedAt(t, 1) && AbandonedAt(t, 2);
    assert forall k: nat :: AbandonedAt(s, k) ==> k == 1;
    assert Counted(cells, t.header.imageBytes, 1) == Census(1, 0, 0, 0, 0);
  }

  /** From a new device: reset, an update of one chunk into slot 1, reset into it; a second update begun and abandoned in slot 0;
      reset into slot 1 again, a begin that cannot select the running slot, an abort.  Every abort is acknowledged, and slot
      0 holds two Abandoned records. */
  lemma AbandonedTwiceInOneLife(c: Crypto, s: State, version: Version, first: seq<byte>, firstSignature: seq<byte>, image: seq<byte>,
                                second: seq<byte>, secondSignature: seq<byte>)
    requires Factory(s) && Announces(c, first, firstSignature, image)
    requires Parse(c, second).Some? && c.authentic(second, secondSignature) && |image| <= Parse(c, second).value.imageBytes
    ensures var id, id2, begin2 := c.digest(first), c.digest(second), Begin(Some((second, secondSignature)));
      var s1 := Step(c, Step(c, s, ResetOf(version, [])), Begin(Some((first, firstSignature))));
      var s3 := Step(c, Step(c, s1, Write(Some(Chunk(id, 0, image)))), Finish(Some(id)));
      var s5 := Step(c, Step(c, s3, BootOf(version, [])), begin2);
      var s6 := Step(c, s5, Abort(Some(id2)));
      var s8 := Step(c, Step(c, s6, BootOf(version, Through(BOTH, [FAILS]))), begin2);
      var s9 := Step(c, s8, Abort(Some(id)));
      && Request(c, s5, Abort(Some(id2))).1.ok && Request(c, s8, Abort(Some(id))).1.ok
      && !Twice(s6.d.slots[0]) && Twice(s9.d.slots[0])
      && HeaderUsable(s9.d.slots[0].header)
      && Counted(s9.d.slots[0].cells, s9.d.slots[0].header.imageBytes, 3) == Census(1, 0, 2, 0, 0)
  {
    hide Step, Request, Inv, Parse, JournalOf, Factory, Counted, Twice, Through;
    var id, n, begin2 := c.digest(first), |image|, Begin(Some((second, secondSignature)));
    var s6 := BegunBeside(c, s, version, first, firstSignature, image, second, secondSignature);
    OnceIsClosed(s6.d.slots[0]);
    ClaimedBoot(c, s6, version, id, n, Through(BOTH, [FAILS]), [FAILS]);
    var s7 := Step(c, s6, BootOf(version, Through(BOTH, [FAILS])));
    AbandonedAgain(c, s7, id, n, second, secondSignature);
    var s9 := Step(c, Step(c, s7, begin2), Abort(Some(id)));
    ThreeCounted(s6.d.slots[0], s9.d.slots[0], n);
  }

  // ----- a refused abort that opens the journal -----

  /** The record of the abort is not written, and its erase spoils the Abandoned one. */
  lemma RefusedThere(s: State, n: nat)
    requires Shape(s) && s.r.running == 1 && s.r.phase == Failed && s.d.alive && s.d.plan == [Done, FAILS, TORN_ERASE]
    requires s.r.target.valid && s.r.journal == Cursor(true, 2, 2) && OnceAbandoned(s.d.slots[0])
    ensures var (t, r) := HandleAbort(s, Some(s.r.target.id));
      !r.ok && t.d.slots[0] == s.d.slots[0].(cells := s.d.slots[0].cells[1 := Garbage]) && t.d.slots[1] == s.d.slots[1]
  {
    var d1 := SelectSlot(s.d, 1).0;
    assert d1.plan == [FAILS, TORN_ERASE] && d1.plan[1..] == [TORN_ERASE] && [TORN_ERASE][1..] == [];
    var d2 := WriteCell(d1, 0, 2, Record(3, Abandoned, s.r.nextOffset)).0;
    assert d2.plan == [TORN_ERASE] && d2.slots[0].cells == s.d.slots[0].cells;
    var cells := EraseJournal(d2, 0).0.slots[0].cells;
    assert cells == s.d.slots[0].cells[1 := Garbage];
  }

  lemma AbortRefused(c: Crypto, s: State, id: Digest, n: nat, text: seq<byte>, signature: seq<byte>)
    requires Running1(s, id, n) && s.d.plan == [FAILS, Done, FAILS, TORN_ERASE] && Parse(c, text).Some? && c.authentic(text, signature)
    requires OnceAbandoned(s.d.slots[0])
    ensures var s1 := Step(c, s, Begin(Some((text, signature)))); var (s2, receipt) := Request(c, s1, Abort(Some(id)));
      && !receipt.ok && s2 == Step(c, s1, Abort(Some(id))) && s1.d.slots[0] == s.d.slots[0]
      && s2.d.slots[0] == s.d.slots[0].(cells := s.d.slots[0].cells[1 := Garbage])
  {
    hide Step, Request, Parse, HandleAbort, OnceAbandoned;
    var begin := Begin(Some((text, signature)));
    var rest := [Done, FAILS, TORN_ERASE];
    assert s.d.plan == [FAILS] + rest;
    SelectFailsFirst(c, s, text, signature, rest);
    StepIsRequest(c, s, begin);
    var s1 := Step(c, s, begin);
    Handled(c, s1, Abort(Some(id)));
    AbortReceipt(c, s1, Some(id));
    RefusedThere(s1, n);
  }

  lemma SpoiledOnce(s: Slot, t: Slot)
    requires SlotShape(s) && SlotShape(t) && OnceAbandoned(s) && t == s.(cells := s.cells[1 := Garbage])
    ensures Closed(s) && !Closed(t) && JournalOf(t).Some? && JournalOf(t).value.mark == InProgress
  {
    hide JournalOf;
    OnceIsClosed(s);
    assert t.cells[0] == Record(1, InProgress, 0) && t.cells[1] == Garbage;
    assert forall k :: 2 <= k < CAPACITY ==> t.cells[k] == Blank;
    CheckpointLeft(t);
  }

  const REFUSED: seq<Outcome> := [FAILS, Done, FAILS, TORN_ERASE]

  /** The same life, but the last abort is refused: its record is not written and its erase spoils the record that closed the
      journal.  The next reset that finds the boot unclaimed receives the abandoned update again. */
  lemma RefusedAbortInOneLife(c: Crypto, s: State, version: Version, first: seq<byte>, firstSignature: seq<byte>, image: seq<byte>,
                              second: seq<byte>, secondSignature: seq<byte>)
    requires Factory(s) && Announces(c, first, firstSignature, image)
    requires Parse(c, second).Some? && c.authentic(second, secondSignature)
    ensures var id, id2, begin2 := c.digest(first), c.digest(second), Begin(Some((second, secondSignature)));
      var s1 := Step(c, Step(c, s, ResetOf(version, [])), Begin(Some((first, firstSignature))));
      var s3 := Step(c, Step(c, s1, Write(Some(Chunk(id, 0, image)))), Finish(Some(id)));
      var s6 := Step(c, Step(c, Step(c, s3, BootOf(version, [])), begin2), Abort(Some(id2)));
      var s8 := Step(c, Step(c, s6, BootOf(version, Through(BOTH, REFUSED))), begin2);
      var s9 := Step(c, s8, Abort(Some(id)));
      var s10 := Step(c, s9, Reset(1, version, true, [], BootUnknown, BootUnknown));
      && Closed(s6.d.slots[0]) && Closed(s8.d.slots[0]) && !Request(c, s8, Abort(Some(id))).1.ok && !Closed(s9.d.slots[0])
      && s10.r.phase == Receiving && s10.r.target.id == id2
  {
    hide Step, Request, Inv, Parse, JournalOf, Factory, Closed, Through;
    var id, n, begin2 := c.digest(first), |image|, Begin(Some((second, secondSignature)));
    var s6 := BegunBeside(c, s, version, first, firstSignature, image, second, secondSignature);
    OnceIsClosed(s6.d.slots[0]);
    ClaimedBoot(c, s6, version, id, n, Through(BOTH, REFUSED), REFUSED);
    var s7 := Step(c, s6, BootOf(version, Through(BOTH, REFUSED)));
    AbortRefused(c, s7, id, n, second, secondSignature);
    var s9 := Step(c, Step(c, s7, begin2), Abort(Some(id)));
    SpoiledOnce(s6.d.slots[0], s9.d.slots[0]);
    ResumedUndisturbed(c, s9, Reset(1, version, true, [], BootUnknown, BootUnknown));
  }
}
