/** Transfers that meet no fault: what is accepted, and that a whole update ends ready to boot. */
module BleOtaTransfer {
  import opened Bytes
  import opened BleOta
  import opened BleOtaProofs
  import opened BleOtaRuns

  lemma {:induction false} CompareSucceeds(d: Device, i: nat, offset: nat, expected: seq<byte>, done: nat)
    requires DeviceShape(d) && i < 2 && done <= |expected| && offset + |expected| <= IMAGE_MAX && d.alive && d.plan == []
    requires d.slots[i].payload[offset..offset + |expected|] == expected
    ensures Compare(d, i, offset, expected, done) == (d, true)
    decreases |expected| - done
  {
    if done < |expected| {
      var n := if |expected| - done < 256 then |expected| - done else 256;
      var p := d.slots[i].payload;
      assert p[offset + done..offset + done + n] == p[offset..offset + |expected|][done..done + n];
      CompareSucceeds(d, i, offset, expected, done + n);
    }
  }

  /** The journal can take another record. */
  predicate Room(r: Ram) {
    r.journal.nextSlot < CAPACITY && r.journal.sequence != SEQUENCE_MAX
  }

  /** The cursor after a checkpoint that is due. */
  function CursorAfter(r: Ram, due: bool): Cursor {
    if due then Cursor(true, r.journal.sequence + 1, r.journal.nextSlot + 1) else r.journal
  }

  /** Without flash faults the expected chunk is accepted exactly when the journal has room for the checkpoint it completes, if it
      completes one. */
  lemma FreshChunkAccepted(c: Crypto, s: State, q: Chunk)
    requires Inv(c, s) && s.r.phase == Receiving && s.r.manifestLoaded && s.d.alive && s.d.plan == []
    requires q.id == s.r.target.id && q.offset == s.r.nextOffset
    requires 0 < |q.data| <= CHUNK && q.offset + |q.data| <= s.r.target.imageBytes
    ensures var (t, receipt) := HandleWrite(s, Some(q)); var m := q.offset + |q.data|; var due := Checkpointed(m) > s.r.persistedOffset;
      && (receipt.ok <==> (due ==> Room(s.r)))
      && (receipt.ok ==>
            && !receipt.replayed && t.r.phase == Receiving && t.d.alive && t.d.plan == []
            && t.r == s.r.(misc := s.r.misc.(error := None), journal := CursorAfter(s.r, due), nextOffset := m,
                           persistedOffset := Checkpointed(m), erasedThrough := t.r.erasedThrough, prefix := t.r.prefix)
            && t.a.accepted[Inactive(s.r)] == s.a.accepted[Inactive(s.r)] + q.data && t.d.log == s.d.log)
  {
    hide EraseAhead, ProgramChunk, AcceptChunk, ScanCells, Signed, StoreTrue;
    var m := s.r.nextOffset + |q.data|;
    EraseSucceeds(s, m);
    EraseAheadKeeps(c, s, m);
    EraseAheadFrame(s, m);
    var s1 := EraseAhead(s, m).0;
    ProgramSucceeds(c, s1, q.data);
    ProgramChunkKeeps(c, s1, q.data);
    AcceptExactly(c, s1, ProgramChunk(s1, q.data).0, q.data);
  }

  lemma AcceptExactly(c: Crypto, s: State, t: State, data: seq<byte>)
    requires Inv(c, s) && s.r.phase == Receiving && s.r.nextOffset + |data| <= s.r.target.imageBytes
    requires Shape(t) && t.r == s.r && t.a == s.a && t.d.alive && t.d.plan == []
    requires t.d.slots[Inactive(s.r)].cells == s.d.slots[Inactive(s.r)].cells && s.r.prefix.Some?
    ensures var m := s.r.nextOffset + |data|; var due := Checkpointed(m) > s.r.persistedOffset; var (u, ok) := AcceptChunk(t, data);
      && (ok <==> (due ==> Room(s.r))) && u.d.alive && u.d.plan == [] && u.d.log == t.d.log
      && (ok ==> u.r == s.r.(journal := CursorAfter(s.r, due), nextOffset := m, persistedOffset := Checkpointed(m),
                             prefix := u.r.prefix)
                 && u.a.accepted[Inactive(s.r)] == s.a.accepted[Inactive(s.r)] + data)
  {
    hide Append, ScanCells, Signed, StoreTrue, Checkpointed;
    var i, m := Inactive(s.r), s.r.nextOffset + |data|;
    var t1 := t.(r := t.r.(prefix := Some(t.r.prefix.value + data), nextOffset := m),
                 a := SetAccepted(t.a, i, t.a.accepted[i] + data));
    ScanIsNewest(s.d.slots[i].cells, s.r.target.imageBytes, CAPACITY);
    CheckpointSteps(s.r.nextOffset, m);
    AppendExactly(t1, InProgress, Checkpointed(m));
    AppendFrame(t1, InProgress, Checkpointed(m));
  }

  lemma EraseSucceeds(s: State, chunkEnd: nat)
    requires Shape(s) && s.d.alive && s.d.plan == [] && chunkEnd <= IMAGE_MAX && s.r.erasedThrough % SECTOR == 0
    ensures var (t, ok) := EraseAhead(s, chunkEnd); ok && t.d.alive && t.d.plan == []
  {
    hide Splice, SectorEnd;
    assert SectorEnd(chunkEnd) <= IMAGE_MAX by { SectorsFit(chunkEnd); }
  }

  /** The slot holds a whole number of sectors, so rounding up never passes its end. */
  lemma SectorsFit(n: nat)
    requires n <= IMAGE_MAX
    ensures SectorEnd(n) <= IMAGE_MAX
  {
    assert IMAGE_MAX == SECTOR * 767;
    assert (n + SECTOR - 1) / SECTOR <= 767;
  }

  lemma ProgramSucceeds(c: Crypto, s: State, data: seq<byte>)
    requires Inv(c, s) && s.r.phase == Receiving && s.d.alive && s.d.plan == []
    requires s.r.nextOffset + |data| <= s.r.target.imageBytes && s.r.nextOffset + |data| <= s.r.erasedThrough
    ensures var (t, failure) := ProgramChunk(s, data); failure == None && t.d.alive && t.d.plan == []
  {
    hide Compare, Splice, Program, ScanCells, Signed, StoreTrue;
    var i, n := Inactive(s.r), s.r.nextOffset;
    var p := s.d.slots[i].payload;
    var d1 := WritePayload(s.d, i, n, data).0;
    forall k | 0 <= k < |data| ensures Program(p[n + k], data[k]) == data[k] { ProgramErased(data[k]); }
    assert d1.slots[i].payload == Programmed(p, n, data);
    assert d1.slots[i].payload[n..n + |data|] == data;
    CompareSucceeds(d1, i, n, data, 0);
  }

  /** On a blank cell and without faults a record is acknowledged exactly when there is room. */
  lemma AppendExactly(s: State, mark: Mark, offset: nat)
    requires Shape(s) && s.d.alive && s.d.plan == [] && s.r.journal.headerReady && offset <= s.r.target.imageBytes
    requires s.r.journal.nextSlot < CAPACITY ==> s.d.slots[Inactive(s.r)].cells[s.r.journal.nextSlot] == Blank
    ensures var (t, ok) := Append(s, mark, offset);
      (ok <==> Room(s.r)) && t.d.alive && t.d.plan == [] && t.d.log == s.d.log
  {
  }

  /** The digest of the streamed bytes and the digest of the bytes read back are the same question: without faults, a complete
      image is accepted exactly when its bytes in flash match the manifest, the image format checks and the journal has room
      for the completion.  Then it is the image selected for boot. */
  lemma FinishDecidesByFlash(c: Crypto, s: State)
    requires Inv(c, s) && s.r.phase == Receiving && s.r.manifestLoaded && s.r.nextOffset == s.r.target.imageBytes
    requires s.d.alive && s.d.plan == []
    ensures var image := s.d.slots[Inactive(s.r)].payload[..s.r.target.imageBytes];
      var (t, receipt) := HandleFinish(c, s, Some(s.r.target.id));
      && (receipt.ok <==> c.digest(image) == s.r.target.sha && c.bootable(image) && Room(s.r))
      && (receipt.ok ==> t.r.phase == ReadyToReboot && t.d.boot == Inactive(s.r)
                         && t.d.log == s.d.log + [Selection(image, s.r.target.sha)])
      && (!receipt.ok ==> t.r.phase == Failed && t.d.log == s.d.log
                          && t.r.misc.error == Some(if c.digest(image) != s.r.target.sha then ImageHashMismatch
                                                    else if !c.bootable(image) then ImageInvalid else JournalFailed))
  {
    hide Append, Reads, ChunkReads, ScanCells, Signed, StoreTrue;
    var i := Inactive(s.r);
    ReadsSucceed(s.d, ChunkReads(s.r.target.imageBytes));
    ScanIsNewest(s.d.slots[i].cells, s.r.target.imageBytes, CAPACITY);
    var s1 := s.(r := s.r.(prefix := None));
    AppendExactly(s1, Complete, s.r.target.imageBytes);
    AppendFrame(s1, Complete, s.r.target.imageBytes);
  }

  // ----- a whole update -----

  lemma {:induction false} RunOnward(c: Crypto, s: State, first: seq<Event>, then_: seq<Event>)
    requires Shape(s)
    ensures Run(c, s, first + then_) == Run(c, Run(c, s, first), then_)
    decreases |then_|
  {
    hide Step;
    if then_ == [] {
      assert first + then_ == first;
    } else {
      var n := |then_| - 1;
      RunOnward(c, s, first, then_[..n]);
      assert (first + then_)[..|first + then_| - 1] == first + then_[..n];
    }
  }

  function Writes(id: Digest, offset: nat, pieces: seq<seq<byte>>): (events: seq<Event>)
    decreases |pieces|
  {
    if pieces == [] then [] else [Write(Some(Chunk(id, offset, pieces[0])))] + Writes(id, offset + |pieces[0]|, pieces[1..])
  }

  predicate Chunks(pieces: seq<seq<byte>>) {
    forall k :: 0 <= k < |pieces| ==> 0 < |pieces[k]| <= CHUNK
  }

  /** A transfer that met no fault: one record for each checkpoint and one for its start. */
  ghost predicate Smooth(c: Crypto, s: State) {
    && Inv(c, s) && s.r.phase == Receiving && s.r.manifestLoaded && s.r.misc.begun && s.d.alive && s.d.plan == []
    && s.r.journal.nextSlot == s.r.journal.sequence && CHECKPOINT * (s.r.journal.nextSlot - 1) == s.r.persistedOffset
  }

  lemma SmoothRoom(c: Crypto, s: State)
    requires Smooth(c, s)
    ensures Room(s.r) && s.r.nextOffset <= s.r.target.imageBytes <= IMAGE_MAX && s.r.persistedOffset == Checkpointed(s.r.nextOffset)
    ensures s.a.accepted[Inactive(s.r)] == s.d.slots[Inactive(s.r)].payload[..s.r.nextOffset]
  {
    hide ScanCells, Signed, StoreTrue;
  }

  lemma NextCheckpoint(n: nat, bytes: nat)
    requires bytes <= CHUNK
    ensures Checkpointed(n) <= Checkpointed(n + bytes) && Checkpointed(n + bytes) in {Checkpointed(n), Checkpointed(n) + CHECKPOINT}
  {
    var a, b := n / CHECKPOINT, (n + bytes) / CHECKPOINT;
    assert Checkpointed(n) == CHECKPOINT * a && Checkpointed(n + bytes) == CHECKPOINT * b;
    assert a <= b <= a + 1;
  }

  lemma SmoothWrite(c: Crypto, s: State, data: seq<byte>)
    requires Smooth(c, s) && 0 < |data| <= CHUNK && s.r.nextOffset + |data| <= s.r.target.imageBytes
    ensures var t := Step(c, s, Write(Some(Chunk(s.r.target.id, s.r.nextOffset, data))));
      && Smooth(c, t) && t.r.target == s.r.target && t.r.running == s.r.running && t.r.nextOffset == s.r.nextOffset + |data|
      && t.a.accepted[Inactive(s.r)] == s.a.accepted[Inactive(s.r)] + data && t.d.log == s.d.log
  {
    hide HandleWrite, Inv, Checkpointed;
    var q := Chunk(s.r.target.id, s.r.nextOffset, data);
    SmoothRoom(c, s);
    NextCheckpoint(s.r.nextOffset, |data|);
    FreshChunkAccepted(c, s, q);
    StepKeeps(c, s, Write(Some(q)));
  }

  /** Every chunk of a smooth transfer is accepted. */
  lemma {:induction false} PiecesArrive(c: Crypto, s: State, pieces: seq<seq<byte>>)
    requires Smooth(c, s) && Chunks(pieces) && s.r.nextOffset + |Flatten(pieces)| <= s.r.target.imageBytes
    ensures var t := Run(c, s, Writes(s.r.target.id, s.r.nextOffset, pieces));
      && Smooth(c, t) && t.r.target == s.r.target && t.r.running == s.r.running
      && t.r.nextOffset == s.r.nextOffset + |Flatten(pieces)|
      && t.a.accepted[Inactive(s.r)] == s.a.accepted[Inactive(s.r)] + Flatten(pieces) && t.d.log == s.d.log
    decreases |pieces|
  {
    hide Step, Smooth, Flatten;
    SmoothIs(c, s);
    if pieces == [] {
      NoPieces();
      assert s.a.accepted[Inactive(s.r)] + [] == s.a.accepted[Inactive(s.r)];
    } else {
      var first := Write(Some(Chunk(s.r.target.id, s.r.nextOffset, pieces[0])));
      FirstPiece(pieces);
      SmoothWrite(c, s, pieces[0]);
      var t := Step(c, s, first);
      SmoothIs(c, t);
      PiecesArrive(c, t, pieces[1..]);
      RunOnward(c, s, [first], Writes(s.r.target.id, t.r.nextOffset, pieces[1..]));
      OneStep(c, s, first);
      var a := s.a.accepted[Inactive(s.r)];
      assert a + pieces[0] + Flatten(pieces[1..]) == a + Flatten(pieces);
    }
  }

  lemma NoPieces()
    ensures Flatten<byte>([]) == []
  {
  }

  lemma FirstPiece(pieces: seq<seq<byte>>)
    requires pieces != []
    ensures Flatten(pieces) == pieces[0] + Flatten(pieces[1..])
  {
  }

  lemma SmoothIs(c: Crypto, s: State)
    requires Smooth(c, s)
    ensures Shape(s) && |s.a.accepted| == 2
  {
  }

  lemma OneStep(c: Crypto, s: State, e: Event)
    requires Shape(s)
    ensures Run(c, s, [e]) == Step(c, s, e)
  {
    hide Step;
    assert [e][..0] == [];
    assert Run(c, s, []) == s;
  }

  /** A verified manifest opens a smooth transfer. */
  lemma SmoothBegin(c: Crypto, s: State, text: seq<byte>, signature: seq<byte>)
    requires Inv(c, s) && s.r.phase in {Idle, Confirmed, RolledBack} && s.r.misc.begun && s.d.alive && s.d.plan == []
    requires Parse(c, text).Some? && c.authentic(text, signature)
    ensures var t := Step(c, s, Begin(Some((text, signature)))); var m := Parse(c, text).value;
      && Smooth(c, t) && t.r.nextOffset == 0 && t.r.running == s.r.running && t.d.log == s.d.log
      && t.r.target == Target(true, c.digest(text), m.sha, m.version, m.imageBytes) && t.a.accepted[Inactive(s.r)] == []
  {
    hide Inv, Parse, EraseJournal, WriteHeader, Append, SelectSlot;
    var e := Begin(Some((text, signature)));
    StepKeeps(c, s, e);
    var m := Parse(c, text).value;
    InvShape(c, s);
    ParsedFits(c, text);
    BeginOpens(c, s.(a := s.a.(verified := s.a.verified + {text})), m, c.digest(text));
  }

  lemma InvShape(c: Crypto, s: State)
    requires Inv(c, s)
    ensures Shape(s)
  {
  }

  lemma ParsedFits(c: Crypto, text: seq<byte>)
    requires Parse(c, text).Some?
    ensures 0 < Parse(c, text).value.imageBytes <= IMAGE_MAX
  {
  }

  lemma BeginOpens(c: Crypto, s: State, m: Manifest, id: Digest)
    requires Shape(s) && s.d.alive && s.d.plan == [] && m.imageBytes <= IMAGE_MAX
    ensures var (t, failure) := PrepareNewUpdate(s, m, id);
      && failure == None && t.r.phase == Receiving && t.r.manifestLoaded && t.d.alive && t.d.plan == []
      && t.r.journal == Cursor(true, 1, 1) && t.r.persistedOffset == 0 && t.r.nextOffset == 0
      && t.r.misc.begun == s.r.misc.begun && t.r.running == s.r.running && t.d.log == s.d.log
      && t.r.target == Target(true, id, m.sha, m.version, m.imageBytes) && t.a.accepted[Inactive(s.r)] == []
  {
    hide Append;
    var i := Inactive(s.r);
    var h := Header(m.imageBytes, id, m.sha, m.version);
    var s0 := s.(r := CancelReboot(s.r));
    OpenSucceeds(s0, h);
    var s1 := OpenJournal(s0, h).0;
    var s2 := s1.(r := s1.r.(journal := Cursor(true, 0, 0), target := Target(true, id, m.sha, m.version, m.imageBytes),
                             nextOffset := 0, persistedOffset := 0, erasedThrough := 0));
    AppendExactly(s2, InProgress, 0);
    AppendFrame(s2, InProgress, 0);
  }

  lemma OpenSucceeds(s: State, h: BleOta.Header)
    requires Shape(s) && s.d.alive && s.d.plan == []
    ensures var (t, failure) := OpenJournal(s, h);
      && failure == None && t.d.alive && t.d.plan == [] && t.d.log == s.d.log && t.r == s.r.(journal := NO_CURSOR)
      && t.d.slots[Inactive(s.r)].cells[0] == Blank && t.a.accepted[Inactive(s.r)] == []
  {
  }

  /** A whole update that meets no fault: verified manifest, the image in any chunks, finish.  It ends with this very image
      selected for boot. */
  lemma WholeUpdate(c: Crypto, s: State, text: seq<byte>, signature: seq<byte>, pieces: seq<seq<byte>>)
    requires Inv(c, s) && s.r.phase in {Idle, Confirmed, RolledBack} && s.r.misc.begun && s.d.alive && s.d.plan == []
    requires Parse(c, text).Some? && c.authentic(text, signature) && Chunks(pieces)
    requires var m, image := Parse(c, text).value, Flatten(pieces);
      |image| == m.imageBytes && c.digest(image) == m.sha && c.bootable(image)
    ensures var id := c.digest(text);
      var t := Run(c, s, [Begin(Some((text, signature)))] + Writes(id, 0, pieces) + [Finish(Some(id))]);
      && t.r.phase == ReadyToReboot && t.d.boot == Inactive(s.r)
      && t.d.log == s.d.log + [Selection(Flatten(pieces), Parse(c, text).value.sha)]
  {
    hide Step, Parse, Inv, Smooth, Writes;
    var id := c.digest(text);
    var begin, finish := Begin(Some((text, signature))), Finish(Some(id));
    InvShape(c, s);
    SmoothBegin(c, s, text, signature);
    var t1 := Step(c, s, begin);
    SmoothIs(c, t1);
    PiecesArrive(c, t1, pieces);
    var t2 := Run(c, t1, Writes(id, 0, pieces));
    assert [] + Flatten(pieces) == Flatten(pieces);
    SmoothFinish(c, t2);
    OneStep(c, s, begin);
    RunOnward(c, s, [begin], Writes(id, 0, pieces));
    RunOnward(c, s, [begin] + Writes(id, 0, pieces), [finish]);
    OneStep(c, t2, finish);
  }

  lemma SmoothFinish(c: Crypto, s: State)
    requires Smooth(c, s) && s.r.nextOffset == s.r.target.imageBytes
    requires c.digest(s.a.accepted[Inactive(s.r)]) == s.r.target.sha && c.bootable(s.a.accepted[Inactive(s.r)])
    ensures var t := Step(c, s, Finish(Some(s.r.target.id)));
      && t.r.phase == ReadyToReboot && t.d.boot == Inactive(s.r)
      && t.d.log == s.d.log + [Selection(s.a.accepted[Inactive(s.r)], s.r.target.sha)]
  {
    hide HandleFinish, Inv;
    SmoothRoom(c, s);
    FinishDecidesByFlash(c, s);
  }
}
