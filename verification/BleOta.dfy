/** The BLE firmware updater as a state machine: two application slots, an append-only journal in the last sector
    of each, and the RAM of the running updater.  Every call on the platform takes its outcome from a `plan`, so a
    plan lists where flash operations fail and where the power is cut. */
module BleOta {
  import opened Bytes

  const PARTITION_BYTES: nat := 0x30_0000
  const SECTOR: nat := 0x1000
  const IMAGE_MAX: nat := PARTITION_BYTES - SECTOR
  const CHUNK: nat := 4096
  const CHECKPOINT: nat := 0x1_0000
  const CAPACITY: nat := (SECTOR - 128) / 16
  const SEQUENCE_MAX: nat := 0xFFFF
  const HEALTHY_MS: nat := 30000
  const REBOOT_DELAY_MS: nat := 750
  const REBOOT_FALLBACK_MS: nat := 5000

  type Digest = seq<byte>
  type Version = seq<byte>

  datatype Phase = Idle | Receiving | ReadyToReboot | PendingVerify | Confirmed | RolledBack | Failed

  datatype BootState = BootUnknown | BootNew | BootPending | BootValid | BootInvalid | BootAborted

  datatype Error =
    | FlashReadFailed | FlashEraseFailed | FlashWriteFailed | JournalFailed | BootSelectFailed | ImageInvalid
    | ImageHashMismatch | RollbackFailed | BeginRequired | NotBegun | MalformedRequest | InvalidSignature
    | UpdateConflict | InvalidState | InvalidUpdateId | ChunkSizeInvalid | OffsetInvalid | ChunkMismatch
    | IncompleteImage | RebootNotReady | InternalError

  datatype Mark = InProgress | Complete | Abandoned

  /** The 128-byte journal header and a 16-byte record, as `readJournal` can tell them apart: a torn one fails its
      checksum. */
  datatype Header = NoHeader | TornHeader | Header(imageBytes: nat, updateId: Digest, sha: Digest, target: Version)
  datatype Cell = Blank | Garbage | Record(sequence: nat, mark: Mark, offset: nat)

  /** One application slot: image bytes below `IMAGE_MAX`, the journal sector above. */
  datatype Slot = Slot(payload: seq<byte>, header: Header, cells: seq<Cell>)

  predicate SlotShape(s: Slot) {
    |s.payload| == IMAGE_MAX && |s.cells| == CAPACITY
  }

  /** What a call that did not succeed left behind for one record: the old one, the new one, or neither. */
  datatype Fate = Kept | Applied | Ruined

  /** `Lost` is a call that reports failure (`survives`) or that the power cut interrupts (not `survives`).
      Interrupted payload bytes become `junk`; interrupted records meet their `fates`. */
  datatype Outcome = Done | Lost(survives: bool, junk: seq<byte>, fates: seq<Fate>)

  /** One call `setBootPartition(inactive_)`: the image it selects and the digest the updater holds for it. */
  datatype Selection = Selection(image: seq<byte>, sha: Digest)

  datatype Device = Device(slots: seq<Slot>, plan: seq<Outcome>, alive: bool, boot: nat, log: seq<Selection>)

  predicate DeviceShape(d: Device) {
    |d.slots| == 2 && SlotShape(d.slots[0]) && SlotShape(d.slots[1])
  }

  datatype Manifest = Manifest(imageBytes: nat, sha: Digest, version: Version)

  /** Signature check, manifest grammar, image format check and hash stay uninterpreted. */
  datatype Crypto = Crypto(digest: seq<byte> -> Digest, authentic: (seq<byte>, seq<byte>) -> bool,
                           grammar: seq<byte> -> Option<Manifest>, bootable: seq<byte> -> bool)

  /** `parseManifest`: the grammar, then the size limits. */
  function Parse(c: Crypto, text: seq<byte>): Option<Manifest> {
    match c.grammar(text)
    case Some(m) => if 0 < m.imageBytes <= IMAGE_MAX then Some(m) else None
    case None => None
  }

  /** The update the RAM is bound to. */
  datatype Target = Target(valid: bool, id: Digest, sha: Digest, version: Version, imageBytes: nat)

  /** Where the next journal record goes and which sequence number it gets. */
  datatype Cursor = Cursor(headerReady: bool, sequence: nat, nextSlot: nat)

  datatype Misc = Misc(begun: bool, resumed: bool, rebootScheduled: bool, confirmationArmed: bool, version: Version,
                       healthySince: nat, rebootAt: nat, rebootFallbackAt: nat, error: Option<Error>)

  /** `prefix` is what the streaming hash has absorbed, `None` when it is not ready. */
  datatype Ram = Ram(phase: Phase, running: nat, target: Target, manifestLoaded: bool, journal: Cursor,
                     nextOffset: nat, persistedOffset: nat, erasedThrough: nat, prefix: Option<seq<byte>>, misc: Misc)

  const NO_TARGET: Target := Target(false, [], [], [], 0)
  const NO_CURSOR: Cursor := Cursor(false, 0, 0)

  function FreshRam(running: nat, version: Version): Ram {
    Ram(Idle, running, NO_TARGET, false, NO_CURSOR, 0, 0, 0, None,
        Misc(false, false, false, false, version, 0, 0, 0, None))
  }

  function WithError(r: Ram, e: Option<Error>): Ram {
    r.(misc := r.misc.(error := e))
  }

  /** History the proofs speak of: manifests whose signature was verified, and per slot the bytes of the chunks
      accepted as fresh for the update its journal describes. */
  datatype Audit = Audit(verified: set<seq<byte>>, accepted: seq<seq<byte>>)

  datatype State = State(d: Device, r: Ram, a: Audit)

  function Inactive(r: Ram): (i: nat)
    ensures i < 2
  {
    if r.running == 0 then 1 else 0
  }

  predicate Shape(s: State) {
    && DeviceShape(s.d)
    && s.r.running < 2
    && s.r.nextOffset <= s.r.target.imageBytes <= IMAGE_MAX
    && |s.a.accepted| == 2
  }

  // ----- platform calls -----

  /** Only the plan and the power may differ. */
  predicate SameStore(d: Device, e: Device) {
    e.slots == d.slots && e.boot == d.boot && e.log == d.log && (!d.alive ==> !e.alive)
  }

  /** Everything but slot `i` is as before. */
  predicate SameBut(d: Device, e: Device, i: nat) {
    && |d.slots| == 2 && |e.slots| == 2 && i < 2
    && e.slots[1 - i] == d.slots[1 - i] && e.boot == d.boot && e.log == d.log && (!d.alive ==> !e.alive)
  }

  function Call(d: Device): (r: (Device, Outcome))
    ensures SameStore(d, r.0)
    ensures !d.alive ==> r == (d, Lost(false, [], []))
    ensures r.0.alive ==> r.1.Done? || r.1.survives
  {
    if !d.alive then (d, Lost(false, [], []))
    else if d.plan == [] then (d, Done)
    else (d.(plan := d.plan[1..], alive := d.plan[0].Done? || d.plan[0].survives), d.plan[0])
  }

  function FateAt(fates: seq<Fate>, i: nat): Fate {
    if i < |fates| then fates[i] else Kept
  }

  /** `n` successive reads; the first failure ends them. */
  function Reads(d: Device, n: nat): (r: (Device, bool))
    ensures SameStore(d, r.0)
  {
    if n == 0 then (d, true)
    else
      var (d1, ok) := Reads(d, n - 1);
      if !ok then (d1, false) else var (d2, o) := Call(d1); (d2, o.Done?)
  }

  /** NOR flash programs by clearing bits. */
  function AndBits(a: nat, b: nat, bits: nat): (r: nat) {
    if bits == 0 then 0 else (a % 2) * (b % 2) + 2 * AndBits(a / 2, b / 2, bits - 1)
  }

  lemma {:induction false} AndBitsBelow(a: nat, b: nat, bits: nat)
    ensures AndBits(a, b, bits) < Pow2(bits)
  {
    if bits > 0 {
      AndBitsBelow(a / 2, b / 2, bits - 1);
      var x, y := a % 2, b % 2;
      assert x * y <= 1 by { assert x == 0 || x == 1; assert y == 0 || y == 1; }
    }
  }

  function Pow2(n: nat): nat {
    if n == 0 then 1 else 2 * Pow2(n - 1)
  }

  function Program(old_: byte, new_: byte): byte {
    AndBitsBelow(old_, new_, 8);
    assert Pow2(8) == 256;
    AndBits(old_, new_, 8)
  }

  function Splice(p: seq<byte>, from: nat, mid: seq<byte>): (q: seq<byte>)
    requires from + |mid| <= |p|
    ensures |q| == |p| && q[..from] == p[..from] && q[from..from + |mid|] == mid && q[from + |mid|..] == p[from + |mid|..]
  {
    p[..from] + mid + p[from + |mid|..]
  }

  /** The first `|junk|` bytes of the range hold anything, the others what they held. */
  function Overlay(p: seq<byte>, from: nat, n: nat, junk: seq<byte>): (q: seq<byte>)
    requires from + n <= |p|
    ensures |q| == |p| && q[..from] == p[..from] && q[from + n..] == p[from + n..]
  {
    Splice(p, from, seq(n, k requires 0 <= k < n => if k < |junk| then junk[k] else p[from + k]))
  }

  function Programmed(p: seq<byte>, from: nat, data: seq<byte>): (q: seq<byte>)
    requires from + |data| <= |p|
    ensures |q| == |p| && q[..from] == p[..from] && q[from + |data|..] == p[from + |data|..]
  {
    Splice(p, from, seq(|data|, k requires 0 <= k < |data| => Program(p[from + k], data[k])))
  }

  function WithPayload(d: Device, i: nat, p: seq<byte>): Device
    requires i < |d.slots|
  {
    d.(slots := d.slots[i := d.slots[i].(payload := p)])
  }

  /** Payload changes stay inside `[from, from + n)`; the journal sector is not touched. */
  predicate ChangedWithin(s: Slot, t: Slot, from: nat, n: nat)
    requires SlotShape(s) && SlotShape(t) && from + n <= IMAGE_MAX
  {
    && t == s.(payload := t.payload)
    && t.payload[..from] == s.payload[..from]
    && t.payload[from + n..] == s.payload[from + n..]
  }

  function ErasePayload(d: Device, i: nat, from: nat, n: nat): (r: (Device, bool))
    requires DeviceShape(d) && i < 2 && from + n <= IMAGE_MAX
    ensures DeviceShape(r.0) && SameBut(d, r.0, i) && ChangedWithin(d.slots[i], r.0.slots[i], from, n)
    ensures r.1 ==> r.0.slots[i].payload[from..from + n] == Repeat<byte>(255, n)
  {
    hide Call;
    var p := d.slots[i].payload;
    var (d1, o) := Call(d);
    match o
    case Done => (WithPayload(d1, i, Splice(p, from, Repeat<byte>(255, n))), true)
    case Lost(_, junk, _) => (WithPayload(d1, i, Overlay(p, from, n, junk)), false)
  }

  function WritePayload(d: Device, i: nat, from: nat, data: seq<byte>): (r: (Device, bool))
    requires DeviceShape(d) && i < 2 && from + |data| <= IMAGE_MAX
    ensures DeviceShape(r.0) && SameBut(d, r.0, i) && ChangedWithin(d.slots[i], r.0.slots[i], from, |data|)
  {
    hide Call, Program;
    var p := d.slots[i].payload;
    var (d1, o) := Call(d);
    match o
    case Done => (WithPayload(d1, i, Programmed(p, from, data)), true)
    case Lost(_, junk, _) => (WithPayload(d1, i, Overlay(p, from, |data|, junk)), false)
  }

  /** `comparePartition`: 256 bytes per read, stopping at the first difference. */
  function Compare(d: Device, i: nat, offset: nat, expected: seq<byte>, done: nat): (r: (Device, bool))
    requires DeviceShape(d) && i < 2 && done <= |expected| && offset + |expected| <= IMAGE_MAX
    ensures SameStore(d, r.0)
    decreases |expected| - done
  {
    if done == |expected| then (d, true)
    else
      var n := if |expected| - done < 256 then |expected| - done else 256;
      var (d1, o) := Call(d);
      if !o.Done? || d.slots[i].payload[offset + done..offset + done + n] != expected[done..done + n] then (d1, false)
      else Compare(d1, i, offset, expected, done + n)
  }

  function EraseCell(c: Cell, fate: Fate): Cell {
    match fate case Kept => c case Applied => Blank case Ruined => Garbage
  }

  /** Programming a cell that is not erased leaves neither record intact. */
  function ProgramCell(old_: Cell, new_: Cell): Cell {
    if old_ == Blank || old_ == new_ then new_ else Garbage
  }

  function EraseJournal(d: Device, i: nat): (r: (Device, bool))
    requires DeviceShape(d) && i < 2
    ensures DeviceShape(r.0) && SameBut(d, r.0, i) && r.0.slots[i].payload == d.slots[i].payload
    ensures r.0.slots[i].header in {d.slots[i].header, NoHeader, TornHeader}
    ensures forall k :: 0 <= k < CAPACITY ==> r.0.slots[i].cells[k] in {d.slots[i].cells[k], Blank, Garbage}
    ensures r.1 ==> r.0.slots[i].header == NoHeader && forall k :: 0 <= k < CAPACITY ==> r.0.slots[i].cells[k] == Blank
  {
    hide Call;
    var s := d.slots[i];
    var (d1, o) := Call(d);
    match o
    case Done => (d1.(slots := d1.slots[i := s.(header := NoHeader, cells := Repeat(Blank, CAPACITY))]), true)
    case Lost(_, _, fates) =>
      var h := match FateAt(fates, 0) case Kept => s.header case Applied => NoHeader case Ruined => TornHeader;
      var cells := seq(CAPACITY, k requires 0 <= k < CAPACITY => EraseCell(s.cells[k], FateAt(fates, k + 1)));
      (d1.(slots := d1.slots[i := s.(header := h, cells := cells)]), false)
  }

  /** `writeJournalHeader`: program, read back, compare. */
  function WriteHeader(d: Device, i: nat, h: Header): (r: (Device, bool))
    requires DeviceShape(d) && i < 2
    ensures DeviceShape(r.0) && SameBut(d, r.0, i)
    ensures r.0.slots[i] == d.slots[i].(header := r.0.slots[i].header)
    ensures r.0.slots[i].header in {d.slots[i].header, TornHeader, h}
    ensures r.1 ==> r.0.slots[i].header == h
  {
    hide Call;
    var s := d.slots[i];
    var written := if s.header == NoHeader || s.header == h then h else TornHeader;
    var (d1, o) := Call(d);
    match o
    case Done =>
      var d2 := d1.(slots := d1.slots[i := s.(header := written)]);
      var (d3, r) := Call(d2);
      (d3, r.Done? && written == h)
    case Lost(_, _, fates) =>
      var left := match FateAt(fates, 0) case Kept => s.header case Applied => written case Ruined => TornHeader;
      (d1.(slots := d1.slots[i := s.(header := left)]), false)
  }

  /** The flash side of `appendCheckpoint`: program one cell, read back, compare. */
  function WriteCell(d: Device, i: nat, k: nat, c: Cell): (r: (Device, bool))
    requires DeviceShape(d) && i < 2 && k < CAPACITY
    ensures DeviceShape(r.0) && SameBut(d, r.0, i)
    ensures r.0.slots[i] == d.slots[i].(cells := d.slots[i].cells[k := r.0.slots[i].cells[k]])
    ensures r.0.slots[i].cells[k] in {d.slots[i].cells[k], Garbage, c}
    ensures r.1 ==> r.0.slots[i].cells[k] == c
  {
    hide Call;
    var s := d.slots[i];
    var written := ProgramCell(s.cells[k], c);
    var (d1, o) := Call(d);
    match o
    case Done =>
      var d2 := d1.(slots := d1.slots[i := s.(cells := s.cells[k := written])]);
      var (d3, r) := Call(d2);
      (d3, r.Done? && written == c)
    case Lost(_, _, fates) =>
      var left := match FateAt(fates, 0) case Kept => s.cells[k] case Applied => written case Ruined => Garbage;
      (d1.(slots := d1.slots[i := s.(cells := s.cells[k := left])]), false)
  }

  function SelectSlot(d: Device, i: nat): (r: (Device, bool))
    ensures r.0.slots == d.slots && r.0.log == d.log && (!d.alive ==> r.0 == d && !r.1)
  {
    var (d1, o) := Call(d);
    match o
    case Done => (d1.(boot := i), true)
    case Lost(_, _, fates) => (if FateAt(fates, 0) == Applied then d1.(boot := i) else d1, false)
  }

  // ----- reading a journal -----

  /** A record `readJournal` accepts under a header announcing `imageBytes`. */
  predicate Counts(c: Cell, imageBytes: nat) {
    && c.Record?
    && 0 < c.sequence
    && c.offset <= imageBytes
    && (c.mark.Complete? ==> c.offset == imageBytes)
    && (c.mark.InProgress? ==> c.offset % CHECKPOINT == 0)
  }

  datatype Scan = Scan(found: bool, sequence: nat, mark: Mark, offset: nat, lastOccupied: nat)

  /** What the scan knows after the first `n` cells. */
  function ScanCells(cells: seq<Cell>, imageBytes: nat, n: nat): (s: Scan)
    requires n <= |cells|
    ensures s.found ==> Counts(Record(s.sequence, s.mark, s.offset), imageBytes)
    ensures s.lastOccupied <= n
  {
    if n == 0 then Scan(false, 0, InProgress, 0, 0)
    else
      var p := ScanCells(cells, imageBytes, n - 1);
      var c := cells[n - 1];
      if c.Blank? then p
      else if !Counts(c, imageBytes) || (p.found && c.sequence <= p.sequence) then p.(lastOccupied := n)
      else Scan(true, c.sequence, c.mark, c.offset, n)
  }

  predicate HeaderUsable(h: Header) {
    h.Header? && 0 < h.imageBytes <= IMAGE_MAX
  }

  /** What an undisturbed `readJournal` reports about a slot; `None` when it reports "not present". */
  function JournalOf(s: Slot): (j: Option<Scan>)
    requires SlotShape(s)
    ensures j.Some? ==> HeaderUsable(s.header)
                        && Counts(Record(j.value.sequence, j.value.mark, j.value.offset), s.header.imageBytes)
  {
    if !HeaderUsable(s.header) then None
    else
      var scan := ScanCells(s.cells, s.header.imageBytes, CAPACITY);
      if scan.found then Some(scan) else None
  }

  /** `readJournal`: one read for the header and, behind a usable one, one per cell. */
  function ReadJournal(d: Device, i: nat): (r: (Device, Option<Option<Scan>>))
    requires DeviceShape(d) && i < 2
    ensures SameStore(d, r.0)
    ensures r.1.Some? ==> r.1.value == JournalOf(d.slots[i])
  {
    var (d1, ok) := Reads(d, 1);
    if !ok then (d1, None)
    else if !HeaderUsable(d.slots[i].header) then (d1, Some(None))
    else
      var (d2, all) := Reads(d1, CAPACITY);
      if !all then (d2, None) else (d2, Some(JournalOf(d.slots[i])))
  }

  // ----- updater operations -----

  datatype Receipt = Receipt(ok: bool, replayed: bool, scheduled: bool, error: Option<Error>)

  function MakeReceipt(s: State, ok: bool, replayed: bool, scheduled: bool): Receipt {
    var e := s.r.misc.error;
    Receipt(ok, replayed, scheduled,
            if ok then (if s.r.phase == Failed then e else None) else if e == None then Some(InternalError) else e)
  }

  function Accept(s: State, replayed: bool, scheduled: bool): (o: (State, Receipt))
    ensures o.0 == s && o.1.ok
  {
    (s, MakeReceipt(s, true, replayed, scheduled))
  }

  function Reject(s: State, e: Error): (o: (State, Receipt))
    ensures o.0 == s.(r := WithError(s.r, Some(e))) && !o.1.ok && o.1.error == Some(e)
  {
    var s1 := s.(r := WithError(s.r, Some(e)));
    (s1, MakeReceipt(s1, false, false, false))
  }

  function RejectTerminal(s: State, e: Error): (o: (State, Receipt))
    ensures o.0 == s.(r := WithError(s.r, Some(e)).(phase := Failed)) && !o.1.ok && o.1.error == Some(e)
  {
    Reject(s.(r := s.r.(phase := Failed)), e)
  }

  function ClearForIdle(r: Ram): Ram {
    Ram(Idle, r.running, NO_TARGET, false, NO_CURSOR, 0, 0, 0, None,
        Misc(r.misc.begun, false, false, false, r.misc.version, 0, 0, 0, None))
  }

  /** `rollback`: a successful call restarts the device, which ends this boot. */
  function Rollback(s: State, e: Error): (t: State)
    ensures t.d.slots == s.d.slots && t.d.log == s.d.log && t.a == s.a && t.r.phase == Failed
    ensures t.r.running == s.r.running && t.r.nextOffset == s.r.nextOffset && t.r.target == s.r.target
    ensures t.r.manifestLoaded == s.r.manifestLoaded
  {
    hide Call;
    var (d1, o) := Call(s.d);
    s.(d := if o.Done? then d1.(alive := false) else d1,
       r := s.r.(phase := Failed, misc := s.r.misc.(confirmationArmed := false,
                                                    error := Some(if o.Done? then e else RollbackFailed))))
  }

  function ChunkReads(n: nat): nat {
    (n + CHUNK - 1) / CHUNK
  }

  /** `hashPartition`. */
  function HashSlot(c: Crypto, d: Device, i: nat, n: nat): (r: (Device, Option<Digest>))
    requires DeviceShape(d) && i < 2 && n <= IMAGE_MAX
    ensures SameStore(d, r.0)
    ensures r.1.Some? ==> r.1.value == c.digest(d.slots[i].payload[..n])
  {
    hide Reads, ChunkReads;
    var (d1, ok) := Reads(d, ChunkReads(n));
    (d1, if ok then Some(c.digest(d.slots[i].payload[..n])) else None)
  }

  /** `rebuildPrefixHash`. */
  function RebuildPrefix(s: State): (o: (State, bool))
    requires Shape(s)
    ensures Shape(o.0)
  {
    hide Reads, ChunkReads;
    var (d1, ok) := Reads(s.d, ChunkReads(s.r.nextOffset));
    (s.(d := d1, r := s.r.(prefix := if ok then Some(s.d.slots[Inactive(s.r)].payload[..s.r.nextOffset]) else None)), ok)
  }

  /** `appendCheckpoint`. */
  function Append(s: State, mark: Mark, offset: nat): (o: (State, bool))
    requires Shape(s)
    ensures Shape(o.0)
  {
    hide WriteCell;
    var j := s.r.journal;
    if !j.headerReady || j.nextSlot >= CAPACITY || j.sequence == SEQUENCE_MAX || offset > s.r.target.imageBytes
    then (s, false)
    else
      var (d1, ok) := WriteCell(s.d, Inactive(s.r), j.nextSlot, Record(j.sequence + 1, mark, offset));
      if !ok then (s.(d := d1), false)
      else (s.(d := d1, r := s.r.(journal := Cursor(true, j.sequence + 1, j.nextSlot + 1), persistedOffset := offset)),
            true)
  }

  function SetAccepted(a: Audit, i: nat, bytes: seq<byte>): Audit
    requires i < |a.accepted|
  {
    a.(accepted := a.accepted[i := bytes])
  }

  function Truncate(bytes: seq<byte>, n: nat): seq<byte> {
    if n <= |bytes| then bytes[..n] else bytes
  }

  function CancelReboot(r: Ram): Ram {
    r.(misc := r.misc.(rebootScheduled := false, rebootAt := 0, rebootFallbackAt := 0))
  }

  /** Selects the running slot and leaves the inactive journal with the new header only. */
  function OpenJournal(s: State, h: Header): (o: (State, Option<Error>))
    requires Shape(s)
    ensures Shape(o.0)
  {
    hide EraseJournal, WriteHeader;
    var i := Inactive(s.r);
    var (d1, selected) := SelectSlot(s.d, s.r.running);
    if !selected then (s.(d := d1), Some(BootSelectFailed))
    else
      var (d2, erased) := EraseJournal(d1, i);
      if !erased then (s.(d := d2), Some(FlashEraseFailed))
      else
        var (d3, headed) := WriteHeader(d2, i, h);
        (State(d3, s.r.(journal := NO_CURSOR), SetAccepted(s.a, i, [])), if headed then None else Some(JournalFailed))
  }

  /** Binds the RAM to the update whose journal was just opened and records offset 0. */
  function StartTransfer(s: State, m: Manifest, id: Digest): (o: (State, Option<Error>))
    requires Shape(s) && m.imageBytes <= IMAGE_MAX
    ensures Shape(o.0)
  {
    hide Append;
    var s2 := s.(r := s.r.(journal := Cursor(true, 0, 0), target := Target(true, id, m.sha, m.version, m.imageBytes),
                           nextOffset := 0, persistedOffset := 0, erasedThrough := 0));
    var (s3, appended) := Append(s2, InProgress, 0);
    if !appended then (s3, Some(JournalFailed))
    else (s3.(r := s3.r.(prefix := Some([]), manifestLoaded := true, phase := Receiving,
                         misc := s3.r.misc.(resumed := false, error := None))), None)
  }

  /** `prepareNewUpdate`; `None` means accepted. */
  function PrepareNewUpdate(s: State, m: Manifest, id: Digest): (o: (State, Option<Error>))
    requires Shape(s) && m.imageBytes <= IMAGE_MAX
    ensures Shape(o.0)
  {
    hide OpenJournal, StartTransfer;
    var (s1, failure) := OpenJournal(s.(r := CancelReboot(s.r)), Header(m.imageBytes, id, m.sha, m.version));
    if failure != None then (s1, failure) else StartTransfer(s1, m, id)
  }

  /** `bindResumedManifest`. */
  function BindResumed(s: State, m: Manifest, id: Digest): (o: (State, bool))
    requires Shape(s)
    ensures Shape(o.0)
  {
    hide RebuildPrefix;
    if s.r.target != Target(true, id, m.sha, m.version, m.imageBytes) then (s, false)
    else
      var s1 := s.(r := s.r.(manifestLoaded := true, misc := s.r.misc.(resumed := true, error := None)));
      if s1.r.phase == Receiving && s1.r.prefix == None then RebuildPrefix(s1) else (s1, true)
  }

  /** `handleBegin`; `None` is a request that does not parse or decode. */
  function HandleBegin(c: Crypto, s: State, request: Option<(seq<byte>, seq<byte>)>): (o: (State, Receipt))
    requires Shape(s)
    ensures Shape(o.0)
  {
    if request == None || Parse(c, request.value.0) == None then Reject(s, MalformedRequest)
    else if !c.authentic(request.value.0, request.value.1) then Reject(s, InvalidSignature)
    else
      var text := request.value.0;
      BeginVerified(s.(a := s.a.(verified := s.a.verified + {text})), Parse(c, text).value, c.digest(text))
  }

  /** `handleBegin` once the manifest is authentic. */
  function BeginVerified(s: State, m: Manifest, id: Digest): (o: (State, Receipt))
    requires Shape(s) && m.imageBytes <= IMAGE_MAX
    ensures Shape(o.0)
  {
    hide PrepareNewUpdate, BindResumed, Accept, Reject, RejectTerminal;
    match s.r.phase
    case Idle | Confirmed | RolledBack =>
      var (s1, failure) := PrepareNewUpdate(s, m, id);
      if failure == None then Accept(s1, false, false) else RejectTerminal(s1, failure.value)
    case Receiving | ReadyToReboot =>
      if !s.r.target.valid || s.r.target.id != id then Reject(s, UpdateConflict)
      else
        var (s1, bound) := BindResumed(s, m, id);
        if bound then Accept(s1, false, false) else Reject(s1, UpdateConflict)
    case PendingVerify => Reject(s, InvalidState)
    case Failed =>
      if s.r.target.valid && s.r.target.id != id then Reject(s, UpdateConflict) else Reject(s, InvalidState)
  }

  /** Rounds up to a whole number of sectors. */
  function SectorEnd(n: nat): (e: nat)
    ensures n <= e < n + SECTOR && e % SECTOR == 0
  {
    (n + SECTOR - 1) / SECTOR * SECTOR
  }

  datatype Chunk = Chunk(id: Digest, offset: nat, data: seq<byte>)

  /** Erases the sectors the next chunk runs into. */
  function EraseAhead(s: State, chunkEnd: nat): (o: (State, bool))
    requires Shape(s)
    ensures Shape(o.0) && o.0.a == s.a && o.0.r == s.r.(erasedThrough := o.0.r.erasedThrough)
  {
    hide SectorEnd, ErasePayload;
    var from, end := s.r.erasedThrough, SectorEnd(chunkEnd);
    if chunkEnd <= from then (s, true)
    else if end > IMAGE_MAX || from % SECTOR != 0 then (s, false)
    else
      var (d1, erased) := ErasePayload(s.d, Inactive(s.r), from, end - from);
      if erased then (s.(d := d1, r := s.r.(erasedThrough := end)), true) else (s.(d := d1), false)
  }

  /** Writes a chunk at `nextOffset` and reads it back. */
  function ProgramChunk(s: State, data: seq<byte>): (o: (State, Option<Error>))
    requires Shape(s) && s.r.nextOffset + |data| <= s.r.target.imageBytes
    ensures Shape(o.0) && o.0.r == s.r && o.0.a == s.a
  {
    hide WritePayload, Compare;
    var (d1, written) := WritePayload(s.d, Inactive(s.r), s.r.nextOffset, data);
    if !written then (s.(d := d1), Some(FlashWriteFailed))
    else
      var (d2, same) := Compare(d1, Inactive(s.r), s.r.nextOffset, data, 0);
      (s.(d := d2), if same then None else Some(FlashReadFailed))
  }

  function Checkpointed(n: nat): (k: nat)
    ensures k <= n
  {
    n - n % CHECKPOINT
  }

  /** Accounts for a chunk that is in flash and checkpoints each completed 64 KiB. */
  function AcceptChunk(s: State, data: seq<byte>): (o: (State, bool))
    requires Shape(s) && s.r.nextOffset + |data| <= s.r.target.imageBytes && s.r.prefix.Some?
    ensures Shape(o.0)
  {
    hide Append;
    var i, end := Inactive(s.r), s.r.nextOffset + |data|;
    var s1 := s.(r := s.r.(prefix := Some(s.r.prefix.value + data), nextOffset := end),
                 a := SetAccepted(s.a, i, s.a.accepted[i] + data));
    if Checkpointed(end) > s.r.persistedOffset then Append(s1, InProgress, Checkpointed(end)) else (s1, true)
  }

  /** The part of `handleWrite` behind its checks: a fresh chunk at `nextOffset`. */
  function WriteFresh(s: State, data: seq<byte>): (o: (State, Receipt))
    requires Shape(s) && s.r.nextOffset + |data| <= s.r.target.imageBytes && s.r.prefix.Some?
    ensures Shape(o.0)
  {
    hide EraseAhead, ProgramChunk, AcceptChunk, Accept, RejectTerminal;
    var (s1, erased) := EraseAhead(s, s.r.nextOffset + |data|);
    if !erased then RejectTerminal(s1, FlashEraseFailed)
    else
      var (s2, failure) := ProgramChunk(s1, data);
      if failure != None then RejectTerminal(s2, failure.value)
      else
        var (s3, kept) := AcceptChunk(s2, data);
        if !kept then RejectTerminal(s3, JournalFailed)
        else Accept(s3.(r := WithError(s3.r, None)), false, false)
  }

  /** A chunk below `nextOffset` is compared with flash and changes nothing. */
  function WriteReplayed(s: State, offset: nat, data: seq<byte>): (o: (State, Receipt))
    requires Shape(s) && offset < s.r.nextOffset
    ensures Shape(o.0)
  {
    hide Compare, Accept, Reject;
    if offset + |data| > s.r.nextOffset then Reject(s, ChunkMismatch)
    else
      var (d1, same) := Compare(s.d, Inactive(s.r), offset, data, 0);
      if !same then Reject(s.(d := d1), ChunkMismatch)
      else Accept(s.(d := d1, r := WithError(s.r, None)), true, false)
  }

  /** `handleWrite`. */
  function HandleWrite(s: State, request: Option<Chunk>): (o: (State, Receipt))
    requires Shape(s)
    ensures Shape(o.0)
  {
    hide WriteFresh, WriteReplayed, Reject, RejectTerminal;
    if request == None || |request.value.data| > CHUNK then Reject(s, MalformedRequest)
    else
      var Chunk(id, offset, data) := request.value;
      var imageBytes := s.r.target.imageBytes;
      if s.r.phase != Receiving then Reject(s, InvalidState)
      else if !s.r.manifestLoaded then Reject(s, BeginRequired)
      else if id != s.r.target.id then Reject(s, InvalidUpdateId)
      else if |data| == 0 then Reject(s, ChunkSizeInvalid)
      else if offset > imageBytes || |data| > imageBytes - offset then Reject(s, OffsetInvalid)
      else if offset < s.r.nextOffset then WriteReplayed(s, offset, data)
      else if offset != s.r.nextOffset then Reject(s, OffsetInvalid)
      else if s.r.prefix == None then RejectTerminal(s, InternalError)
      else WriteFresh(s, data)
  }

  /** `setBootPartition(inactive_)`; a call made on a live device is logged. */
  function SelectInactive(s: State): (o: (State, bool))
    requires Shape(s)
    ensures Shape(o.0) && o.0.r == s.r && o.0.a == s.a && o.0.d.slots == s.d.slots
  {
    var i := Inactive(s.r);
    var image := s.d.slots[i].payload[..s.r.target.imageBytes];
    var (d1, ok) := SelectSlot(s.d, i);
    (s.(d := d1.(log := if s.d.alive then s.d.log + [Selection(image, s.r.target.sha)] else s.d.log)), ok)
  }

  function SelectAndReport(s: State): (o: (State, Receipt))
    requires Shape(s)
    ensures Shape(o.0)
  {
    hide SelectInactive, Accept, Reject;
    var (s1, selected) := SelectInactive(s);
    if selected then Accept(s1.(r := WithError(s1.r, None)), false, false) else Reject(s1, BootSelectFailed)
  }

  /** Both digests of the image and its format: the streamed bytes, then the bytes read back. */
  function VerifyImage(c: Crypto, s: State): (o: (State, Option<Error>))
    requires Shape(s)
    ensures Shape(o.0) && o.0.r == s.r.(prefix := None) && o.0.a == s.a && o.0.d.slots == s.d.slots && o.0.d.log == s.d.log
  {
    hide HashSlot;
    var i := Inactive(s.r);
    var s0 := s.(r := s.r.(prefix := None));
    if s.r.prefix == None || c.digest(s.r.prefix.value) != s.r.target.sha then (s0, Some(ImageHashMismatch))
    else
      var (d1, readback) := HashSlot(c, s0.d, i, s0.r.target.imageBytes);
      var s1 := s0.(d := d1);
      if readback == None || readback.value != s.r.target.sha then (s1, Some(ImageHashMismatch))
      else if !c.bootable(s.d.slots[i].payload[..s.r.target.imageBytes]) then (s1, Some(ImageInvalid))
      else (s1, None)
  }

  /** The part of `handleFinish` behind its checks. */
  function FinishImage(c: Crypto, s: State): (o: (State, Receipt))
    requires Shape(s)
    ensures Shape(o.0)
  {
    hide VerifyImage, Append, SelectAndReport, RejectTerminal;
    var (s1, failure) := VerifyImage(c, s);
    if failure != None then RejectTerminal(s1, failure.value)
    else
      var (s2, appended) := Append(s1, Complete, s1.r.target.imageBytes);
      if !appended then RejectTerminal(s2, JournalFailed)
      else SelectAndReport(s2.(r := s2.r.(phase := ReadyToReboot)))
  }

  /** `handleFinish`. */
  function HandleFinish(c: Crypto, s: State, request: Option<Digest>): (o: (State, Receipt))
    requires Shape(s)
    ensures Shape(o.0)
  {
    hide SelectAndReport, FinishImage, Reject;
    if request == None then Reject(s, MalformedRequest)
    else if !s.r.target.valid || request.value != s.r.target.id then Reject(s, InvalidUpdateId)
    else if !s.r.manifestLoaded then Reject(s, BeginRequired)
    else if s.r.phase == ReadyToReboot then SelectAndReport(s)
    else if s.r.phase != Receiving then Reject(s, InvalidState)
    else if s.r.nextOffset != s.r.target.imageBytes then Reject(s, IncompleteImage)
    else FinishImage(c, s)
  }

  /** `handleReboot`. */
  function HandleReboot(s: State, request: Option<Digest>): (o: (State, Receipt))
    requires Shape(s)
    ensures Shape(o.0)
  {
    hide SelectInactive, Accept, Reject;
    if request == None then Reject(s, MalformedRequest)
    else if !s.r.target.valid || request.value != s.r.target.id then Reject(s, InvalidUpdateId)
    else if s.r.phase != ReadyToReboot then Reject(s, RebootNotReady)
    else
      var (s1, selected) := SelectInactive(s);
      if !selected then Reject(s1, BootSelectFailed)
      else Accept(s1.(r := s1.r.(misc := s1.r.misc.(rebootScheduled := true, rebootAt := 0, error := None))), false, true)
  }

  /** Closes the inactive journal: an Aborted record, or an erased sector when it cannot be appended. */
  function CloseJournal(s: State): (o: (State, bool))
    requires Shape(s)
    ensures Shape(o.0)
  {
    hide Append, EraseJournal;
    if !s.r.journal.headerReady then (s, true)
    else
      var (s1, appended) := Append(s, Abandoned, s.r.nextOffset);
      if appended then (s1, true)
      else
        var (d2, erased) := EraseJournal(s1.d, Inactive(s1.r));
        (s1.(d := d2), erased)
  }

  /** `handleAbort`. */
  function HandleAbort(s: State, request: Option<Digest>): (o: (State, Receipt))
    requires Shape(s)
    ensures Shape(o.0)
  {
    hide CloseJournal, Accept, Reject, RejectTerminal;
    if request == None then Reject(s, MalformedRequest)
    else if s.r.phase == PendingVerify || s.r.phase == Confirmed then Reject(s, InvalidState)
    else if s.r.target.valid && request.value != s.r.target.id then Reject(s, InvalidUpdateId)
    else
      var (d1, selected) := SelectSlot(s.d, s.r.running);
      var s1 := s.(d := d1, r := CancelReboot(s.r));
      if !selected then RejectTerminal(s1, BootSelectFailed)
      else
        var (s2, closed) := CloseJournal(s1);
        if !closed then RejectTerminal(s2, JournalFailed)
        else Accept(s2.(r := ClearForIdle(s2.r)), false, false)
  }

  /** `handleStatus`. */
  function HandleStatus(s: State, wellFormed: bool): (o: (State, Receipt))
    requires Shape(s)
    ensures Shape(o.0)
  {
    if !wellFormed then Reject(s, MalformedRequest)
    else
      var s1 := if s.r.phase == Failed then s else s.(r := WithError(s.r, None));
      (s1, MakeReceipt(s1, true, false, s1.r.misc.rebootScheduled))
  }

  /** Takes over what a journal says about the update in its slot. */
  function BindJournal(r: Ram, h: Header, j: Scan): Ram
    requires h.Header?
  {
    r.(target := Target(true, h.updateId, h.sha, h.target, h.imageBytes), nextOffset := j.offset,
       persistedOffset := j.offset, journal := Cursor(true, j.sequence, j.lastOccupied))
  }

  /** `bindPendingRunningImage`. */
  function BindPending(c: Crypto, s: State): (o: (State, bool))
    requires Shape(s)
    ensures Shape(o.0)
  {
    hide HashSlot, Rollback;
    var n := s.r.target.imageBytes;
    if s.r.target.version != s.r.misc.version || s.r.nextOffset != n then (Rollback(s, ImageInvalid), false)
    else
      var (d1, readback) := HashSlot(c, s.d, s.r.running, n);
      var s1 := s.(d := d1);
      if readback == None || readback.value != s.r.target.sha || !c.bootable(s.d.slots[s.r.running].payload[..n])
      then (Rollback(s1, ImageInvalid), false)
      else (s1, true)
  }

  predicate IsReady(j: Option<Scan>) { j.Some? && j.value.mark == Complete }

  /** A transfer found in the inactive slot continues at its last checkpoint. */
  function Resume(s: State): (o: (State, bool))
    requires Shape(s) && JournalOf(s.d.slots[Inactive(s.r)]).Some?
    ensures Shape(o.0)
  {
    hide RebuildPrefix, JournalOf;
    var i := Inactive(s.r);
    var j := JournalOf(s.d.slots[i]).value;
    var r := BindJournal(s.r, s.d.slots[i].header, j);
    RebuildPrefix(s.(
      r := r.(phase := Receiving, erasedThrough := j.offset,
              misc := r.misc.(resumed := true, error := Some(BeginRequired))),
      a := SetAccepted(s.a, i, Truncate(s.a.accepted[i], j.offset))))
  }

  /** The decisions of `loadExistingState` about the inactive slot. */
  function ChooseInactive(s: State, rolledBack: bool): (o: (State, bool))
    requires Shape(s)
    ensures Shape(o.0)
  {
    hide Resume, JournalOf;
    var i := Inactive(s.r);
    var inactive := JournalOf(s.d.slots[i]);
    if inactive.Some? && inactive.value.mark == InProgress then Resume(s)
    else if IsReady(inactive) then
      var r := BindJournal(s.r, s.d.slots[i].header, inactive.value);
      (s.(r := r.(phase := if rolledBack then RolledBack else ReadyToReboot,
                  misc := r.misc.(resumed := true, error := Some(BeginRequired)))), true)
    else (s.(r := ClearForIdle(s.r)), true)
  }

  /** The running slot's own completed journal describes this boot. */
  function ChooseRunning(c: Crypto, s: State, pending: bool): (o: (State, bool))
    requires Shape(s) && JournalOf(s.d.slots[s.r.running]).Some?
    ensures Shape(o.0)
  {
    hide BindPending, JournalOf;
    var slot := s.d.slots[s.r.running];
    var r := BindJournal(s.r, slot.header, JournalOf(slot).value);
    if pending then BindPending(c, s.(r := r.(phase := PendingVerify))) else (s.(r := r.(phase := Confirmed)), true)
  }

  /** The decisions of `loadExistingState` once both journals have been read. */
  function Choose(c: Crypto, s: State, runningBoot: BootState, inactiveBoot: BootState): (o: (State, bool))
    requires Shape(s)
    ensures Shape(o.0)
  {
    hide Rollback, ChooseRunning, ChooseInactive, JournalOf;
    var running := JournalOf(s.d.slots[s.r.running]);
    var rolledBack := IsReady(JournalOf(s.d.slots[Inactive(s.r)]))
                      && (inactiveBoot == BootInvalid || inactiveBoot == BootAborted);
    if runningBoot == BootPending && !IsReady(running) then (Rollback(s, ImageInvalid), false)
    else if IsReady(running) && (runningBoot == BootPending || (runningBoot == BootValid && !rolledBack)) then
      ChooseRunning(c, s, runningBoot == BootPending)
    else ChooseInactive(s, rolledBack)
  }

  /** `loadExistingState`; boot states come from the bootloader. */
  function Load(c: Crypto, s: State, runningBoot: BootState, inactiveBoot: BootState): (o: (State, bool))
    requires Shape(s)
    ensures Shape(o.0)
  {
    hide ReadJournal, Choose;
    var (d1, running) := ReadJournal(s.d, s.r.running);
    if running == None then (s.(d := d1), false)
    else
      var (d2, inactive) := ReadJournal(d1, Inactive(s.r));
      if inactive == None then (s.(d := d2), false)
      else Choose(c, s.(d := d2), runningBoot, inactiveBoot)
  }

  /** `begin` after a reset: RAM is gone, flash is what it was. */
  function Boot(c: Crypto, s: State, running: nat, version: Version, usable: bool, plan: seq<Outcome>,
                runningBoot: BootState, inactiveBoot: BootState): (t: State)
    requires Shape(s) && running < 2
    ensures Shape(t)
  {
    hide Load;
    var r0 := FreshRam(running, version);
    var s0 := s.(d := s.d.(alive := true, plan := plan), r := if usable then r0.(misc := r0.misc.(begun := true)) else r0);
    if !usable then s0
    else
      var (s1, ok) := Load(c, s0, runningBoot, inactiveBoot);
      if ok || (s1.r.phase == Failed && s1.r.misc.error != None) then s1
      else s1.(r := WithError(s1.r, Some(FlashReadFailed)).(phase := Failed))
  }

  /** `finishCriticalInitialization`. */
  function FinishInit(s: State, healthy: bool, now: nat): (t: State)
    requires Shape(s)
    ensures Shape(t)
  {
    hide Rollback;
    if !s.r.misc.begun || s.r.phase != PendingVerify then s
    else if !healthy then Rollback(s, RollbackFailed)
    else s.(r := s.r.(misc := s.r.misc.(confirmationArmed := true, healthySince := now)))
  }

  /** `loop` arms the reboot deadlines on its first pass after the request. */
  function ArmReboot(m: Misc, now: nat): Misc {
    if m.rebootScheduled && m.rebootAt == 0
    then m.(rebootAt := (now + REBOOT_DELAY_MS) % TWO_32, rebootFallbackAt := (now + REBOOT_FALLBACK_MS) % TWO_32)
    else m
  }

  /** The half of `loop` that keeps a new image once it has been healthy long enough. */
  function Confirm(s: State, now: nat, healthy: bool): (t: State)
    requires Shape(s)
    ensures Shape(t)
  {
    hide Rollback, Call;
    if s.r.phase != PendingVerify || !s.r.misc.confirmationArmed then s
    else if !healthy then Rollback(s, RollbackFailed)
    else if Sub32(now, s.r.misc.healthySince) < HEALTHY_MS then s
    else
      var (d2, o) := Call(s.d);
      if !o.Done? then Rollback(s.(d := d2), RollbackFailed)
      else s.(d := d2, r := s.r.(phase := Confirmed, misc := s.r.misc.(confirmationArmed := false, error := None)))
  }

  /** `loop`; a restart ends the boot. */
  function Loop(s: State, now: nat, healthy: bool, transmitIdle: bool): (t: State)
    requires Shape(s)
    ensures Shape(t)
  {
    hide Confirm, ArmReboot;
    if !s.r.misc.begun then s
    else
      var m := ArmReboot(s.r.misc, now);
      if m.rebootScheduled && Reached32(now, m.rebootAt) && (transmitIdle || Reached32(now, m.rebootFallbackAt))
      then s.(d := s.d.(alive := false), r := s.r.(misc := m.(rebootScheduled := false)))
      else
        Confirm(s.(r := s.r.(misc := m)), now, healthy)
  }

  datatype Event =
    | Reset(running: nat, version: Version, usable: bool, plan: seq<Outcome>, runningBoot: BootState, inactiveBoot: BootState)
    | Begin(begin: Option<(seq<byte>, seq<byte>)>)
    | Write(chunk: Option<Chunk>)
    | Finish(id: Option<Digest>)
    | Reboot(id: Option<Digest>)
    | Abort(id: Option<Digest>)
    | Status(wellFormed: bool)
    | Initialized(healthy: bool, now: nat)
    | Tick(now: nat, healthy: bool, transmitIdle: bool)

  /** One event in the life of a device.  Between a power cut or restart and the next reset nothing happens; requests
      need a begun updater. */
  function Step(c: Crypto, s: State, e: Event): (t: State)
    requires Shape(s)
    ensures Shape(t)
  {
    hide Boot, FinishInit, Loop, Request;
    if e.Reset? then Boot(c, s, e.running % 2, e.version, e.usable, e.plan, e.runningBoot, e.inactiveBoot)
    else if !s.d.alive then s
    else if e.Initialized? then FinishInit(s, e.healthy, e.now)
    else if e.Tick? then Loop(s, e.now, e.healthy, e.transmitIdle)
    else Request(c, s, e).0
  }

  /** `handleRequest`. */
  function Request(c: Crypto, s: State, e: Event): (o: (State, Receipt))
    requires Shape(s)
    ensures Shape(o.0)
  {
    hide HandleBegin, HandleWrite, HandleFinish, HandleReboot, HandleAbort, HandleStatus;
    if !s.r.misc.begun then Reject(s, NotBegun)
    else match e
      case Begin(b) => HandleBegin(c, s, b)
      case Write(chunk) => HandleWrite(s, chunk)
      case Finish(id) => HandleFinish(c, s, id)
      case Reboot(id) => HandleReboot(s, id)
      case Abort(id) => HandleAbort(s, id)
      case Status(ok) => HandleStatus(s, ok)
      case _ => Reject(s, MalformedRequest)
  }

  function Run(c: Crypto, s: State, events: seq<Event>): (t: State)
    requires Shape(s)
    ensures Shape(t)
    decreases |events|
  {
    if events == [] then s else Step(c, Run(c, s, events[..|events| - 1]), events[|events| - 1])
  }
}
