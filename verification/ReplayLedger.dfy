/** The at-most-once ledger of remote actions and the command digest it binds records to. */
module ReplayLedger {
  import opened Bytes
  import Base64Url
  import Sha256
  import Utf8

  const CAPACITY: nat := 8
  const EPOCH_MIN: nat := 1704067200
  const EPOCH_MAX: nat := 4102444800
  const EXPIRY_MAX_SECONDS: nat := 120
  const LISTEN_MIN_MS: nat := 1000
  const LISTEN_MAX_MS: nat := 60000
  const TARGET_BYTES: nat := 43
  const TEXT_BYTES: nat := 128

  const LISTEN_ONCE: byte := 4
  const ADVERTISE_ONCE: byte := 5
  const SEND_MESSAGE: byte := 6
  const PENDING: byte := 1
  const APPLIED: byte := 2

  /** Kinds are 1 to 6, scopes and routes 0 (none) to 2, as on the wire. */
  datatype Command = Command(idValid: bool, id: seq<byte>, kind: byte, expires: u32, duration: u32, scope: byte,
                             route: byte, target: seq<byte>, text: seq<byte>)

  predicate AllZero(s: seq<byte>) {
    forall i :: 0 <= i < |s| ==> s[i] == 0
  }

  /** `validDirectTarget`: a canonical base64url key; `validChannelTarget`: a slot from 0 to 3. */
  predicate TargetValid(c: Command) {
    if c.route == 1 then
      |c.target| == TARGET_BYTES && Base64Url.Decode(c.target).Some? && |Base64Url.Decode(c.target).value| == 32
    else c.route == 2 && |c.target| == 1 && 48 <= c.target[0] <= 51
  }

  /** `validReplayCommand`. */
  predicate CommandValid(c: Command) {
    && c.idValid && |c.id| == 16 && 1 <= c.kind <= 6 && EPOCH_MIN <= c.expires <= EPOCH_MAX
    && (if c.kind == LISTEN_ONCE then LISTEN_MIN_MS <= c.duration <= LISTEN_MAX_MS else c.duration == 0)
    && (if c.kind == ADVERTISE_ONCE then c.scope == 1 || c.scope == 2 else c.scope == 0)
    && (if c.kind != SEND_MESSAGE then c.route == 0 && c.target == [] && c.text == []
        else
          && 0 < |c.text| <= TEXT_BYTES && 0 < |c.target| <= TARGET_BYTES && 0 !in c.target && 0 !in c.text
          && Utf8.Valid(c.text) && TargetValid(c))
  }

  const DOMAIN: seq<byte> := [
    107, 105, 116, 115, 117, 46, 98, 108, 101, 45, 97, 99, 116, 105, 111, 110, 46, 99, 111, 109, 109, 97, 110, 100, 46,
    118, 49]

  /** What `commandDigest` hashes. */
  function Preimage(c: Command): seq<byte>
    requires CommandValid(c)
  {
    DOMAIN + [0] + c.id + [c.kind] + Be32(c.expires) + Be32(c.duration) + [c.route, |c.target|] + c.target
    + [0, |c.text|] + c.text + if c.kind == ADVERTISE_ONCE then [c.scope] else []
  }

  function Digest(c: Command): seq<byte>
    requires CommandValid(c)
  {
    Sha256.Hash(Preimage(c))
  }

  /** Field by field the canonical encoding determines the command. */
  lemma PreimageInjective(c: Command, d: Command)
    requires CommandValid(c) && CommandValid(d) && Preimage(c) == Preimage(d)
    ensures c == d
  {
    hide Be32, Utf8.Valid, TargetValid;
    FixedPart(c);
    FixedPart(d);
    var p, q := Preimage(c), Preimage(d);
    assert p[28..44] == c.id && q[28..44] == d.id;
    Be32Injective(c.expires, d.expires);
    Be32Injective(c.duration, d.duration);
    TextPart(c);
    TextPart(d);
  }

  lemma FixedPart(c: Command)
    requires CommandValid(c)
    ensures var p := Preimage(c);
      && |p| >= 55 + |c.target| + 2 && p[28..44] == c.id && p[44] == c.kind && p[45..49] == Be32(c.expires)
      && p[49..53] == Be32(c.duration) && p[53] == c.route && p[54] == |c.target| && p[55..55 + |c.target|] == c.target
  {
    hide Be32, Utf8.Valid, TargetValid;
    var a := DOMAIN + [0] + c.id + [c.kind] + Be32(c.expires) + Be32(c.duration) + [c.route, |c.target|] + c.target;
    assert |DOMAIN| == 27;
    var b := [0, |c.text|] + c.text + if c.kind == ADVERTISE_ONCE then [c.scope] else [];
    assert Preimage(c) == a + b;
    assert a[28..44] == c.id && a[45..49] == Be32(c.expires) && a[49..53] == Be32(c.duration) && a[55..] == c.target;
  }

  lemma TextPart(c: Command)
    requires CommandValid(c)
    ensures var p, n := Preimage(c), 55 + |c.target|;
      && |p| >= n + 2 + |c.text| && p[n + 1] == |c.text| && p[n + 2..n + 2 + |c.text|] == c.text
      && (c.kind == ADVERTISE_ONCE ==> |p| == n + 3 + |c.text| && p[n + 2 + |c.text|] == c.scope)
  {
    hide Be32, Utf8.Valid, TargetValid;
    var a := DOMAIN + [0] + c.id + [c.kind] + Be32(c.expires) + Be32(c.duration) + [c.route, |c.target|] + c.target;
    assert |DOMAIN| == 27;
    var s := if c.kind == ADVERTISE_ONCE then [c.scope] else [];
    assert Preimage(c) == a + [0, |c.text|] + c.text + s;
    assert |a| == 55 + |c.target|;
  }

  // ----- the ledger -----

  datatype Entry = Entry(id: seq<byte>, digest: seq<byte>, expires: u32, outcome: byte)

  const NO_ENTRY: Entry := Entry(Repeat<byte>(0, 16), Repeat<byte>(0, 32), 0, 0)

  /** The persisted image.  `intact`: magic, length, reserved octet and checksum are right. */
  datatype Blob = Blob(intact: bool, count: nat, entries: seq<Entry>)

  const EMPTY: Blob := Blob(true, 0, Repeat(NO_ENTRY, CAPACITY))

  predicate EntryValid(e: Entry) {
    (e.outcome == PENDING || e.outcome == APPLIED) && EPOCH_MIN <= e.expires <= EPOCH_MAX
  }

  predicate Unique(b: Blob)
    requires b.count <= |b.entries|
  {
    forall i, j :: 0 <= i < j < b.count ==> b.entries[i].id != b.entries[j].id
  }

  /** `valid`. */
  predicate Valid(b: Blob) {
    && b.intact && |b.entries| == CAPACITY && b.count <= CAPACITY
    && (forall i :: 0 <= i < b.count ==> EntryValid(b.entries[i])) && Unique(b)
    && (forall i :: b.count <= i < CAPACITY ==> b.entries[i] == NO_ENTRY)
  }

  /** `load`: an invalid image is replaced by an empty ledger. */
  function Loaded(image: Option<Blob>): (r: (Blob, bool))
    ensures Valid(r.0)
  {
    if image.Some? && Valid(image.value) then (image.value, true) else (EMPTY, false)
  }

  datatype Decision = Fresh | DuplicateApplied | DuplicateIndeterminate | Conflict | Expired | TimeUnavailable | InvalidExpiry

  /** First entry for `id` at or after `i`, else `count`. */
  function Find(b: Blob, id: seq<byte>, i: nat): (k: nat)
    requires i <= b.count <= |b.entries|
    ensures i <= k <= b.count && (k < b.count ==> b.entries[k].id == id)
    ensures forall j :: i <= j < k ==> b.entries[j].id != id
    decreases b.count - i
  {
    if i == b.count || b.entries[i].id == id then i else Find(b, id, i + 1)
  }

  /** What an entry with the command's id says about it. */
  function Judge(e: Entry, digest: seq<byte>, now: nat): Decision {
    if e.digest == digest then (if e.outcome == APPLIED then DuplicateApplied else DuplicateIndeterminate)
    else if e.expires <= now then Fresh else Conflict
  }

  /** `inspect`. */
  function Inspect(b: Blob, c: Command, now: nat): Decision
    requires Valid(b)
  {
    hide CommandValid, Digest, Valid;
    BlobShape(b);
    if !CommandValid(c) then Conflict
    else if now < EPOCH_MIN || now > EPOCH_MAX then TimeUnavailable
    else if c.expires <= now then Expired
    else if c.expires - now > EXPIRY_MAX_SECONDS then InvalidExpiry
    else
      var k := Find(b, c.id, 0);
      if k < b.count then Judge(b.entries[k], Digest(c), now) else Fresh
  }

  lemma BlobShape(b: Blob)
    requires Valid(b)
    ensures |b.entries| == CAPACITY && b.count <= CAPACITY && Unique(b)
  {
  }

  /** The slot `remember` overwrites, from `i` on, with `best` found so far: the first expired entry, or the expired one
      that has the command's own id. */
  function Place(b: Blob, id: seq<byte>, now: nat, i: nat, best: nat): (k: nat)
    requires i <= b.count <= |b.entries| == CAPACITY
    requires best == CAPACITY || (best < i && b.entries[best].expires <= now)
    ensures k == CAPACITY || (k < b.count && b.entries[k].expires <= now)
    ensures k == CAPACITY ==> best == CAPACITY && forall j :: i <= j < b.count ==> b.entries[j].expires > now
    ensures forall j :: i <= j < b.count && b.entries[j].expires <= now && b.entries[j].id == id ==> b.entries[k].id == id
    decreases b.count - i
  {
    if i == b.count then best
    else if b.entries[i].expires <= now then
      if b.entries[i].id == id then i else Place(b, id, now, i + 1, if best == CAPACITY then i else best)
    else Place(b, id, now, i + 1, best)
  }

  function Store(b: Blob, k: nat, e: Entry): Blob
    requires k < |b.entries|
  {
    Blob(true, if k < b.count then b.count else k + 1, b.entries[k := e])
  }

  /** `remember`. */
  function Remember(b: Blob, c: Command, now: nat): (r: (Blob, bool))
    requires Valid(b)
  {
    hide CommandValid, Digest, Valid, Inspect;
    BlobShape(b);
    var decision := Inspect(b, c, now);
    if decision == DuplicateApplied || decision == DuplicateIndeterminate then (b, true)
    else if decision != Fresh then (b, false)
    else
      var k := Place(b, c.id, now, 0, CAPACITY);
      if k == CAPACITY && b.count >= CAPACITY then (b, false)
      else
        assert CommandValid(c) by { FreshIsValid(b, c, now); }
        (Store(b, if k == CAPACITY then b.count else k, Entry(c.id, Digest(c), c.expires, PENDING)), true)
  }

  lemma FreshIsValid(b: Blob, c: Command, now: nat)
    requires Valid(b) && Inspect(b, c, now) == Fresh
    ensures CommandValid(c)
  {
    hide CommandValid, Digest, Valid;
  }

  /** `markApplied`. */
  function MarkApplied(b: Blob, c: Command): (r: (Blob, bool))
    requires Valid(b)
  {
    hide CommandValid, Digest, Valid;
    BlobShape(b);
    if !CommandValid(c) then (b, false)
    else
      var k := Find(b, c.id, 0);
      if k == b.count || b.entries[k].digest != Digest(c) then (b, false)
      else (Store(b, k, b.entries[k].(outcome := APPLIED)), true)
  }

  // ----- what the decisions mean -----

  /** A command is fresh exactly when it is well formed, time is trusted, it expires within two minutes, and every entry
      with its id is for another command and has expired. */
  lemma FreshMeans(b: Blob, c: Command, now: nat)
    requires Valid(b)
    ensures Inspect(b, c, now) == Fresh <==>
      && CommandValid(c) && EPOCH_MIN <= now <= EPOCH_MAX && now < c.expires <= now + EXPIRY_MAX_SECONDS
      && forall i :: 0 <= i < b.count && b.entries[i].id == c.id ==>
           b.entries[i].digest != Digest(c) && b.entries[i].expires <= now
  {
    hide CommandValid, Digest, EntryValid;
    var k := Find(b, c.id, 0);
  }

  /** `remember` changes nothing unless the command is fresh; then it takes a free slot or an expired entry, so unexpired
      entries and the uniqueness of ids survive. */
  lemma RememberKeeps(b: Blob, c: Command, now: nat)
    requires Valid(b)
    ensures var (after, ok) := Remember(b, c, now);
      && Valid(after)
      && (forall i :: 0 <= i < b.count && b.entries[i].expires > now ==> after.entries[i] == b.entries[i] && i < after.count)
      && (ok && Inspect(b, c, now) == Fresh ==>
            exists k :: 0 <= k < after.count && after.entries[k] == Entry(c.id, Digest(c), c.expires, PENDING))
      && (Inspect(b, c, now) != Fresh ==> after == b)
  {
    hide CommandValid, Digest, Inspect;
    FreshMeans(b, c, now);
    if Inspect(b, c, now) == Fresh {
      assert CommandValid(c);
      ExpiryInRange(c);
      var k := Place(b, c.id, now, 0, CAPACITY);
      var (after, ok) := Remember(b, c, now);
      if ok {
        var slot := if k == CAPACITY then b.count else k;
        assert after.entries[slot] == Entry(c.id, Digest(c), c.expires, PENDING);
      }
    }
  }

  lemma ExpiryInRange(c: Command)
    requires CommandValid(c)
    ensures EPOCH_MIN <= c.expires <= EPOCH_MAX
  {
  }

  /** Marking finds exactly a remembered command, and changes nothing but that entry's outcome. */
  lemma MarkKeeps(b: Blob, c: Command)
    requires Valid(b)
    ensures var (after, ok) := MarkApplied(b, c);
      && Valid(after) && after.count == b.count
      && (ok <==> CommandValid(c) && exists i :: 0 <= i < b.count && b.entries[i].id == c.id && b.entries[i].digest == Digest(c))
      && (forall i :: 0 <= i < b.count ==>
            after.entries[i] == if ok && b.entries[i].id == c.id then b.entries[i].(outcome := APPLIED) else b.entries[i])
  {
    hide CommandValid, Digest;
    BlobShape(b);
    var k := Find(b, c.id, 0);
    if CommandValid(c) && k < b.count {
      assert forall i :: 0 <= i < b.count && i != k ==> b.entries[i].id != b.entries[k].id;
    }
  }

  /** Saving and loading a ledger gives it back. */
  lemma SaveLoad(b: Blob)
    requires Valid(b)
    ensures Loaded(Some(b)) == (b, true)
  {
  }

  // ----- runs -----

  datatype Event = Remembered(command: Command, now: nat) | Marked(command: Command) | Restarted

  function Step(b: Blob, e: Event): (after: Blob)
    requires Valid(b)
    ensures Valid(after)
  {
    hide Valid, Remember, MarkApplied;
    match e
    case Remembered(c, now) => RememberKeeps(b, c, now); Remember(b, c, now).0
    case Marked(c) => MarkKeeps(b, c); MarkApplied(b, c).0
    case Restarted => Loaded(Some(b)).0
  }

  function Run(b: Blob, events: seq<Event>): (after: Blob)
    requires Valid(b)
    ensures Valid(after)
    decreases |events|
  {
    hide Valid, Step;
    if events == [] then b else Run(Step(b, events[0]), events[1..])
  }

  /** Trusted time never runs backwards: each `remember` happens at `from` or later, in order. */
  predicate Monotone(from: nat, events: seq<Event>)
    decreases |events|
  {
    events == [] || (if events[0].Remembered? then from <= events[0].now && Monotone(events[0].now, events[1..])
                     else Monotone(from, events[1..]))
  }

  /** The last time a run has seen. */
  function Latest(from: nat, events: seq<Event>): (t: nat)
    requires Monotone(from, events)
    ensures t >= from
    decreases |events|
  {
    if events == [] then from else Latest(if events[0].Remembered? then events[0].now else from, events[1..])
  }

  /** The id is reserved for one command until its expiry. */
  ghost predicate Reserved(b: Blob, id: seq<byte>, digest: seq<byte>, expires: nat, now: nat)
    requires b.count <= |b.entries|
  {
    expires <= now || exists i :: 0 <= i < b.count && b.entries[i].id == id && b.entries[i].digest == digest
                                  && b.entries[i].expires == expires
  }

  lemma StepReserves(b: Blob, e: Event, id: seq<byte>, digest: seq<byte>, expires: nat, now: nat)
    requires Valid(b) && Reserved(b, id, digest, expires, now) && (e.Remembered? ==> now <= e.now)
    ensures Reserved(Step(b, e), id, digest, expires, if e.Remembered? then e.now else now)
  {
    hide Remember, MarkApplied, Inspect, Digest, CommandValid, EntryValid;
    if expires > (if e.Remembered? then e.now else now) {
      var i :| 0 <= i < b.count && b.entries[i].id == id && b.entries[i].digest == digest && b.entries[i].expires == expires;
      if e.Remembered? {
        RememberKeeps(b, e.command, e.now);
        assert Step(b, e).entries[i] == b.entries[i];
      } else if e.Marked? {
        MarkKeeps(b, e.command);
        assert Step(b, e).entries[i].id == id;
      } else {
        SaveLoad(b);
      }
    }
  }

  lemma {:induction false} RunReserves(b: Blob, events: seq<Event>, id: seq<byte>, digest: seq<byte>, expires: nat, now: nat)
    requires Valid(b) && Reserved(b, id, digest, expires, now) && Monotone(now, events)
    ensures Reserved(Run(b, events), id, digest, expires, Latest(now, events))
    decreases |events|
  {
    hide Step, Valid, Reserved;
    BlobShape(b);
    if events != [] {
      StepReserves(b, events[0], id, digest, expires, now);
      RunReserves(Step(b, events[0]), events[1..], id, digest, expires, if events[0].Remembered? then events[0].now else now);
    }
    BlobShape(Run(b, events));
  }

  /** Accepted once, a command is never fresh again, through later actions, slot reuse, saves and loads. */
  lemma AtMostOnce(b: Blob, c: Command, now: nat, events: seq<Event>, later: nat)
    requires Valid(b) && Inspect(b, c, now) == Fresh && Remember(b, c, now).1
    requires Monotone(now, events) && Latest(now, events) <= later
    ensures Valid(Remember(b, c, now).0)
    ensures Inspect(Run(Remember(b, c, now).0, events), c, later) != Fresh
  {
    hide Remember, Run, CommandValid, Digest, Inspect, EntryValid;
    FreshMeans(b, c, now);
    RememberKeeps(b, c, now);
    var b1 := Remember(b, c, now).0;
    RunReserves(b1, events, c.id, Digest(c), c.expires, now);
    FreshMeans(Run(b1, events), c, later);
  }

  /** And until its expiry no different command with the same id is. */
  lemma IdIsReserved(b: Blob, c: Command, now: nat, events: seq<Event>, other: Command, later: nat)
    requires Valid(b) && Inspect(b, c, now) == Fresh && Remember(b, c, now).1
    requires Monotone(now, events) && Latest(now, events) <= later < c.expires && other.id == c.id
    ensures Valid(Remember(b, c, now).0)
    ensures Inspect(Run(Remember(b, c, now).0, events), other, later) != Fresh
  {
    hide Remember, Run, CommandValid, Digest, Inspect, EntryValid;
    FreshMeans(b, c, now);
    RememberKeeps(b, c, now);
    var b1 := Remember(b, c, now).0;
    RunReserves(b1, events, c.id, Digest(c), c.expires, now);
    FreshMeans(Run(b1, events), other, later);
  }
}
