/** The ledger in its own form: one object with a fixed array of entries, scanned and overwritten in place. */
module ReplayCache {
  import opened Bytes
  import opened ReplayLedger
  import Sha256

  /** Domain, id, kind, expiry and duration. */
  method AbsorbHead(context: Sha256.Sha256Context, c: Command)
    requires context.Valid() && context.absorbed == []
    modifies context, context.state, context.block
    ensures context.Valid() && context.absorbed == DOMAIN + [0] + c.id + [c.kind] + Be32(c.expires) + Be32(c.duration)
  {
    hide Be32, Sha256.Sha256Context.Valid;
    context.Update(DOMAIN);
    context.Update([0]);
    context.Update(c.id);
    context.Update([c.kind]);
    context.Update(Be32(c.expires));
    context.Update(Be32(c.duration));
  }

  /** Route, target, text and, for an advertisement, its scope. */
  method AbsorbTail(context: Sha256.Sha256Context, c: Command)
    requires context.Valid() && FieldsFit(c)
    modifies context, context.state, context.block
    ensures context.Valid() && context.absorbed == old(context.absorbed) + [c.route, |c.target|] + c.target + [0, |c.text|]
                                                   + c.text + if c.kind == ADVERTISE_ONCE then [c.scope] else []
  {
    hide Sha256.Sha256Context.Valid;
    ghost var head := context.absorbed;
    context.Update([c.route]);
    context.Update([|c.target|]);
    assert context.absorbed == head + [c.route, |c.target|];
    context.Update(c.target);
    context.Update([0, |c.text|]);
    context.Update(c.text);
    if c.kind == ADVERTISE_ONCE {
      context.Update([c.scope]);
    }
  }

  /** `commandDigest`: the canonical encoding goes through the streaming hash field by field. */
  method CommandDigest(c: Command) returns (digest: Option<seq<byte>>)
    ensures digest == if CommandValid(c) then Some(Digest(c)) else None
  {
    hide CommandValid, Sha256.Hash, Be32, Sha256.Sha256Context.Valid;
    if !CommandValid(c) { return None; }
    ValidFieldsFit(c);
    var context := new Sha256.Sha256Context();
    AbsorbHead(context, c);
    AbsorbTail(context, c);
    var output := context.Finish();
    digest := Some(output);
  }

  predicate FieldsFit(c: Command) {
    |c.target| < 256 && |c.text| < 256
  }

  lemma ValidFieldsFit(c: Command)
    requires CommandValid(c)
    ensures FieldsFit(c)
  {
  }

  class BleActionReplayCache {
    var intact: bool
    var count: nat
    const records: array<Entry>

    ghost function Now(): Blob
      reads this, records
    {
      Blob(intact, count, records[..])
    }

    ghost predicate WellFormed()
      reads this, records
    {
      records.Length == CAPACITY && Valid(Now())
    }

    constructor ()
      ensures WellFormed() && Now() == EMPTY && fresh(records)
    {
      records := new Entry[CAPACITY](_ => NO_ENTRY);
      intact, count := true, 0;
    }

    method Reset()
      requires records.Length == CAPACITY
      modifies this, records
      ensures WellFormed() && Now() == EMPTY
    {
      forall i | 0 <= i < CAPACITY { records[i] := NO_ENTRY; }
      intact, count := true, 0;
    }

    /** `load`; `None` is an image of the wrong length. */
    method Load(image: Option<Blob>) returns (ok: bool)
      requires records.Length == CAPACITY
      modifies this, records
      ensures WellFormed() && (Now(), ok) == Loaded(image)
    {
      if image == None || |image.value.entries| != CAPACITY || !Valid(image.value) {
        Reset();
        return false;
      }
      forall i | 0 <= i < CAPACITY { records[i] := image.value.entries[i]; }
      intact, count := image.value.intact, image.value.count;
      assert records[..] == image.value.entries;
      ok := true;
    }

    /** `inspect`. */
    method InspectCommand(c: Command, now: nat) returns (decision: Decision)
      requires WellFormed()
      ensures decision == Inspect(Now(), c, now)
    {
      hide CommandValid, Digest, Valid;
      var digest := CommandDigest(c);
      BlobShape(Now());
      if digest == None { return Conflict; }
      if now < EPOCH_MIN || now > EPOCH_MAX { return TimeUnavailable; }
      if c.expires <= now { return Expired; }
      if c.expires - now > EXPIRY_MAX_SECONDS { return InvalidExpiry; }
      var i := 0;
      while i < count
        invariant 0 <= i <= count
        invariant Find(Now(), c.id, 0) == Find(Now(), c.id, i)
      {
        var record := records[i];
        if record.id == c.id {
          if record.digest == digest.value {
            return if record.outcome == APPLIED then DuplicateApplied else DuplicateIndeterminate;
          }
          return if record.expires <= now then Fresh else Conflict;
        }
        i := i + 1;
      }
      decision := Fresh;
    }

    /** The scan of `remember` for an entry to overwrite. */
    method FindPlace(id: seq<byte>, now: nat) returns (slot: nat)
      requires WellFormed()
      ensures slot == Place(Now(), id, now, 0, CAPACITY)
    {
      hide Valid;
      BlobShape(Now());
      slot := CAPACITY;
      var i := 0;
      while i < count
        invariant 0 <= i <= count && (slot == CAPACITY || (slot < i && records[slot].expires <= now))
        invariant Place(Now(), id, now, 0, CAPACITY) == Place(Now(), id, now, i, slot)
      {
        if records[i].expires <= now {
          if slot == CAPACITY { slot := i; }
          if records[i].id == id {
            slot := i;
            break;
          }
        }
        i := i + 1;
      }
    }

    /** Writes one entry and seals the image. */
    method Put(slot: nat, e: Entry)
      requires WellFormed() && slot <= count && slot < CAPACITY && Valid(Store(Now(), slot, e))
      modifies this, records
      ensures WellFormed() && Now() == Store(old(Now()), slot, e)
    {
      hide Valid;
      BlobShape(Now());
      if slot == count { count := count + 1; }
      records[slot] := e;
      intact := true;
    }

    /** `remember`. */
    method RememberCommand(c: Command, now: nat) returns (ok: bool)
      requires WellFormed()
      modifies this, records
      ensures WellFormed() && (Now(), ok) == Remember(old(Now()), c, now)
    {
      hide CommandValid, Digest, Valid, Inspect;
      RememberKeeps(Now(), c, now);
      BlobShape(Now());
      var decision := InspectCommand(c, now);
      if decision == DuplicateApplied || decision == DuplicateIndeterminate { return true; }
      if decision != Fresh { return false; }
      var slot := FindPlace(c.id, now);
      if slot == CAPACITY {
        if count >= CAPACITY { return false; }
        slot := count;
      }
      FreshIsValid(Now(), c, now);
      var digest := CommandDigest(c);
      if digest == None { return false; }
      Put(slot, Entry(c.id, digest.value, c.expires, PENDING));
      ok := true;
    }

    /** `markApplied`. */
    method MarkCommand(c: Command) returns (ok: bool)
      requires WellFormed()
      modifies this, records
      ensures WellFormed() && (Now(), ok) == MarkApplied(old(Now()), c)
    {
      hide CommandValid, Digest, Valid;
      MarkKeeps(Now(), c);
      BlobShape(Now());
      var digest := CommandDigest(c);
      if digest == None { return false; }
      var i := 0;
      while i < count
        invariant 0 <= i <= count
        invariant Find(Now(), c.id, 0) == Find(Now(), c.id, i)
      {
        if records[i].id == c.id {
          if records[i].digest != digest.value { return false; }
          Put(i, records[i].(outcome := APPLIED));
          return true;
        }
        i := i + 1;
      }
      ok := false;
    }
  }
}
