/** The eight-slot store in its own form: one object whose scans and scrubs are loops over the slots. */
module ConnectionConfig {
  import opened Bytes
  import opened ConnectionStore

  class ConnectionConfigStore {
    const trust: Trust
    var device: Device
    var begun: bool
    var active: int
    var generation: u32
    var resident: Resident

    ghost function Now(): State
      reads this
    {
      State(device, Ram(begun, active, generation, resident))
    }

    ghost predicate Valid()
      reads this
    {
      Shape(Now())
    }

    constructor (trust: Trust, device: Device)
      requires Shape(State(device, NO_RAM))
      ensures Valid() && Now() == State(device, NO_RAM) && this.trust == trust
    {
      this.trust, this.device := trust, device;
      begun, active, generation, resident := false, -1, 0, NO_RESIDENT;
    }

    method Platform() returns (ok: bool)
      modifies this`device
      ensures (device, ok) == Quiet(old(device))
    {
      var (d, done) := Quiet(device);
      device, ok := d, done;
    }

    /** `loadSlot`. */
    method LoadSlot(slot: nat) returns (probe: Probe)
      requires Valid() && slot < SLOTS
      modifies this`device
      ensures Valid() && (device, probe) == Load(trust, old(device), slot)
    {
      hide Quiet, Seen;
      var read := Platform();
      if !read { return Unread; }
      probe := Seen(trust, device.slots[slot]);
    }

    method WriteSlot(slot: nat, content: Slot) returns (ok: bool)
      requires Valid() && slot < SLOTS
      modifies this`device
      ensures Valid() && (device, ok) == Write(old(device), slot, content)
    {
      var (d, done) := Write(device, slot, content);
      device, ok := d, done;
    }

    /** `persistPlain`. */
    method PersistPlain(plain: Plain, next: u32) returns (result: Result)
      requires Valid()
      modifies this`device, this`active, this`generation, this`resident
      ensures Valid() && (Now(), result) == Persist(trust, old(Now()), plain, next)
    {
      hide Quiet, Write, Load;
      if next == 0 { return InvalidArgument; }
      var sealed := Platform();
      if sealed { sealed := Platform(); }
      if !sealed { return CryptoFailed; }
      var target := Target(active);
      var written := WriteSlot(target, Sealed(next, CURRENT, plain));
      if !written { return StorageWriteFailed; }
      var probe := LoadSlot(target);
      if !probe.Opened? || probe.generation != next || probe.version != CURRENT { return StorageReadbackFailed; }
      resident := Decode(probe.plain);
      active, generation := target, next;
      result := Ok;
    }

    /** `loadActivePlain`. */
    method LoadActivePlain() returns (result: Result, plain: Plain)
      requires Valid()
      modifies this`device
      ensures Valid() && (Now(), result, plain) == LoadActive(trust, old(Now()))
    {
      hide Load;
      if active < 0 { return Ok, NO_PLAIN; }
      var probe := LoadSlot(active);
      if probe.Unread? { return StorageReadFailed, NO_PLAIN; }
      if !probe.Opened? || probe.generation != generation || probe.version != CURRENT { return StorageCorrupt, NO_PLAIN; }
      result, plain := Ok, probe.plain;
    }

    /** The scan of `begin`: every slot is loaded, a failed read ends it. */
    method LoadSlots() returns (probes: Option<seq<Probe>>)
      requires Valid()
      modifies this`device
      ensures Valid() && (device, probes) == LoadAll(trust, old(device), SLOTS)
    {
      hide Load;
      ghost var start := device;
      var slot, found := 0, [];
      while slot < SLOTS
        invariant 0 <= slot <= SLOTS && Valid()
        invariant LoadAll(trust, start, slot) == (device, Some(found))
      {
        var probe := LoadSlot(slot);
        slot := slot + 1;
        if probe.Unread? {
          StopsAt(trust, start, slot, SLOTS);
          return None;
        }
        found := found + [probe];
      }
      probes := Some(found);
    }

    method ChooseNewest(probes: seq<Probe>) returns (chosen: int)
      requires |probes| == SLOTS
      ensures chosen == Newest(probes, SLOTS)
    {
      chosen := -1;
      var slot := 0;
      while slot < SLOTS
        invariant 0 <= slot <= SLOTS && chosen == Newest(probes, slot)
      {
        if probes[slot].Opened? && (chosen < 0 || After32(probes[slot].generation, probes[chosen].generation)) {
          chosen := slot;
        }
        slot := slot + 1;
      }
    }

    method AdoptChosen(probes: seq<Probe>) returns (result: Result)
      requires Valid() && |probes| == SLOTS
      modifies this
      ensures Valid() && (Now(), result) == Adopt(trust, old(Now()), probes)
    {
      hide Load, Persist, Newest, Upgrade;
      var chosen := ChooseNewest(probes);
      if chosen < 0 {
        if exists i :: 0 <= i < SLOTS && !probes[i].Nothing? { return StorageCorrupt; }
        begun := true;
        return Ok;
      }
      var probe := LoadSlot(chosen);
      if !probe.Opened? { return StorageCorrupt; }
      active, generation, begun := chosen, probe.generation, true;
      if probe.version == LEGACY {
        if probe.generation == GENERATION_MAX { return CryptoFailed; }
        result := PersistPlain(Upgrade(probe.plain), probe.generation + 1);
        return;
      }
      resident := Decode(probe.plain);
      result := Ok;
    }

    /** `begin`. */
    method Start(available: bool, ready: bool) returns (result: Result)
      requires Valid()
      modifies this
      ensures Valid() && (Now(), result) == Begin(trust, old(Now()), available, ready)
    {
      hide Quiet, LoadAll, Adopt;
      begun, active, generation, resident := false, -1, 0, NO_RESIDENT;
      if !available { return StorageUnavailable; }
      if !ready { return SecurityUnavailable; }
      var buffers := Platform();
      if !buffers { return StorageAllocationFailed; }
      var probes := LoadSlots();
      if probes == None { return StorageReadFailed; }
      result := AdoptChosen(probes.value);
    }

    method EditActive(edit: Plain -> Plain) returns (result: Result)
      requires Valid() && generation < GENERATION_MAX
      modifies this
      ensures Valid() && (Now(), result) == Edit(trust, old(Now()), edit)
    {
      hide LoadActive, Persist;
      var plain;
      result, plain := LoadActivePlain();
      if result != Ok { return; }
      result := PersistPlain(edit(plain), generation + 1);
    }

    method UpdateActive(edit: Plain -> Plain) returns (result: Result)
      requires Valid() && generation < GENERATION_MAX
      modifies this
      ensures Valid() && (Now(), result) == Update(trust, old(Now()), edit)
    {
      hide Quiet, Edit;
      var buffers := Platform();
      if !buffers { return StorageAllocationFailed; }
      result := EditActive(edit);
    }

    /** `commitWifi`. */
    method StoreWifi(config: Wifi) returns (result: Result)
      requires Valid()
      modifies this
      ensures Valid() && (Now(), result) == CommitWifi(trust, old(Now()), config)
    {
      hide Update;
      if !begun { return NotBegun; }
      if !trust.wifi(config) { return InvalidArgument; }
      if generation == GENERATION_MAX { return CryptoFailed; }
      result := UpdateActive(p => SetWifi(p, config));
    }

    /** `commitGateway`. */
    method StoreGateway(config: Gateway, mobileRelay: bool, bootstrapPort: nat) returns (result: Result)
      requires Valid()
      modifies this
      ensures Valid() && (Now(), result) == CommitGateway(trust, old(Now()), config, mobileRelay, bootstrapPort)
    {
      hide Update, GatewayValid;
      if !begun { return NotBegun; }
      if !GatewayValid(trust, config, mobileRelay, bootstrapPort) { return InvalidArgument; }
      if generation == GENERATION_MAX { return CryptoFailed; }
      result := UpdateActive(p => SetGateway(p, config, mobileRelay, bootstrapPort));
    }

    /** `commitEnrollmentCredential`. */
    method StoreEnrollment(e: Enrollment) returns (result: Result)
      requires Valid()
      modifies this
      ensures Valid() && (Now(), result) == CommitEnrollment(trust, old(Now()), e)
    {
      hide Update, ChainFits;
      if !begun || !resident.flags.gateway || e.keyVersion == 0 || !(0 < |e.certificate| <= CERTIFICATE_MAXIMUM)
         || AllZero(e.secret) || AllZero(e.companion) || AllZero(e.privateKey) || e.gateway != resident.gateway.id
         || generation == GENERATION_MAX || !ChainFits(e.chain) {
        return EnrollmentInvalid;
      }
      if !trust.chain(resident.gateway.ca, e.certificate, e.chain) { return EnrollmentTrustFailed; }
      result := UpdateActive(p => SetEnrollment(p, e));
    }

    /** The scrub: every non-empty slot but the active one is erased and read back. */
    method ScrubSlots() returns (result: Result)
      requires Valid()
      modifies this`device
      ensures Valid() && (Now(), result) == ScrubOthers(old(Now()))
    {
      hide Quiet, Write;
      if active < 0 { return Ok; }
      ghost var start := device;
      var slot := 0;
      while slot < SLOTS
        invariant 0 <= slot <= SLOTS && Valid()
        invariant Scrub(start, active, 0) == Scrub(device, active, slot)
      {
        if slot != active {
          var read := Platform();
          if !read { return StorageReadFailed; }
          if !device.slots[slot].Empty? {
            var written := WriteSlot(slot, Empty);
            if !written { return StorageWriteFailed; }
            var again := Platform();
            if !again || !device.slots[slot].Empty? { return StorageReadbackFailed; }
          }
        }
        slot := slot + 1;
      }
      result := Ok;
    }

    /** `forgetMobileRelayGateway`. */
    method ForgetGateway(expected: seq<byte>) returns (result: Result)
      requires Valid()
      modifies this
      ensures Valid() && (Now(), result) == Forget(trust, old(Now()), expected)
    {
      hide Quiet, Edit, ScrubOthers;
      if !begun { return NotBegun; }
      if AllZero(expected) { return InvalidArgument; }
      if resident.flags.gateway {
        if !resident.flags.mobileRelay { return InvalidArgument; }
        if resident.gateway.id != expected { return InvalidGatewayId; }
        if generation == GENERATION_MAX { return CryptoFailed; }
      }
      var configured := resident.flags.gateway;
      var buffers := Platform();
      if !buffers { return StorageAllocationFailed; }
      if configured {
        result := EditActive(p => Cleared(p));
        if result != Ok { return; }
      }
      result := ScrubSlots();
    }
  }

  /** The first failing read is the last. */
  lemma {:induction false} StopsAt(t: Trust, d: Device, k: nat, n: nat)
    requires k <= n <= |d.slots| && LoadAll(t, d, k).1 == None
    ensures LoadAll(t, d, n) == LoadAll(t, d, k)
  {
    if k < n { StopsAt(t, d, k, n - 1); }
  }
}
