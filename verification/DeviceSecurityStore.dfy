/** The controller store in its own form: one object that edits its material in place and writes it to two slots. */
module DeviceSecurityStore {
  import opened Bytes
  import opened DeviceSecurity

  class KitsuDeviceSecurity {
    var device: Device
    var begun: bool
    var active: int
    var generation: u32
    var material: Material

    ghost function Now(): State
      reads this
    {
      State(device, Ram(begun, active, generation, material))
    }

    ghost predicate Valid()
      reads this
    {
      Shape(Now())
    }

    constructor (device: Device)
      requires Shape(State(device, NO_RAM))
      ensures Valid() && Now() == State(device, NO_RAM)
    {
      this.device, begun, active, generation, material := device, false, -1, 0, NO_MATERIAL;
    }

    method Clear()
      requires Valid()
      modifies this
      ensures Valid() && Now() == State(old(device), NO_RAM)
    {
      begun, active, generation, material := false, -1, 0, NO_MATERIAL;
    }

    method Platform() returns (ok: bool)
      modifies this`device
      ensures (device, ok) == Plain(old(device))
    {
      var (d, done) := Plain(device);
      device, ok := d, done;
    }

    method ValidateSlot(slot: nat) returns (probe: Probe)
      requires Valid() && slot < 2
      modifies this`device
      ensures Valid() && (device, probe) == Validate(old(device), slot)
    {
      var (d, p) := Validate(device, slot);
      device, probe := d, p;
    }

    method WriteSlot(slot: nat, content: Slot) returns (ok: bool)
      requires Valid() && slot < 2 && FourEntries(content)
      modifies this`device
      ensures Valid() && (device, ok) == Write(old(device), slot, content)
    {
      var (d, done) := Write(device, slot, content);
      device, ok := d, done;
    }

    method EncodeRecord() returns (ok: bool)
      requires Valid()
      modifies this`device
      ensures Valid() && (device, ok) == Encode(old(device))
    {
      ok := Platform();
      if ok { ok := Platform(); }
    }

    /** `persist`. */
    method PersistMaterial() returns (result: Result)
      requires Valid()
      modifies this`device, this`active, this`generation
      ensures Valid() && (Now(), result) == Persist(old(Now()))
    {
      hide Encode, Write, Validate;
      var nextGeneration := (generation + 1) % TWO_32;
      var encoded := EncodeRecord();
      if !encoded { return CryptoFailed; }
      var target := Other(active);
      var written := WriteSlot(target, Sealed(nextGeneration, material, false, true));
      if !written { return StorageWriteFailed; }
      var probe := ValidateSlot(target);
      if !probe.Opened? || probe.generation != nextGeneration { return ReadbackFailed; }
      active, generation := target, nextGeneration;
      result := Ok;
    }

    /** `retirePreviousSlot`. */
    method RetirePreviousSlot() returns (result: Result)
      requires Valid()
      modifies this
      ensures Valid() && (Now(), result) == Retire(old(Now()))
    {
      hide Persist, Write, Validate;
      if !material.pending { return Ok; }
      if active < 0 { return NotBegun; }
      var retired := Other(active);
      var cleared := WriteSlot(retired, Empty);
      if !cleared { return StorageWriteFailed; }
      var probe := ValidateSlot(retired);
      if probe.Unread? { return StorageReadFailed; }
      if !probe.Nothing? { return ReadbackFailed; }
      material := material.(pending := false);
      result := PersistMaterial();
      if result != Ok { material := material.(pending := true); }
    }

    method CreateMaterial(deviceId: seq<byte>, secret: seq<byte>) returns (result: Result)
      requires Valid() && Now().r == NO_RAM
      modifies this
      ensures Valid() && (Now(), result) == Create(old(Now()), deviceId, secret)
    {
      hide Plain, Persist;
      var named := Platform();
      if !named { return CryptoFailed; }
      var keyed := Platform();
      if !keyed { return CryptoFailed; }
      material := material.(deviceId := deviceId, secret := secret);
      begun := true;
      result := PersistMaterial();
      if result != Ok {
        begun := false;
        return;
      }
      result := OkReflashable;
    }

    method FinishBegin(retired: bool) returns (result: Result)
      requires Valid()
      modifies this
      ensures Valid() && (Now(), result) == Migrate(old(Now()), retired)
    {
      hide Retire, Persist;
      result := RetirePreviousSlot();
      if result != Ok {
        Clear();
        return;
      }
      if retired {
        material := material.(pending := true);
        result := PersistMaterial();
        if result == Ok { result := RetirePreviousSlot(); }
        if result != Ok {
          Clear();
          return;
        }
      }
      begun := true;
      result := OkReflashable;
    }

    method LoadChosen(p0: Probe, p1: Probe, deviceId: seq<byte>, secret: seq<byte>) returns (result: Result)
      requires Valid() && Now().r == NO_RAM && p0 == Seen(device.slots[0]) && p1 == Seen(device.slots[1])
      modifies this
      ensures Valid() && (Now(), result) == Adopt(old(Now()), p0, p1, deviceId, secret)
    {
      hide Create, Migrate, Validate;
      var chosen := -1;
      if p0.Opened? { chosen := 0; }
      if p1.Opened? && (chosen < 0 || After32(p1.generation, p0.generation)) { chosen := 1; }
      assert chosen == Newest(p0, p1);
      if chosen < 0 {
        if !p0.Nothing? || !p1.Nothing? { return CorruptStorage; }
        result := CreateMaterial(deviceId, secret);
        return;
      }
      var probe := ValidateSlot(chosen);
      if !probe.Opened? || !probe.readable { return CorruptStorage; }
      material, active, generation := probe.material, chosen, probe.generation;
      result := FinishBegin(probe.retired);
    }

    /** `begin`. */
    method Start(reflashable: bool, deviceId: seq<byte>, secret: seq<byte>) returns (result: Result)
      requires Valid()
      modifies this
      ensures Valid() && (Now(), result) == Begin(old(Now()), reflashable, deviceId, secret)
    {
      hide Plain, Validate, Adopt;
      Clear();
      if !reflashable { return SecurityModeUnavailable; }
      var derived := Platform();
      if !derived { return WrappingRootUnavailable; }
      var p0 := ValidateSlot(0);
      if p0.Unread? { return StorageReadFailed; }
      var p1 := ValidateSlot(1);
      if p1.Unread? { return StorageReadFailed; }
      result := LoadChosen(p0, p1, deviceId, secret);
    }

    /** The table scan of pairing and revocation. */
    method FindController(id: seq<byte>) returns (k: nat)
      requires Valid()
      ensures k == Find(material.controllers, id, 0)
    {
      k := 0;
      while k < CONTROLLERS
        invariant 0 <= k <= CONTROLLERS
        invariant Find(material.controllers, id, 0) == Find(material.controllers, id, k)
      {
        if material.controllers[k].valid && material.controllers[k].id == id { return; }
        k := k + 1;
      }
    }

    method FindFree() returns (k: nat)
      requires Valid()
      ensures k == FirstFree(material.controllers, 0)
    {
      k := 0;
      while k < CONTROLLERS
        invariant 0 <= k <= CONTROLLERS
        invariant FirstFree(material.controllers, 0) == FirstFree(material.controllers, k)
      {
        if !material.controllers[k].valid { return; }
        k := k + 1;
      }
    }

    /** `commitControllerAfterPairing`. */
    method CommitController(id: seq<byte>, root: seq<byte>, role: Option<Role>, authorized: bool) returns (result: Result)
      requires Valid()
      modifies this
      ensures Valid() && (Now(), result) == Commit(old(Now()), id, root, role, authorized)
    {
      hide Persist, Find, FirstFree;
      if !begun { return NotBegun; }
      if role == None { return InvalidArgument; }
      if !authorized { return AuthorizationRequired; }
      if AllZero(id) || AllZero(root) { return InvalidArgument; }
      var target := FindController(id);
      if target == CONTROLLERS { target := FindFree(); }
      if target == CONTROLLERS { return ControllerTableFull; }
      var previous := material.controllers[target];
      material := material.(controllers := material.controllers[target := Controller(true, role.value, id, root)]);
      result := PersistMaterial();
      if result != Ok {
        material := material.(controllers := material.controllers[target := previous]);
        assert material.controllers == old(material).controllers;
      }
    }

    method ReplaceControllers(controllers: seq<Controller>) returns (result: Result)
      requires Valid() && |controllers| == CONTROLLERS
      modifies this
      ensures Valid() && (Now(), result) == Replace(old(Now()), controllers)
    {
      hide Persist, Retire;
      var previous := material.controllers;
      material := material.(controllers := controllers, pending := true);
      result := PersistMaterial();
      if result != Ok {
        material := material.(controllers := previous, pending := false);
        return;
      }
      result := RetirePreviousSlot();
    }

    /** `revokeController`. */
    method RevokeController(id: seq<byte>) returns (result: Result)
      requires Valid()
      modifies this
      ensures Valid() && (Now(), result) == Revoke(old(Now()), id)
    {
      hide Retire, Replace, Find;
      RetireIdle(Now());
      var resumedRetirement := false;
      if material.pending {
        result := RetirePreviousSlot();
        if result != Ok { return; }
        resumedRetirement := true;
      }
      var target := FindController(id);
      if target == CONTROLLERS { return if resumedRetirement then Ok else ControllerNotProvisioned; }
      result := ReplaceControllers(material.controllers[target := NO_CONTROLLER]);
    }

    /** `revokeAllControllersAfterPhysicalConfirmation` behind its checks. */
    method RevokeAllControllers() returns (result: Result)
      requires Valid()
      modifies this
      ensures Valid() && (Now(), result) == RevokeAll(old(Now()))
    {
      hide Retire, Replace;
      RetireIdle(Now());
      if material.pending {
        result := RetirePreviousSlot();
        if result != Ok { return; }
      }
      var i, anyController := 0, false;
      while i < CONTROLLERS
        invariant 0 <= i <= CONTROLLERS
        invariant anyController <==> exists k :: 0 <= k < i && material.controllers[k].valid
      {
        anyController := anyController || material.controllers[i].valid;
        i := i + 1;
      }
      if !anyController { return Ok; }
      result := ReplaceControllers(NO_CONTROLLERS);
    }
  }

  lemma RetireIdle(s: State)
    requires Shape(s)
    ensures !s.r.material.pending ==> Retire(s) == (s, Ok)
  {
  }
}
