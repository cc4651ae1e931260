/** The two-slot store of device secret and controller roots, and its revoke-and-retire transaction.  Sealing is abstract:
    a slot opens exactly when it holds a complete record.  Every storage or crypto call takes its outcome from a plan,
    which lists where calls fail and where the power is cut. */
module DeviceSecurity {
  import opened Bytes

  const CONTROLLERS: nat := 4

  datatype Role = Owner | Caretaker

  datatype Controller = Controller(valid: bool, role: Role, id: seq<byte>, root: seq<byte>)

  const NO_CONTROLLER: Controller := Controller(false, Owner, Repeat<byte>(0, 16), Repeat<byte>(0, 32))
  const NO_CONTROLLERS: seq<Controller> := Repeat(NO_CONTROLLER, CONTROLLERS)

  /** `pending`: the previous slot still has to be retired. */
  datatype Material = Material(deviceId: seq<byte>, secret: seq<byte>, controllers: seq<Controller>, pending: bool)

  const NO_MATERIAL: Material := Material(Repeat<byte>(0, 16), Repeat<byte>(0, 32), NO_CONTROLLERS, false)

  /** `retired`: the record still carries the network key or counters of an older firmware.
      `readable`: its role bytes decode. */
  datatype Slot = Empty | Garbage | Sealed(generation: u32, material: Material, retired: bool, readable: bool)

  datatype Fate = Kept | Applied | Ruined
  datatype Outcome = Done | Lost(survives: bool, fate: Fate)

  datatype Device = Device(slots: seq<Slot>, plan: seq<Outcome>, alive: bool)

  datatype Ram = Ram(begun: bool, active: int, generation: u32, material: Material)

  const NO_RAM: Ram := Ram(false, -1, 0, NO_MATERIAL)

  datatype State = State(d: Device, r: Ram)

  datatype Result =
    | Ok | OkReflashable | NotBegun | InvalidArgument | SecurityModeUnavailable | WrappingRootUnavailable
    | StorageReadFailed | StorageWriteFailed | ReadbackFailed | CorruptStorage | CryptoFailed | AuthorizationRequired
    | ControllerNotProvisioned | ControllerTableFull

  /** Every record has four controller entries. */
  predicate FourEntries(s: Slot) {
    s.Sealed? ==> |s.material.controllers| == CONTROLLERS
  }

  predicate Shape(s: State) {
    && |s.d.slots| == 2 && FourEntries(s.d.slots[0]) && FourEntries(s.d.slots[1])
    && -1 <= s.r.active <= 1 && |s.r.material.controllers| == CONTROLLERS
  }

  // ----- storage and platform calls -----

  function Call(d: Device): (r: (Device, Outcome))
    ensures r.0.slots == d.slots && (!d.alive ==> r == (d, Lost(false, Kept)))
  {
    if !d.alive then (d, Lost(false, Kept))
    else if d.plan == [] then (d, Done)
    else (d.(plan := d.plan[1..], alive := d.plan[0].Done? || d.plan[0].survives), d.plan[0])
  }

  /** A call without effect on the slots: randomness, sealing, key derivation, a read. */
  function Plain(d: Device): (r: (Device, bool))
    ensures r.0.slots == d.slots
  {
    var (d1, o) := Call(d);
    (d1, o.Done?)
  }

  /** `writeSlot` and `clearSlot`. */
  function Write(d: Device, i: nat, content: Slot): (r: (Device, bool))
    requires i < |d.slots|
    ensures |r.0.slots| == |d.slots| && r.0.slots == d.slots[i := r.0.slots[i]]
    ensures r.0.slots[i] in {d.slots[i], Garbage, content}
    ensures r.1 ==> r.0.slots[i] == content
  {
    var (d1, o) := Call(d);
    match o
    case Done => (d1.(slots := d1.slots[i := content]), true)
    case Lost(_, fate) =>
      var left := match fate case Kept => d.slots[i] case Applied => content case Ruined => Garbage;
      (d1.(slots := d1.slots[i := left]), false)
  }

  datatype Probe = Unread | Nothing | Broken | Opened(generation: u32, material: Material, retired: bool, readable: bool)

  function Seen(s: Slot): Probe {
    match s
    case Empty => Nothing
    case Garbage => Broken
    case Sealed(g, m, retired, readable) => Opened(g, m, retired, readable)
  }

  /** `validateSlot`. */
  function Validate(d: Device, i: nat): (r: (Device, Probe))
    requires i < |d.slots|
    ensures r.0.slots == d.slots && (r.1.Unread? || r.1 == Seen(d.slots[i]))
  {
    var (d1, ok) := Plain(d);
    (d1, if ok then Seen(d.slots[i]) else Unread)
  }

  // ----- transactions -----

  function Next(generation: u32): u32 {
    (generation + 1) % TWO_32
  }

  function Other(active: int): (i: nat)
    ensures i < 2 && i != active
  {
    if active == 0 then 1 else 0
  }

  /** `encode`: randomness for the nonce, then the seal. */
  function Encode(d: Device): (r: (Device, bool))
    ensures r.0.slots == d.slots
  {
    var (d1, nonce) := Plain(d);
    if !nonce then (d1, false) else Plain(d1)
  }

  /** `persist`: the next generation goes to the slot that is not active. */
  function Persist(s: State): (o: (State, Result))
    requires Shape(s)
    ensures Shape(o.0) && o.1 != OkReflashable
  {
    hide Encode, Write, Validate;
    var (d1, sealed) := Encode(s.d);
    if !sealed then (s.(d := d1), CryptoFailed)
    else
      var i, g := Other(s.r.active), Next(s.r.generation);
      var (d2, written) := Write(d1, i, Sealed(g, s.r.material, false, true));
      if !written then (s.(d := d2), StorageWriteFailed)
      else
        var (d3, probe) := Validate(d2, i);
        if !probe.Opened? || probe.generation != g then (s.(d := d3), ReadbackFailed)
        else (State(d3, s.r.(active := i, generation := g)), Ok)
  }

  function SetPending(s: State, pending: bool): State {
    s.(r := s.r.(material := s.r.material.(pending := pending)))
  }

  /** `retirePreviousSlot`. */
  function Retire(s: State): (o: (State, Result))
    requires Shape(s)
    ensures Shape(o.0) && o.1 != OkReflashable
  {
    hide Write, Validate, Persist;
    if !s.r.material.pending then (s, Ok)
    else if s.r.active < 0 then (s, NotBegun)
    else
      var i := Other(s.r.active);
      var (d1, cleared) := Write(s.d, i, Empty);
      if !cleared then (s.(d := d1), StorageWriteFailed)
      else
        var (d2, probe) := Validate(d1, i);
        if probe.Unread? then (s.(d := d2), StorageReadFailed)
        else if !probe.Nothing? then (s.(d := d2), ReadbackFailed)
        else
          var (s3, result) := Persist(SetPending(s.(d := d2), false));
          if result != Ok then (SetPending(s3, true), result) else (s3, Ok)
  }

  /** The slot `begin` chooses, -1 if none opens. */
  function Newest(p0: Probe, p1: Probe): (i: int)
    ensures -1 <= i <= 1 && (i == 0 ==> p0.Opened?) && (i == 1 ==> p1.Opened?)
  {
    if p1.Opened? && (!p0.Opened? || After32(p1.generation, p0.generation)) then 1
    else if p0.Opened? then 0 else -1
  }

  /** The first material of a new device. */
  function Create(s: State, deviceId: seq<byte>, secret: seq<byte>): (o: (State, Result))
    requires Shape(s)
    ensures Shape(o.0)
  {
    hide Plain, Persist;
    var (d1, named) := Plain(s.d);
    if !named then (s.(d := d1), CryptoFailed)
    else
      var (d2, keyed) := Plain(d1);
      if !keyed then (s.(d := d2), CryptoFailed)
      else
        var (s3, result) := Persist(State(d2, Ram(true, -1, 0, Material(deviceId, secret, NO_CONTROLLERS, false))));
        if result != Ok then (s3.(r := s3.r.(begun := false)), result) else (s3, OkReflashable)
  }

  /** `begin` finishes an interrupted retirement and replaces a record that carries retired material. */
  function Migrate(s: State, retired: bool): (o: (State, Result))
    requires Shape(s)
    ensures Shape(o.0)
  {
    hide Persist, Retire;
    var (s1, resumed) := Retire(s);
    if resumed != Ok then (s1.(r := NO_RAM), resumed)
    else if !retired then (s1.(r := s1.r.(begun := true)), OkReflashable)
    else
      var (s2, migrated) := Persist(SetPending(s1, true));
      if migrated != Ok then (s2.(r := NO_RAM), migrated)
      else
        var (s3, finished) := Retire(s2);
        if finished != Ok then (s3.(r := NO_RAM), finished) else (s3.(r := s3.r.(begun := true)), OkReflashable)
  }

  /** `begin` once both slots have been looked at. */
  function Adopt(s: State, p0: Probe, p1: Probe, deviceId: seq<byte>, secret: seq<byte>): (o: (State, Result))
    requires Shape(s) && p0 == Seen(s.d.slots[0]) && p1 == Seen(s.d.slots[1])
    ensures Shape(o.0)
  {
    hide Validate, Create, Migrate;
    var i := Newest(p0, p1);
    if i < 0 then
      if !p0.Nothing? || !p1.Nothing? then (s, CorruptStorage) else Create(s, deviceId, secret)
    else
      var (d1, probe) := Validate(s.d, i);
      if !probe.Opened? || !probe.readable then (s.(d := d1), CorruptStorage)
      else Migrate(State(d1, Ram(false, i, probe.generation, probe.material)), probe.retired)
  }

  /** `begin` after a reset. */
  function Begin(s: State, reflashable: bool, deviceId: seq<byte>, secret: seq<byte>): (o: (State, Result))
    requires Shape(s)
    ensures Shape(o.0)
  {
    hide Validate, Adopt, Plain;
    var s0 := s.(r := NO_RAM);
    if !reflashable then (s0, SecurityModeUnavailable)
    else
      var (d1, derived) := Plain(s0.d);
      if !derived then (s0.(d := d1), WrappingRootUnavailable)
      else
        var (d2, p0) := Validate(d1, 0);
        if p0.Unread? then (s0.(d := d2), StorageReadFailed)
        else
          var (d3, p1) := Validate(d2, 1);
          if p1.Unread? then (s0.(d := d3), StorageReadFailed)
          else Adopt(s0.(d := d3), p0, p1, deviceId, secret)
  }

  /** First valid entry for `id` at or after `i`, else 4. */
  function Find(controllers: seq<Controller>, id: seq<byte>, i: nat): (k: nat)
    requires i <= |controllers|
    ensures i <= k <= |controllers|
    ensures k < |controllers| ==> controllers[k].valid && controllers[k].id == id
    ensures forall j :: i <= j < k ==> !(controllers[j].valid && controllers[j].id == id)
    decreases |controllers| - i
  {
    if i == |controllers| || (controllers[i].valid && controllers[i].id == id) then i else Find(controllers, id, i + 1)
  }

  function FirstFree(controllers: seq<Controller>, i: nat): (k: nat)
    requires i <= |controllers|
    ensures i <= k <= |controllers| && (k < |controllers| ==> !controllers[k].valid)
    ensures forall j :: i <= j < k ==> controllers[j].valid
    decreases |controllers| - i
  {
    if i == |controllers| || !controllers[i].valid then i else FirstFree(controllers, i + 1)
  }

  /** Where a pairing goes: the controller's own entry, else a free one, else none (4). */
  function Place(controllers: seq<Controller>, id: seq<byte>): (k: nat)
    ensures k <= |controllers|
  {
    var k := Find(controllers, id, 0);
    if k < |controllers| then k else FirstFree(controllers, 0)
  }

  function WithControllers(s: State, controllers: seq<Controller>, pending: bool): State {
    s.(r := s.r.(material := s.r.material.(controllers := controllers, pending := pending)))
  }

  predicate AllZero(s: seq<byte>) {
    forall i :: 0 <= i < |s| ==> s[i] == 0
  }

  /** `commitControllerAfterPairing`; `authorized` is the conjunction of its five link and confirmation flags. */
  function Commit(s: State, id: seq<byte>, root: seq<byte>, role: Option<Role>, authorized: bool): (o: (State, Result))
    requires Shape(s)
    ensures Shape(o.0)
  {
    hide Persist, Place;
    if !s.r.begun then (s, NotBegun)
    else if role == None then (s, InvalidArgument)
    else if !authorized then (s, AuthorizationRequired)
    else if AllZero(id) || AllZero(root) then (s, InvalidArgument)
    else
      var m := s.r.material;
      var k := Place(m.controllers, id);
      if k == CONTROLLERS then (s, ControllerTableFull)
      else
        var (s1, result) :=
          Persist(WithControllers(s, m.controllers[k := Controller(true, role.value, id, root)], m.pending));
        (if result != Ok then WithControllers(s1, m.controllers, m.pending) else s1, result)
  }

  /** Replaces the controllers and retires the slot that still has the old ones. */
  function Replace(s: State, controllers: seq<Controller>): (o: (State, Result))
    requires Shape(s) && |controllers| == CONTROLLERS
    ensures Shape(o.0)
  {
    hide Persist, Retire;
    var (s1, persisted) := Persist(WithControllers(s, controllers, true));
    if persisted != Ok then (WithControllers(s1, s.r.material.controllers, false), persisted) else Retire(s1)
  }

  /** `revokeController`. */
  function Revoke(s: State, id: seq<byte>): (o: (State, Result))
    requires Shape(s)
    ensures Shape(o.0)
  {
    hide Retire, Replace, Find;
    var pending := s.r.material.pending;
    var (s1, resumed) := Retire(s);
    if resumed != Ok then (s1, resumed)
    else
      var controllers := s1.r.material.controllers;
      var k := Find(controllers, id, 0);
      if k == CONTROLLERS then (s1, if pending then Ok else ControllerNotProvisioned)
      else Replace(s1, controllers[k := NO_CONTROLLER])
  }

  predicate AnyValid(controllers: seq<Controller>) {
    exists i :: 0 <= i < |controllers| && controllers[i].valid
  }

  /** `revokeAllControllersAfterPhysicalConfirmation` behind its checks. */
  function RevokeAll(s: State): (o: (State, Result))
    requires Shape(s)
    ensures Shape(o.0)
  {
    hide Retire, Replace;
    var (s1, resumed) := Retire(s);
    if resumed != Ok then (s1, resumed)
    else if !AnyValid(s1.r.material.controllers) then (s1, Ok)
    else Replace(s1, NO_CONTROLLERS)
  }

  datatype Event =
    | Reset(plan: seq<Outcome>, reflashable: bool, deviceId: seq<byte>, secret: seq<byte>)
    | Pair(id: seq<byte>, root: seq<byte>, role: Option<Role>, authorized: bool)
    | RevokeOne(id: seq<byte>, confirmed: bool)
    | RevokeEvery(confirmed: bool)
    | Damage(slot: nat, emptied: bool)

  /** One event in the life of a device: a request, a reset, or the loss of a slot. */
  function Step(s: State, e: Event): (o: (State, Result))
    requires Shape(s)
    ensures Shape(o.0)
  {
    hide Begin, Commit, Revoke, RevokeAll;
    match e
    case Reset(plan, reflashable, deviceId, secret) =>
      Begin(s.(d := s.d.(plan := plan, alive := true)), reflashable, deviceId, secret)
    case Pair(id, root, role, authorized) => Commit(s, id, root, role, authorized)
    case RevokeOne(id, confirmed) =>
      if !s.r.begun then (s, NotBegun) else if !confirmed then (s, AuthorizationRequired) else Revoke(s, id)
    case RevokeEvery(confirmed) =>
      if !s.r.begun then (s, NotBegun) else if !confirmed then (s, AuthorizationRequired) else RevokeAll(s)
    case Damage(slot, emptied) =>
      (s.(d := s.d.(slots := s.d.slots[slot % 2 := if emptied then Empty else Garbage])), Ok)
  }
}
