/** The eight-slot store of Wi-Fi, gateway and enrollment settings.  Each change goes to the next slot as a new
    generation; forgetting a gateway then erases every other slot.  Sealing is abstract and every call takes its outcome
    from a plan, as in the controller store. */
module ConnectionStore {
  import opened Bytes

  const SLOTS: nat := 8
  const LEGACY: nat := 1
  const CURRENT: nat := 2
  const LEGACY_BOOTSTRAP_PORT: nat := 7442
  const LEGACY_STEADY_PORT: nat := 7443
  const CA_MAXIMUM: nat := 8192
  const CERTIFICATE_MAXIMUM: nat := 4096
  const CHAIN_MAXIMUM: nat := 4
  const GENERATION_MAX: nat := TWO_32 - 1

  datatype Wifi = Wifi(ssid: seq<byte>, passphrase: seq<byte>, security: nat)
  datatype Gateway = Gateway(id: seq<byte>, host: seq<byte>, port: nat, serverName: seq<byte>, ca: seq<byte>, spki: seq<byte>)
  datatype Enrollment = Enrollment(companion: seq<byte>, gateway: seq<byte>, keyVersion: nat, privateKey: seq<byte>,
                                   secret: seq<byte>, certificate: seq<byte>, chain: seq<seq<byte>>)

  const NO_WIFI: Wifi := Wifi([], [], 0)
  const NO_GATEWAY: Gateway := Gateway([], [], 0, [], [], [])
  const NO_ENROLLMENT: Enrollment := Enrollment([], [], 0, [], [], [], [])

  datatype Flags = Flags(wifi: bool, gateway: bool, enrollment: bool, mobileRelay: bool)

  /** One snapshot: flags and the regions they announce. */
  datatype Plain = Plain(flags: Flags, wifi: Wifi, gateway: Gateway, enrollment: Enrollment, bootstrapPort: nat)

  const NO_PLAIN: Plain := Plain(Flags(false, false, false, false), NO_WIFI, NO_GATEWAY, NO_ENROLLMENT, 0)

  datatype Slot = Empty | Garbage | Sealed(generation: u32, version: nat, plain: Plain)

  datatype Fate = Kept | Applied | Ruined
  datatype Outcome = Done | Lost(survives: bool, fate: Fate)

  datatype Device = Device(slots: seq<Slot>, plan: seq<Outcome>, alive: bool)

  /** What RAM keeps of the active snapshot: its flags and, when there is one, the gateway. */
  datatype Resident = Resident(flags: Flags, gateway: Gateway, bootstrapPort: nat)

  const NO_RESIDENT: Resident := Resident(NO_PLAIN.flags, NO_GATEWAY, 0)

  datatype Ram = Ram(begun: bool, active: int, generation: u32, resident: Resident)

  const NO_RAM: Ram := Ram(false, -1, 0, NO_RESIDENT)

  datatype State = State(d: Device, r: Ram)

  datatype Result =
    | Ok | NotBegun | InvalidArgument | InvalidGatewayId | SecurityUnavailable | StorageUnavailable | StorageReadFailed
    | StorageWriteFailed | StorageReadbackFailed | StorageAllocationFailed | StorageCorrupt | CryptoFailed
    | EnrollmentInvalid | EnrollmentTrustFailed

  /** Text syntax of Wi-Fi and host names, and certificate validation, stay uninterpreted. */
  datatype Trust = Trust(wifi: Wifi -> bool, host: seq<byte> -> bool, serverName: seq<byte> -> bool, ca: seq<byte> -> bool,
                         chain: (seq<byte>, seq<byte>, seq<seq<byte>>) -> bool)

  predicate Shape(s: State) {
    |s.d.slots| == SLOTS && -1 <= s.r.active < SLOTS
  }

  predicate AllZero(s: seq<byte>) {
    forall i :: 0 <= i < |s| ==> s[i] == 0
  }

  // ----- what a snapshot must satisfy -----

  function TotalBytes(chain: seq<seq<byte>>): nat {
    if chain == [] then 0 else |chain[0]| + TotalBytes(chain[1..])
  }

  predicate ChainFits(chain: seq<seq<byte>>) {
    && 0 < |chain| <= CHAIN_MAXIMUM
    && (forall i :: 0 <= i < |chain| ==> 0 < |chain[i]| <= CERTIFICATE_MAXIMUM)
    && TotalBytes(chain) <= CHAIN_MAXIMUM * CERTIFICATE_MAXIMUM
  }

  /** A relay gateway has no address; any other one has two distinct ports, names and a pin. */
  predicate TransportValid(t: Trust, g: Gateway, mobileRelay: bool, bootstrapPort: nat) {
    if mobileRelay then g.host == [] && g.port == 0 && bootstrapPort == 0 && g.serverName == [] && AllZero(g.spki)
    else
      t.host(g.host) && g.port != 0 && bootstrapPort != 0 && bootstrapPort != g.port && t.serverName(g.serverName)
      && !AllZero(g.spki)
  }

  predicate GatewayValid(t: Trust, g: Gateway, mobileRelay: bool, bootstrapPort: nat) {
    && !AllZero(g.id) && 0 < |g.ca| <= CA_MAXIMUM && t.ca(g.ca)
    && TransportValid(t, g, mobileRelay, bootstrapPort)
  }

  predicate EnrollmentValid(t: Trust, e: Enrollment, g: Gateway) {
    && !AllZero(e.companion) && e.gateway == g.id && e.keyVersion != 0 && !AllZero(e.privateKey)
    && 0 < |e.certificate| <= CERTIFICATE_MAXIMUM && ChainFits(e.chain) && t.chain(g.ca, e.certificate, e.chain)
  }

  /** The first record version had no bootstrap port: only the deployed steady port implies one. */
  function EffectivePort(p: Plain, version: nat): nat {
    if version == LEGACY then (if p.gateway.port == LEGACY_STEADY_PORT then LEGACY_BOOTSTRAP_PORT else 0) else p.bootstrapPort
  }

  /** `validatePlain`. */
  predicate PlainValid(t: Trust, p: Plain, version: nat) {
    && (version == LEGACY || version == CURRENT)
    && (p.flags.enrollment || p.flags.mobileRelay ==> p.flags.gateway)
    && (p.flags.wifi ==> t.wifi(p.wifi))
    && (p.flags.gateway ==> GatewayValid(t, p.gateway, p.flags.mobileRelay, EffectivePort(p, version)))
    && (p.flags.enrollment ==> EnrollmentValid(t, p.enrollment, p.gateway))
  }

  /** `decodeResident`. */
  function Decode(p: Plain): Resident {
    Resident(p.flags, if p.flags.gateway then p.gateway else NO_GATEWAY, if p.flags.gateway then p.bootstrapPort else 0)
  }

  // ----- storage and platform calls -----

  function Call(d: Device): (r: (Device, Outcome))
    ensures r.0.slots == d.slots && (!d.alive ==> r == (d, Lost(false, Kept)))
  {
    if !d.alive then (d, Lost(false, Kept))
    else if d.plan == [] then (d, Done)
    else (d.(plan := d.plan[1..], alive := d.plan[0].Done? || d.plan[0].survives), d.plan[0])
  }

  /** A call without effect on the slots: allocation, randomness, sealing, a read. */
  function Quiet(d: Device): (r: (Device, bool))
    ensures r.0.slots == d.slots
  {
    var (d1, o) := Call(d);
    (d1, o.Done?)
  }

  function Write(d: Device, i: nat, content: Slot): (r: (Device, bool))
    requires i < |d.slots|
    ensures |r.0.slots| == |d.slots| && r.0.slots == d.slots[i := r.0.slots[i]]
    ensures r.0.slots[i] in {d.slots[i], Garbage, content}
    ensures r.1 ==> r.0.slots[i] == content
  {
    var (d1, o) := Call(d);
    match o
    case Done => (d1.(slots := d1.slots[i := content]), true)
    case Lost(_, fate) =>
      var left := match fate case Kept => d.slots[i] case Applied => content case Ruined => Garbage;
      (d1.(slots := d1.slots[i := left]), false)
  }

  datatype Probe = Unread | Nothing | Broken | Opened(generation: u32, version: nat, plain: Plain)

  function Seen(t: Trust, s: Slot): (p: Probe)
    ensures !p.Unread? && (p.Opened? ==> s == Sealed(p.generation, p.version, p.plain) && PlainValid(t, p.plain, p.version))
  {
    if s.Empty? then Nothing
    else if s.Garbage? || s.generation == 0 || !PlainValid(t, s.plain, s.version) then Broken
    else Opened(s.generation, s.version, s.plain)
  }

  /** `loadSlot`. */
  function Load(t: Trust, d: Device, i: nat): (r: (Device, Probe))
    requires i < |d.slots|
    ensures r.0.slots == d.slots && (r.1.Unread? || r.1 == Seen(t, d.slots[i]))
  {
    var (d1, ok) := Quiet(d);
    (d1, if ok then Seen(t, d.slots[i]) else Unread)
  }

  // ----- persisting -----

  function Target(active: int): (i: nat)
    requires -1 <= active < SLOTS
    ensures i < SLOTS && i != active
  {
    if active < 0 then 0 else (active + 1) % SLOTS
  }

  /** `persistPlain`. */
  function Persist(t: Trust, s: State, plain: Plain, generation: u32): (o: (State, Result))
    requires Shape(s)
    ensures Shape(o.0)
  {
    hide Quiet, Write, Load;
    if generation == 0 then (s, InvalidArgument)
    else
      var (d1, random) := Quiet(s.d);
      var (d2, sealed) := if random then Quiet(d1) else (d1, false);
      if !sealed then (s.(d := d2), CryptoFailed)
      else
        var i := Target(s.r.active);
        var (d3, written) := Write(d2, i, Sealed(generation, CURRENT, plain));
        if !written then (s.(d := d3), StorageWriteFailed)
        else
          var (d4, probe) := Load(t, d3, i);
          if !probe.Opened? || probe.generation != generation || probe.version != CURRENT
          then (s.(d := d4), StorageReadbackFailed)
          else (State(d4, s.r.(active := i, generation := generation, resident := Decode(probe.plain))), Ok)
  }

  /** `loadActivePlain`. */
  function LoadActive(t: Trust, s: State): (o: (State, Result, Plain))
    requires Shape(s)
    ensures Shape(o.0) && o.0 == s.(d := o.0.d) && o.0.d.slots == s.d.slots
  {
    hide Load;
    if s.r.active < 0 then (s, Ok, NO_PLAIN)
    else
      var (d1, probe) := Load(t, s.d, s.r.active);
      var s1 := s.(d := d1);
      if probe.Unread? then (s1, StorageReadFailed, NO_PLAIN)
      else if !probe.Opened? || probe.generation != s.r.generation || probe.version != CURRENT
      then (s1, StorageCorrupt, NO_PLAIN)
      else (s1, Ok, probe.plain)
  }

  // ----- begin -----

  /** All slots in order, until a read fails. */
  function LoadAll(t: Trust, d: Device, n: nat): (r: (Device, Option<seq<Probe>>))
    requires n <= |d.slots|
    ensures r.0.slots == d.slots
    ensures r.1.Some? ==> |r.1.value| == n && forall i :: 0 <= i < n ==> r.1.value[i] == Seen(t, d.slots[i])
  {
    hide Load;
    if n == 0 then (d, Some([]))
    else
      var (d1, before) := LoadAll(t, d, n - 1);
      if before == None then (d1, None)
      else
        var (d2, probe) := Load(t, d1, n - 1);
        if probe.Unread? then (d2, None) else (d2, Some(before.value + [probe]))
  }

  /** The slot `begin` chooses among the first `n`, -1 if none opens. */
  function Newest(probes: seq<Probe>, n: nat): (c: int)
    requires n <= |probes|
    ensures -1 <= c < n && (c >= 0 ==> probes[c].Opened?)
  {
    if n == 0 then -1
    else
      var c := Newest(probes, n - 1);
      if probes[n - 1].Opened? && (c < 0 || After32(probes[n - 1].generation, probes[c].generation)) then n - 1 else c
  }

  /** A record of the first version gains its bootstrap port. */
  function Upgrade(p: Plain): Plain {
    if p.flags.gateway then p.(bootstrapPort := LEGACY_BOOTSTRAP_PORT) else p
  }

  /** The part of `begin` behind its scan. */
  function Adopt(t: Trust, s: State, probes: seq<Probe>): (o: (State, Result))
    requires Shape(s) && |probes| == SLOTS
    ensures Shape(o.0)
  {
    hide Load, Persist, Upgrade, Newest;
    var c := Newest(probes, SLOTS);
    if c < 0 then
      if exists i :: 0 <= i < SLOTS && !probes[i].Nothing? then (s, StorageCorrupt) else (s.(r := s.r.(begun := true)), Ok)
    else
      var (d1, probe) := Load(t, s.d, c);
      if !probe.Opened? then (s.(d := d1), StorageCorrupt)
      else
        var s1 := State(d1, Ram(true, c, probe.generation, s.r.resident));
        if probe.version != LEGACY then (s1.(r := s1.r.(resident := Decode(probe.plain))), Ok)
        else if probe.generation == GENERATION_MAX then (s1, CryptoFailed)
        else Persist(t, s1, Upgrade(probe.plain), probe.generation + 1)
  }

  /** `begin` after a reset. */
  function Begin(t: Trust, s: State, available: bool, ready: bool): (o: (State, Result))
    requires Shape(s)
    ensures Shape(o.0)
  {
    hide Quiet, LoadAll, Adopt;
    var s0 := s.(r := NO_RAM);
    if !available then (s0, StorageUnavailable)
    else if !ready then (s0, SecurityUnavailable)
    else
      var (d1, granted) := Quiet(s0.d);
      if !granted then (s0.(d := d1), StorageAllocationFailed)
      else
        var (d2, probes) := LoadAll(t, d1, SLOTS);
        if probes == None then (s0.(d := d2), StorageReadFailed) else Adopt(t, s0.(d := d2), probes.value)
  }

  // ----- commits -----

  /** Reads the active snapshot, edits it and persists the result as the next generation. */
  function Edit(t: Trust, s: State, edit: Plain -> Plain): (o: (State, Result))
    requires Shape(s) && s.r.generation < GENERATION_MAX
    ensures Shape(o.0)
  {
    hide LoadActive, Persist;
    var (s1, loaded, plain) := LoadActive(t, s);
    if loaded != Ok then (s1, loaded) else Persist(t, s1, edit(plain), s.r.generation + 1)
  }

  /** Allocates the transient buffers, then edits. */
  function Update(t: Trust, s: State, edit: Plain -> Plain): (o: (State, Result))
    requires Shape(s) && s.r.generation < GENERATION_MAX
    ensures Shape(o.0)
  {
    hide Quiet, Edit;
    var (d1, granted) := Quiet(s.d);
    if !granted then (s.(d := d1), StorageAllocationFailed) else Edit(t, s.(d := d1), edit)
  }

  /** `encodeWifi`. */
  function SetWifi(p: Plain, w: Wifi): Plain {
    p.(wifi := w, flags := p.flags.(wifi := true))
  }

  /** `encodeGateway`: a changed gateway drops the enrollment made under the old one. */
  function SetGateway(p: Plain, g: Gateway, mobileRelay: bool, bootstrapPort: nat): Plain {
    p.(gateway := g, bootstrapPort := bootstrapPort, enrollment := NO_ENROLLMENT,
       flags := p.flags.(gateway := true, enrollment := false, mobileRelay := mobileRelay))
  }

  function SetEnrollment(p: Plain, e: Enrollment): Plain {
    p.(enrollment := e, flags := p.flags.(enrollment := true))
  }

  /** What `forgetMobileRelayGateway` leaves of a snapshot. */
  function Cleared(p: Plain): Plain {
    p.(gateway := NO_GATEWAY, enrollment := NO_ENROLLMENT, bootstrapPort := 0,
       flags := p.flags.(gateway := false, enrollment := false, mobileRelay := false))
  }

  /** `commitWifi`. */
  function CommitWifi(t: Trust, s: State, w: Wifi): (o: (State, Result))
    requires Shape(s)
    ensures Shape(o.0)
  {
    hide Update;
    if !s.r.begun then (s, NotBegun)
    else if !t.wifi(w) then (s, InvalidArgument)
    else if s.r.generation == GENERATION_MAX then (s, CryptoFailed)
    else Update(t, s, p => SetWifi(p, w))
  }

  /** `commitGateway`. */
  function CommitGateway(t: Trust, s: State, g: Gateway, mobileRelay: bool, bootstrapPort: nat): (o: (State, Result))
    requires Shape(s)
    ensures Shape(o.0)
  {
    hide Update, GatewayValid;
    if !s.r.begun then (s, NotBegun)
    else if !GatewayValid(t, g, mobileRelay, bootstrapPort) then (s, InvalidArgument)
    else if s.r.generation == GENERATION_MAX then (s, CryptoFailed)
    else Update(t, s, p => SetGateway(p, g, mobileRelay, bootstrapPort))
  }

  /** `commitEnrollmentCredential`. */
  function CommitEnrollment(t: Trust, s: State, e: Enrollment): (o: (State, Result))
    requires Shape(s)
    ensures Shape(o.0)
  {
    hide Update, ChainFits;
    var g := s.r.resident.gateway;
    if !s.r.begun || !s.r.resident.flags.gateway || e.keyVersion == 0 || !(0 < |e.certificate| <= CERTIFICATE_MAXIMUM)
       || AllZero(e.secret) || AllZero(e.companion) || AllZero(e.privateKey) || e.gateway != g.id
       || s.r.generation == GENERATION_MAX || !ChainFits(e.chain)
    then (s, EnrollmentInvalid)
    else if !t.chain(g.ca, e.certificate, e.chain) then (s, EnrollmentTrustFailed)
    else Update(t, s, p => SetEnrollment(p, e))
  }

  // ----- forget -----

  /** Erases every slot but `active`, from slot `i` on. */
  function Scrub(d: Device, active: nat, i: nat): (r: (Device, Result))
    requires |d.slots| == SLOTS && i <= SLOTS
    ensures |r.0.slots| == SLOTS
    decreases SLOTS - i
  {
    hide Quiet, Write;
    if i == SLOTS then (d, Ok)
    else if i == active then Scrub(d, active, i + 1)
    else
      var (d1, read) := Quiet(d);
      if !read then (d1, StorageReadFailed)
      else if d1.slots[i].Empty? then Scrub(d1, active, i + 1)
      else
        var (d2, written) := Write(d1, i, Empty);
        if !written then (d2, StorageWriteFailed)
        else
          var (d3, again) := Quiet(d2);
          if !again || !d3.slots[i].Empty? then (d3, StorageReadbackFailed) else Scrub(d3, active, i + 1)
  }

  /** The scrub, when there is an active slot. */
  function ScrubOthers(s: State): (o: (State, Result))
    requires Shape(s)
    ensures Shape(o.0)
  {
    hide Scrub;
    if s.r.active < 0 then (s, Ok)
    else
      var (d1, result) := Scrub(s.d, s.r.active, 0);
      (s.(d := d1), result)
  }

  /** `forgetMobileRelayGateway` behind its checks. */
  function ForgetChecked(t: Trust, s: State): (o: (State, Result))
    requires Shape(s) && (s.r.resident.flags.gateway ==> s.r.generation < GENERATION_MAX)
    ensures Shape(o.0)
  {
    hide Quiet, Edit, ScrubOthers;
    var (d1, granted) := Quiet(s.d);
    var s1 := s.(d := d1);
    if !granted then (s1, StorageAllocationFailed)
    else if !s.r.resident.flags.gateway then ScrubOthers(s1)
    else
      var (s2, persisted) := Edit(t, s1, p => Cleared(p));
      if persisted != Ok then (s2, persisted) else ScrubOthers(s2)
  }

  /** `forgetMobileRelayGateway`. */
  function Forget(t: Trust, s: State, expected: seq<byte>): (o: (State, Result))
    requires Shape(s)
    ensures Shape(o.0)
  {
    hide ForgetChecked;
    var flags := s.r.resident.flags;
    if !s.r.begun then (s, NotBegun)
    else if AllZero(expected) then (s, InvalidArgument)
    else if flags.gateway && !flags.mobileRelay then (s, InvalidArgument)
    else if flags.gateway && s.r.resident.gateway.id != expected then (s, InvalidGatewayId)
    else if flags.gateway && s.r.generation == GENERATION_MAX then (s, CryptoFailed)
    else ForgetChecked(t, s)
  }

  datatype Event =
    | Reset(plan: seq<Outcome>, available: bool, ready: bool)
    | PutWifi(wifi: Wifi)
    | PutGateway(gateway: Gateway, mobileRelay: bool, bootstrapPort: nat)
    | PutEnrollment(enrollment: Enrollment)
    | ForgetGateway(expected: seq<byte>)
    | Damage(slot: nat, emptied: bool)

  /** One event in the life of a device: a request, a reset, or the loss of a slot. */
  function Step(t: Trust, s: State, e: Event): (o: (State, Result))
    requires Shape(s)
    ensures Shape(o.0)
  {
    hide Begin, CommitWifi, CommitGateway, CommitEnrollment, Forget;
    match e
    case Reset(plan, available, ready) => Begin(t, s.(d := s.d.(plan := plan, alive := true)), available, ready)
    case PutWifi(w) => CommitWifi(t, s, w)
    case PutGateway(g, mobileRelay, bootstrapPort) => CommitGateway(t, s, g, mobileRelay, bootstrapPort)
    case PutEnrollment(e) => CommitEnrollment(t, s, e)
    case ForgetGateway(expected) => Forget(t, s, expected)
    case Damage(slot, emptied) =>
      (s.(d := s.d.(slots := s.d.slots[slot % SLOTS := if emptied then Empty else Garbage])), Ok)
  }

  function Run(t: Trust, s: State, events: seq<Event>): (u: State)
    requires Shape(s)
    ensures Shape(u)
    decreases |events|
  {
    if events == [] then s else Step(t, Run(t, s, events[..|events| - 1]), events[|events| - 1]).0
  }
}
