/** Adventure progression: the state one route after another is walked in, the predicate every operation checks first, and
    what each operation does. Mixing functions are a parameter. */
module Adventure {
  import opened Bytes

  type u16 = n: int | 0 <= n < 0x1_0000
  type u64 = n: int | 0 <= n < TWO_64

  const ZONES := 5
  const HISTORY := 4
  const JOURNAL := 5
  const DECISIONS := 3
  const VARIANTS := 12
  const POSTCARDS := 10
  const NO_POSTCARD: byte := 255
  const STEP_DELTA_MAX := 1_000_000
  const SEGMENT_MAX := 200_000
  const TRUSTED_UNIX_MIN := 1_577_836_800

  // Enumerations keep their stored numbers: a restored record can hold any octet.
  const IDLE: byte := 0
  const ACTIVE: byte := 1
  const AWAITING_RESCUE: byte := 2
  const RETURNED: byte := 3

  const NO_OUTCOME: byte := 0
  const PARTIAL: byte := 1
  const COMPLETE: byte := 2
  const EARLY_RETURN: byte := 3
  const RESCUED: byte := 4

  const MEADOW: byte := 0
  const FOREST: byte := 1
  const RIDGE: byte := 2
  const WATERFRONT: byte := 3
  const TOWN: byte := 4

  const EXPLORE: byte := 0
  const FOLLOW_SIGNAL: byte := 1
  const MEET_CREATURE: byte := 2
  const COMMUNITY: byte := 3
  const RETURN_HOME: byte := 4

  const CAREFUL: byte := 0
  const BALANCED: byte := 1
  const BOLD: byte := 2

  const GENTLE: byte := 0
  const BOLD_HEART: byte := 1
  const CURIOUS: byte := 2
  const PLAYFUL: byte := 3

  const PRIVACY_OFF: byte := 0
  const COARSE: byte := 1
  const PRECISE_TRANSIENT: byte := 2

  const CONTINUE: byte := 0
  const DETOUR: byte := 1
  const HELP: byte := 2
  const RETURN_EARLY: byte := 3

  datatype Status =
    | Ok | NoChange | Duplicate | InvalidArgument | InvalidClock | InvalidState | Busy | WrongPhase | PrivacyDisabled
    | PrivacyModeMismatch | DecisionLimit | CommuteRestricted | RescueRequired | WrongRoute

  datatype Clock = Clock(unix: u64, dayId: u32, minute: u16, trusted: byte)

  datatype Request = Request(terrain: byte, objective: byte, risk: byte, personality: byte, weather: byte, base: u32,
                             commuteSafe: byte)

  datatype Sample = Sample(latitude: int, longitude: int, accuracy: u16)

  datatype Hunt = Hunt(people: byte, rounds: byte, tier: byte, score: u16, maximum: u16, proof: u32)

  datatype Expedition = Expedition(id: u32, affection: int, encounter: bool)

  datatype Encounter = Encounter(schema: byte, operation: u64, kind: byte, occurred: byte, guaranteed: byte, rarity: byte,
                                 code: byte, encounterRoll: u16, rarityRoll: u16, codeRoll: u16)

  /** The route fields, with the flags that belong to a route. */
  datatype Route = Route(
    phase: byte, outcome: byte, terrain: byte, objective: byte, risk: byte, personality: byte, weather: byte,
    timeBand: byte, moon: byte, decisions: byte, branch: byte, party: byte, variant: byte, progress: u16, riskPoints: u16,
    id: u32, seed: u32, base: u32, target: u32, steps: u32, distance: u32,
    commuteSafe: bool, earlyReturn: bool, trustedStart: bool, communityDay: bool)

  datatype Place = Place(privacy: byte, current: u32, home: u32, salt: u32, total: u32, zoneNew: bool)

  datatype Zone = Zone(token: u32, visits: u16, decameters: u16)

  datatype Zones = Zones(slots: seq<Zone>, count: nat)

  datatype Entry = Entry(routeId: u32, dayId: u32, zone: u32, outcome: byte, terrain: byte, objective: byte, postcard: byte,
                         party: byte, chainDepth: byte, variant: byte, trustedTime: bool, communityDay: bool,
                         homeComfort: bool, commuteSafe: bool)

  /** A fixed array filled once and then overwritten oldest first. */
  datatype Ring<T> = Ring(slots: seq<T>, count: nat, next: nat)

  /** Counters and last-seen identifiers that outlive a route. */
  datatype Marks = Marks(sequence: u32, chainKey: u32, chainDepth: byte, chainEligible: bool, expedition: u32,
                         partyProof: u32, encounter: u64, hotspot: u32, hotspotDay: u32, bonusDay: u32, visits: u16,
                         bonuses: u16)

  datatype Header = Header(magic: u32, bytes: u16, schema: byte, strayFlags: bool, reservedClear: bool)

  datatype Progress = Progress(header: Header, route: Route, place: Place, zones: Zones, trail: Ring<u16>, log: Ring<Entry>,
                               marks: Marks)

  /** A record and the contents its checksum was computed over. */
  datatype Snapshot = Snapshot(body: Progress, checksum: Progress)

  const HEADER := Header(0x3150_414B, 272, 1, false, true)
  const NO_ZONE := Zone(0, 0, 0)
  const NO_ENTRY := Entry(0, 0, 0, NO_OUTCOME, MEADOW, EXPLORE, NO_POSTCARD, 0, 0, 0, false, false, false, false)
  const NO_ROUTE := Route(IDLE, NO_OUTCOME, MEADOW, EXPLORE, BALANCED, GENTLE, 0, 0, 0, 0, 0, 0, 0, 0, 0,
                          0, 0, 0, 0, 0, 0, false, false, false, false)
  const NO_PLACE := Place(PRIVACY_OFF, 0, 0, 0, 0, false)
  const NO_ZONES := Zones(Repeat(NO_ZONE, ZONES), 0)
  const RESET := Progress(HEADER, NO_ROUTE, NO_PLACE, NO_ZONES, Ring(Repeat(0 as u16, HISTORY), 0, 0),
                          Ring(Repeat(NO_ENTRY, JOURNAL), 0, 0), Marks(0, 0, 0, false, 0, 0, 0, 0, 0, 0, 0, 0))

  // ----- validateProgressState -----

  predicate PartySize(n: byte) { n == 0 || 2 <= n <= 4 }

  predicate EntryValid(e: Entry) {
    && e.routeId != 0 && PARTIAL <= e.outcome <= RESCUED && e.terrain < 5 && e.objective < 5 && e.postcard < POSTCARDS
    && PartySize(e.party) && e.chainDepth != 0 && e.variant < VARIANTS
    && (e.trustedTime <==> e.dayId != 0)
    && (e.communityDay ==> e.trustedTime)
  }

  predicate RingValid<T(==)>(r: Ring<T>, capacity: nat, empty: T) {
    && |r.slots| == capacity && r.count <= capacity && r.next < capacity
    && (r.count < capacity ==> r.next == r.count && forall i :: r.count <= i < capacity ==> r.slots[i] == empty)
  }

  predicate TrailValid(r: Ring<u16>) {
    RingValid(r, HISTORY, 0) && forall i :: 0 <= i < r.count ==> r.slots[i] != 0
  }

  predicate LogValid(r: Ring<Entry>) {
    RingValid(r, JOURNAL, NO_ENTRY) && forall i :: 0 <= i < r.count ==> EntryValid(r.slots[i])
  }

  predicate ZonesValid(z: Zones) {
    && |z.slots| == ZONES && z.count <= ZONES
    && (forall i :: 0 <= i < z.count ==> z.slots[i].token != 0 && z.slots[i].visits != 0)
    && (forall i, j :: 0 <= i < j < z.count ==> z.slots[i].token != z.slots[j].token)
    && (forall i :: z.count <= i < ZONES ==> z.slots[i] == NO_ZONE)
  }

  predicate Stored(z: Zones, token: u32)
    requires |z.slots| == ZONES && z.count <= ZONES
  {
    exists i :: 0 <= i < z.count && z.slots[i].token == token
  }

  predicate PlaceValid(p: Place, z: Zones, distance: u32)
    requires |z.slots| == ZONES && z.count <= ZONES
  {
    && p.privacy < 3
    && (p.privacy == PRIVACY_OFF ==>
          p.current == 0 && p.home == 0 && p.salt == 0 && p.total == 0 && distance == 0 && z.count == 0 && !p.zoneNew)
    && (p.privacy == COARSE ==> p.salt == 0)
    && (p.privacy == PRECISE_TRANSIENT ==> p.salt != 0)
    && (p.current != 0 ==> Stored(z, p.current))
  }

  predicate MarksValid(m: Marks) {
    && (m.bonuses == 0 ==> m.bonusDay == 0)
    && (m.hotspot == 0 ==> m.hotspotDay == 0)
  }

  predicate IdleValid(r: Route) {
    && r.outcome == NO_OUTCOME && r.id == 0 && r.seed == 0 && r.base == 0 && r.target == 0 && r.steps == 0
    && r.distance == 0 && r.progress == 0 && r.riskPoints == 0 && r.decisions == 0 && r.branch == 0 && r.party == 0
    && r.variant == 0 && r.timeBand == 0 && r.moon == 0
    && !r.commuteSafe && !r.earlyReturn && !r.trustedStart && !r.communityDay
  }

  predicate WalkValid(r: Route, m: Marks) {
    && r.terrain < 5 && r.objective < 5 && r.risk < 3 && r.personality <= 5 && r.weather < 5 && r.timeBand < 5 && r.moon < 5
    && m.sequence != 0 && r.id != 0 && r.seed != 0
    && 100 <= r.base <= 100_000 && 100 <= r.target <= 100_000
    && r.decisions <= DECISIONS && PartySize(r.party) && m.chainDepth != 0 && r.variant < VARIANTS
    && (r.party != 0 ==> m.partyProof != 0)
    && (r.commuteSafe ==> r.risk == CAREFUL)
    && (!r.trustedStart ==> r.timeBand == 0 && r.moon == 0 && !r.communityDay)
  }

  predicate RouteValid(r: Route, m: Marks) {
    && r.phase < 4 && r.outcome < 5
    && (r.phase == IDLE ==> IdleValid(r))
    && (r.phase != IDLE ==> WalkValid(r, m))
    && (r.phase == RETURNED ==> r.outcome != NO_OUTCOME)
    && (r.phase != RETURNED ==> r.outcome == NO_OUTCOME)
    && (r.phase == AWAITING_RESCUE ==> r.risk == BOLD && !r.earlyReturn)
  }

  predicate BodyValid(p: Progress) {
    && p.header == HEADER && TrailValid(p.trail) && LogValid(p.log) && ZonesValid(p.zones)
    && PlaceValid(p.place, p.zones, p.route.distance) && MarksValid(p.marks) && RouteValid(p.route, p.marks)
  }

  predicate Valid(s: Snapshot) {
    s.checksum == s.body && BodyValid(s.body)
  }

  // ----- helpers that only compute -----

  function Sat16(a: u16, b: nat): (c: u16)
    ensures a <= c && (b > 0 ==> c > 0)
  {
    if a + b > 0xFFFF then 0xFFFF else a + b
  }

  function Sat32(a: u32, b: nat): (c: u32)
    ensures a <= c
  {
    if a + b >= TWO_32 then 0xFFFF_FFFF else a + b
  }

  predicate ClockValid(c: Clock) {
    c.trusted == 0 || (c.trusted == 1 && c.unix >= TRUSTED_UNIX_MIN && c.dayId != 0 && c.minute < 1440)
  }

  function TimeBand(c: Clock): (band: byte)
    ensures band < 5 && (c.trusted == 0 <==> band == 0)
  {
    if c.trusted == 0 then 0
    else if 300 <= c.minute < 480 then 1
    else if 480 <= c.minute < 1020 then 2
    else if 1020 <= c.minute < 1200 then 3
    else 4
  }

  function Moon(c: Clock): (moon: byte)
    ensures moon < 5 && (c.trusted == 0 <==> moon == 0)
  {
    if c.trusted == 0 then 0
    else
      var day := c.unix / 86400 % 29;
      if day < 4 then 1 else if day < 11 then 2 else if day < 18 then 3 else 4
  }

  predicate CommunityDay(c: Clock) {
    c.trusted != 0 && c.dayId % 7 == 0
  }

  predicate AtHome(p: Place) {
    p.home != 0 && p.home == p.current
  }

  /** What the route itself asks for. */
  function RoutePercent(terrain: byte, objective: byte, risk: byte, personality: byte): (percent: int) {
    var ground := if terrain == FOREST || terrain == WATERFRONT then 10 else if terrain == RIDGE then 20
                  else if terrain == TOWN then -10 else 0;
    var purpose := if objective == FOLLOW_SIGNAL then 5 else if objective == MEET_CREATURE then 10
                   else if objective == COMMUNITY then -10 else if objective == RETURN_HOME then -20 else 0;
    var daring := if risk == CAREFUL then -10 else if risk == BOLD then 15 else 0;
    var suited := (personality == GENTLE && risk == CAREFUL) || (personality == BOLD_HEART && risk == BOLD)
                  || (personality == CURIOUS && (objective == EXPLORE || objective == FOLLOW_SIGNAL))
                  || (personality == PLAYFUL && objective == COMMUNITY);
    100 + ground + purpose + daring + if suited then -5 else 0
  }

  function Percent(terrain: byte, objective: byte, risk: byte, personality: byte, party: byte, home: bool, commuteSafe: bool,
                   communityDay: bool): (percent: int)
    ensures 50 <= percent <= 180
  {
    var company := if party == 2 then -10 else if party == 3 then -15 else if party == 4 then -25 else 0;
    var sum := RoutePercent(terrain, objective, risk, personality) + (if home then -15 else 0) + company
               + (if commuteSafe then -15 else 0) + (if communityDay then -5 else 0);
    if sum < 50 then 50 else if sum > 180 then 180 else sum
  }

  /** The target `recalculateTarget` stores. */
  function Target(r: Route, home: bool): (target: u32)
    ensures r.phase == IDLE || r.base == 0 ==> target == 0
    ensures r.phase != IDLE && r.base != 0 ==> 100 <= target <= 100_000
  {
    if r.phase == IDLE || r.base == 0 then 0
    else
      var target := r.base * Percent(r.terrain, r.objective, r.risk, r.personality, r.party, home, r.commuteSafe, r.communityDay) / 100;
      if target < 100 then 100 else if target > 100_000 then 100_000 else target
  }

  function Retarget(p: Progress): Progress {
    p.(route := p.route.(target := Target(p.route, AtHome(p.place))))
  }

  /** `progressPercent`. */
  function ProgressPercent(r: Route): (percent: byte)
    ensures percent <= 100
  {
    if r.target == 0 then 0
    else
      var walked: nat := if r.steps >= r.target then 100 else r.steps * 100 / r.target;
      var bonus := if r.progress > 30 then 30 else r.progress;
      var distance := if r.distance / 250 > 10 then 10 else r.distance / 250;
      var sum: int := walked + bonus + distance;
      if sum > 100 then 100 else sum
  }

  function Signature(terrain: byte, objective: byte, variant: byte): (signature: u16)
    requires terrain < 5 && objective < 5 && variant < VARIANTS
    ensures signature != 0
  {
    1 + terrain * 60 + objective * 12 + variant
  }

  function Push<T>(r: Ring<T>, x: T): (grown: Ring<T>)
    requires 0 <= r.next < |r.slots|
  {
    Ring(r.slots[r.next := x], if r.count < |r.slots| then r.count + 1 else r.count, (r.next + 1) % |r.slots|)
  }

  predicate InTrail(r: Ring<u16>, signature: u16)
    requires r.count <= |r.slots|
  {
    exists i :: 0 <= i < r.count && r.slots[i] == signature
  }

  /** The variant search of `begin`: at most `attempts` tries round the circle. */
  function Choose(r: Ring<u16>, terrain: byte, objective: byte, variant: byte, attempts: nat): (chosen: byte)
    requires r.count <= |r.slots| && terrain < 5 && objective < 5 && variant < VARIANTS
    ensures chosen < VARIANTS
    decreases attempts
  {
    if attempts == 0 || !InTrail(r, Signature(terrain, objective, variant)) then variant
    else Choose(r, terrain, objective, (variant + 1) % VARIANTS, attempts - 1)
  }

  predicate HuntValid(h: Hunt) {
    2 <= h.people <= 4 && h.rounds == 3 && h.tier <= 3 && h.maximum != 0 && h.score <= h.maximum && h.proof != 0
  }

  predicate EncounterValid(e: Encounter) {
    && e.schema == 1 && e.operation != 0 && e.kind < 8 && e.occurred <= 1 && e.guaranteed <= 1 && e.rarity < 7 && e.code <= 2
    && e.encounterRoll < 10_000 && e.rarityRoll < 10_000 && e.codeRoll < 10_000
    && (e.occurred == 0 ==> e.guaranteed == 0 && e.code == 0)
  }

  function Postcard(r: Route): (id: byte) {
    if r.outcome == COMPLETE then (r.terrain + r.personality) % 4
    else if r.outcome == PARTIAL then 4 + r.objective % 2
    else if r.outcome == EARLY_RETURN then 6 + r.terrain % 2
    else if r.outcome == RESCUED then (if r.party == 4 then 9 else 8)
    else NO_POSTCARD
  }

  function NonZero(n: u32, fallback: u32): u32 {
    if n == 0 then fallback else n
  }

  type Mixer = seq<int> -> u32

  function ChainKey(mix: Mixer, q: Request): u32 {
    NonZero(mix([q.terrain, q.objective, q.personality]), 1)
  }

  /** `preciseZoneToken`: only the mixed token of a coarse cell survives. */
  function ZoneToken(mix: Mixer, sample: Sample, salt: u32): u32 {
    NonZero(mix([sample.latitude / 250_000, sample.longitude / 250_000, salt]), 1)
  }

  // ----- location -----

  function FindZone(slots: seq<Zone>, count: nat, token: u32, i: nat): (slot: nat)
    requires i <= count <= |slots|
    ensures i <= slot <= count
    ensures forall k :: i <= k < slot ==> slots[k].token != token
    ensures slot < count ==> slots[slot].token == token
    decreases count - i
  {
    if i == count || slots[i].token == token then i else FindZone(slots, count, token, i + 1)
  }

  /** The first of the zones visited least. */
  function LeastVisited(slots: seq<Zone>, n: nat): (slot: nat)
    requires 0 < n <= |slots|
    ensures slot < n
    ensures forall k :: 0 <= k < slot ==> slots[slot].visits < slots[k].visits
    ensures forall k :: slot < k < n ==> slots[slot].visits <= slots[k].visits
  {
    if n == 1 then 0
    else
      var best := LeastVisited(slots, n - 1);
      if slots[n - 1].visits < slots[best].visits then n - 1 else best
  }

  function Decameters(meters: u32): nat {
    if meters != 0 && meters / 10 == 0 then 1 else meters / 10
  }

  function ZoneSlot(z: Zones, token: u32): (slot: nat)
    requires |z.slots| == ZONES && z.count <= ZONES
    ensures slot < ZONES && (Stored(z, token) ==> slot < z.count && z.slots[slot].token == token)
    ensures !Stored(z, token) ==> slot == z.count || z.count == ZONES
  {
    var found := FindZone(z.slots, z.count, token, 0);
    if found < z.count then found else if z.count < ZONES then z.count else LeastVisited(z.slots, ZONES)
  }

  /** One more visit to a zone, in its own slot, a free one or the least visited one. */
  function Visit(z: Zones, token: u32, meters: u32): (after: Zones)
    requires |z.slots| == ZONES && z.count <= ZONES
  {
    var slot := ZoneSlot(z, token);
    var zone := if Stored(z, token) then z.slots[slot] else Zone(token, 0, 0);
    Zones(z.slots[slot := Zone(token, Sat16(zone.visits, 1), Sat16(zone.decameters, Decameters(meters)))],
          if !Stored(z, token) && z.count < ZONES then z.count + 1 else z.count)
  }

  function SetPrivacy(p: Progress, mode: byte, salt: u32): (Progress, Status) {
    if mode >= 3 || (mode == PRECISE_TRANSIENT && salt == 0) then (p, InvalidArgument)
    else
      var kept := if mode == PRECISE_TRANSIENT then salt else 0;
      if p.place.privacy == mode && p.place.salt == kept then (p, NoChange)
      else (Retarget(p.(place := Place(mode, 0, 0, kept, 0, false), zones := NO_ZONES,
                        route := p.route.(distance := 0))), Ok)
  }

  function SetHome(p: Progress, token: u32): (Progress, Status) {
    if p.place.privacy == PRIVACY_OFF then (p, PrivacyDisabled)
    else if token == 0 then (p, InvalidArgument)
    else if p.place.home == token then (p, NoChange)
    else (Retarget(p.(place := p.place.(home := token))), Ok)
  }

  /** `observeZoneToken`. */
  function Observe(p: Progress, token: u32, steps: u32, meters: u32): (Progress, Status)
    requires |p.zones.slots| == ZONES && p.zones.count <= ZONES
  {
    if steps > STEP_DELTA_MAX || meters > SEGMENT_MAX then (p, InvalidArgument)
    else
      var q := p.(zones := Visit(p.zones, token, meters),
                  place := p.place.(current := token, zoneNew := !Stored(p.zones, token),
                                    total := Sat32(p.place.total, meters)));
      if p.route.phase != ACTIVE then (q, Ok)
      else (Retarget(q.(route := q.route.(steps := Sat32(q.route.steps, steps),
                                          distance := Sat32(q.route.distance, meters)))), Ok)
  }

  function ObserveCoarse(p: Progress, token: u32, steps: u32, meters: u32): (Progress, Status)
    requires |p.zones.slots| == ZONES && p.zones.count <= ZONES
  {
    if p.place.privacy == PRIVACY_OFF then (p, PrivacyDisabled)
    else if p.place.privacy != COARSE then (p, PrivacyModeMismatch)
    else if token == 0 then (p, InvalidArgument)
    else Observe(p, token, steps, meters)
  }

  predicate SampleValid(s: Sample) {
    -900_000_000 <= s.latitude <= 900_000_000 && -1_800_000_000 <= s.longitude <= 1_800_000_000 && 0 < s.accuracy <= 10_000
  }

  function ObservePrecise(mix: Mixer, p: Progress, sample: Sample, steps: u32, meters: u32): (Progress, Status)
    requires |p.zones.slots| == ZONES && p.zones.count <= ZONES
  {
    if p.place.privacy == PRIVACY_OFF then (p, PrivacyDisabled)
    else if p.place.privacy != PRECISE_TRANSIENT then (p, PrivacyModeMismatch)
    else if !SampleValid(sample) then (p, InvalidArgument)
    else Observe(p, ZoneToken(mix, sample, p.place.salt), steps, meters)
  }

  /** A community day pays when it is not the day that paid last. */
  predicate Pays(m: Marks, c: Clock) {
    CommunityDay(c) && m.bonusDay != c.dayId
  }

  function ObserveHotspot(p: Progress, token: u32, people: byte, c: Clock): (Progress, Status) {
    if !ClockValid(c) then (p, InvalidClock)
    else if token == 0 || people < 2 || people > 4 then (p, InvalidArgument)
    else if c.trusted != 0 && p.marks.hotspot == token && p.marks.hotspotDay == c.dayId then (p, Duplicate)
    else
      var m := p.marks.(visits := Sat16(p.marks.visits, 1), hotspot := token,
                        hotspotDay := if c.trusted != 0 then c.dayId else 0);
      if !Pays(p.marks, c) then (p.(marks := m), Ok)
      else
        var route := if p.route.phase == ACTIVE then p.route.(progress := Sat16(p.route.progress, people)) else p.route;
        (p.(marks := m.(bonusDay := c.dayId, bonuses := Sat16(m.bonuses, 1)), route := route), Ok)
  }

  // ----- the route -----

  predicate RequestValid(q: Request) {
    q.terrain < 5 && q.objective < 5 && q.risk < 3 && q.personality <= 5 && q.weather < 5 && 100 <= q.base <= 100_000
    && q.commuteSafe <= 1
  }

  function Seed(mix: Mixer, p: Progress, q: Request, c: Clock, entropy: u32): u32 {
    NonZero(mix([entropy, p.marks.sequence + 1, q.terrain, q.objective, q.risk, q.personality, q.weather, TimeBand(c), Moon(c),
                 p.place.current, ChainKey(mix, q)]), 0x6D2B_79F5)
  }

  function NextDepth(m: Marks, key: u32): (depth: byte)
    ensures depth != 0
  {
    if m.chainEligible && m.chainKey == key then (if m.chainDepth == 255 then 255 else m.chainDepth + 1) else 1
  }

  /** The variant a new route takes. */
  function NextVariant(mix: Mixer, p: Progress, q: Request, c: Clock, entropy: u32): (variant: byte)
    requires p.trail.count <= |p.trail.slots| && RequestValid(q)
    ensures variant < VARIANTS
  {
    Choose(p.trail, q.terrain, q.objective, Seed(mix, p, q, c, entropy) % VARIANTS, VARIANTS)
  }

  function NewRoute(mix: Mixer, p: Progress, q: Request, c: Clock, entropy: u32): (route: Route)
    requires p.trail.count <= |p.trail.slots| && RequestValid(q)
  {
    var seed := Seed(mix, p, q, c, entropy);
    var variant := NextVariant(mix, p, q, c, entropy);
    var id := NonZero(mix([seed, p.marks.sequence + 1, Signature(q.terrain, q.objective, variant)]), 1);
    Route(ACTIVE, NO_OUTCOME, q.terrain, q.objective, q.risk, q.personality, q.weather, TimeBand(c), Moon(c), 0, 0, 0,
          variant, 0, 0, id, seed, q.base, p.route.target, 0, 0, q.commuteSafe != 0, false, c.trusted != 0, CommunityDay(c))
  }

  function Begin(mix: Mixer, p: Progress, q: Request, c: Clock, entropy: u32): (Progress, Status)
    requires p.trail.count <= |p.trail.slots| && 0 <= p.trail.next < |p.trail.slots|
  {
    if p.route.phase != IDLE then (p, Busy)
    else if !RequestValid(q) then (p, InvalidArgument)
    else if !ClockValid(c) then (p, InvalidClock)
    else if q.commuteSafe != 0 && q.risk != CAREFUL then (p, CommuteRestricted)
    else if p.marks.sequence == 0xFFFF_FFFF then (p, InvalidState)
    else
      var key := ChainKey(mix, q);
      var route := NewRoute(mix, p, q, c, entropy);
      (Retarget(p.(route := route, trail := Push(p.trail, Signature(q.terrain, q.objective, route.variant)),
                   marks := p.marks.(sequence := p.marks.sequence + 1, chainKey := key,
                                     chainDepth := NextDepth(p.marks, key), chainEligible := false))), Ok)
  }

  function AddSteps(p: Progress, steps: u32): (Progress, Status) {
    if p.route.phase != ACTIVE then (p, WrongPhase)
    else if steps > STEP_DELTA_MAX then (p, InvalidArgument)
    else if steps == 0 then (p, NoChange)
    else (p.(route := p.route.(steps := Sat32(p.route.steps, steps))), Ok)
  }

  function Decided(r: Route, decision: byte): Route
    requires decision < 4 && r.decisions < DECISIONS
  {
    var counted := r.(decisions := r.decisions + 1, branch := (r.branch * 5 + decision + 1) % 251);
    if decision == CONTINUE then counted.(progress := Sat16(r.progress, 5))
    else if decision == DETOUR then
      counted.(progress := Sat16(r.progress, 10), riskPoints := Sat16(r.riskPoints, 5 * (r.risk + 1)))
    else if decision == HELP then counted.(progress := Sat16(r.progress, 8))
    else counted.(earlyReturn := true)
  }

  function Decide(p: Progress, decision: byte): (Progress, Status) {
    if p.route.phase != ACTIVE || p.route.earlyReturn then (p, WrongPhase)
    else if decision >= 4 then (p, InvalidArgument)
    else if p.route.decisions >= DECISIONS then (p, DecisionLimit)
    else if p.route.commuteSafe && decision == DETOUR then (p, CommuteRestricted)
    else (p.(route := Decided(p.route, decision)), Ok)
  }

  function ApplyExpedition(p: Progress, e: Expedition): (Progress, Status) {
    if p.route.phase != ACTIVE then (p, WrongPhase)
    else if e.id == 0 then (p, InvalidArgument)
    else if e.id == p.marks.expedition then (p, Duplicate)
    else
      var points := 4 + (if e.affection > 0 then e.affection else 0) + if e.encounter then 5 else 0;
      (p.(marks := p.marks.(expedition := e.id), route := p.route.(progress := Sat16(p.route.progress, points))), Ok)
  }

  function Joined(p: Progress, h: Hunt, points: nat): Progress {
    Retarget(p.(marks := p.marks.(partyProof := h.proof),
                route := p.route.(party := h.people, progress := Sat16(p.route.progress, points))))
  }

  function ApplyParty(p: Progress, h: Hunt): (Progress, Status) {
    if p.route.phase != ACTIVE && p.route.phase != AWAITING_RESCUE then (p, WrongPhase)
    else if !HuntValid(h) then (p, InvalidArgument)
    else if p.marks.partyProof == h.proof then (p, Duplicate)
    else (Joined(p, h, 2 * h.people), Ok)
  }

  function ApplyEncounter(p: Progress, e: Encounter): (Progress, Status) {
    if p.route.phase != ACTIVE then (p, WrongPhase)
    else if !EncounterValid(e) then (p, InvalidArgument)
    else if e.operation == p.marks.encounter then (p, Duplicate)
    else if e.operation < p.marks.encounter then (p, InvalidArgument)
    else
      var points := if e.occurred == 0 then 0 else if p.route.objective == MEET_CREATURE then 12 else 7;
      (p.(marks := p.marks.(encounter := e.operation), route := p.route.(progress := Sat16(p.route.progress, points))), Ok)
  }

  function JournalEntry(p: Progress, c: Clock): Entry {
    Entry(p.route.id, if c.trusted != 0 then c.dayId else 0, p.place.current, p.route.outcome, p.route.terrain,
          p.route.objective, Postcard(p.route), p.route.party, p.marks.chainDepth, p.route.variant, c.trusted != 0,
          p.route.communityDay, AtHome(p.place), p.route.commuteSafe)
  }

  /** `finalize`: the route returns and is written into the journal. */
  function Finalize(p: Progress, outcome: byte, c: Clock): Progress
    requires 0 <= p.log.next < |p.log.slots|
  {
    var q := p.(route := p.route.(outcome := outcome, phase := RETURNED),
                marks := p.marks.(chainEligible := outcome == COMPLETE || outcome == RESCUED));
    q.(log := Push(q.log, JournalEntry(q, c)))
  }

  /** How an active route ends now; `None` leaves it waiting for rescue. */
  function Ending(r: Route): (outcome: Option<byte>) {
    if r.earlyReturn then Some(EARLY_RETURN)
    else if ProgressPercent(r) >= 100 then Some(COMPLETE)
    else if r.risk == BOLD && ProgressPercent(r) < 40 then None
    else Some(PARTIAL)
  }

  function Finish(p: Progress, c: Clock): (Progress, Status)
    requires 0 <= p.log.next < |p.log.slots|
  {
    if !ClockValid(c) then (p, InvalidClock)
    else if p.route.phase != ACTIVE then (p, WrongPhase)
    else match Ending(p.route)
      case Some(outcome) => (Finalize(p, outcome, c), Ok)
      case None => (p.(route := p.route.(phase := AWAITING_RESCUE)), RescueRequired)
  }

  function Rescue(p: Progress, h: Hunt, c: Clock): (Progress, Status)
    requires 0 <= p.log.next < |p.log.slots|
  {
    if !ClockValid(c) then (p, InvalidClock)
    else if p.route.phase != AWAITING_RESCUE then (p, WrongPhase)
    else if !HuntValid(h) then (p, InvalidArgument)
    else (Finalize(Joined(p, h, 20), RESCUED, c), Ok)
  }

  function Acknowledge(p: Progress, routeId: u32): (Progress, Status) {
    if p.route.phase != RETURNED then (p, WrongPhase)
    else if routeId == 0 || routeId != p.route.id then (p, WrongRoute)
    else (p.(route := NO_ROUTE), Ok)
  }

  // ----- one operation -----

  datatype Event =
    | PrivacyMode(mode: byte, salt: u32)
    | HomeZone(token: u32)
    | CoarseZone(token: u32, steps: u32, meters: u32)
    | PreciseZone(sample: Sample, steps: u32, meters: u32)
    | Hotspot(token: u32, people: byte, clock: Clock)
    | Start(request: Request, clock: Clock, entropy: u32)
    | Walk(steps: u32)
    | Choice(decision: byte)
    | ExpeditionDone(expedition: Expedition)
    | PartyDone(hunt: Hunt)
    | EncounterDone(encounter: Encounter)
    | End(clock: Clock)
    | RescueDone(hunt: Hunt, clock: Clock)
    | Acknowledged(routeId: u32)

  function Locate(mix: Mixer, p: Progress, e: Event): (Progress, Status)
    requires BodyValid(p) && (e.PrivacyMode? || e.HomeZone? || e.CoarseZone? || e.PreciseZone? || e.Hotspot?)
  {
    match e
    case PrivacyMode(mode, salt) => SetPrivacy(p, mode, salt)
    case HomeZone(token) => SetHome(p, token)
    case CoarseZone(token, steps, meters) => ObserveCoarse(p, token, steps, meters)
    case PreciseZone(sample, steps, meters) => ObservePrecise(mix, p, sample, steps, meters)
    case Hotspot(token, people, clock) => ObserveHotspot(p, token, people, clock)
  }

  function Travel(mix: Mixer, p: Progress, e: Event): (Progress, Status)
    requires BodyValid(p) && !(e.PrivacyMode? || e.HomeZone? || e.CoarseZone? || e.PreciseZone? || e.Hotspot?)
  {
    match e
    case Start(request, clock, entropy) => Begin(mix, p, request, clock, entropy)
    case Walk(steps) => AddSteps(p, steps)
    case Choice(decision) => Decide(p, decision)
    case ExpeditionDone(expedition) => ApplyExpedition(p, expedition)
    case PartyDone(hunt) => ApplyParty(p, hunt)
    case EncounterDone(encounter) => ApplyEncounter(p, encounter)
    case End(clock) => Finish(p, clock)
    case RescueDone(hunt, clock) => Rescue(p, hunt, clock)
    case Acknowledged(routeId) => Acknowledge(p, routeId)
  }

  /** What an operation does to a valid body. */
  function Effect(mix: Mixer, p: Progress, e: Event): (Progress, Status)
    requires BodyValid(p)
  {
    if e.PrivacyMode? || e.HomeZone? || e.CoarseZone? || e.PreciseZone? || e.Hotspot? then Locate(mix, p, e)
    else Travel(mix, p, e)
  }

  /** A public operation: refused on an invalid record, else done and the checksum refreshed. */
  function Perform(mix: Mixer, s: Snapshot, e: Event): (Snapshot, Status) {
    if !Valid(s) then (s, InvalidState)
    else
      var (body, status) := Effect(mix, s.body, e);
      (Snapshot(body, body), status)
  }

  datatype RestoreStatus = Restored | BadMagic | UnsupportedSchema | RestoreInvalid

  function Restore(s: Snapshot, saved: Snapshot): (Snapshot, RestoreStatus) {
    if saved.body.header.magic != HEADER.magic then (s, BadMagic)
    else if saved.body.header.schema != HEADER.schema || saved.body.header.bytes != HEADER.bytes then (s, UnsupportedSchema)
    else if !Valid(saved) then (s, RestoreInvalid)
    else (saved, Restored)
  }
}
