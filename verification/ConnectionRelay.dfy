/** Records of the first version: which of them can be migrated, and what becomes of a device whose record cannot. */
module ConnectionRelay {
  import opened Bytes
  import opened ConnectionStore
  import opened ConnectionStoreProofs

  /** The port a migrated record gains is not allowed for a relay, and nothing else of it can be refused. */
  lemma MigratesExactly(t: Trust, p: Plain)
    requires PlainValid(t, p, LEGACY)
    ensures PlainValid(t, Upgrade(p), CURRENT) <==> !p.flags.mobileRelay
  {
  }

  // ----- a reset without faults -----

  lemma {:induction false} LoadsUndisturbed(t: Trust, d: Device, n: nat)
    requires d.alive && d.plan == [] && n <= |d.slots|
    ensures LoadAll(t, d, n) == (d, Some(Probes(t, d.slots)[..n]))
  {
    hide Seen;
    if n > 0 {
      LoadsUndisturbed(t, d, n - 1);
      assert Probes(t, d.slots)[..n] == Probes(t, d.slots)[..n - 1] + [Seen(t, d.slots[n - 1])];
    }
  }

  lemma BeginUndisturbed(t: Trust, s: State)
    requires Shape(s)
    ensures var s0 := State(Device(s.d.slots, [], true), NO_RAM);
      Step(t, s, Reset([], true, true)) == Adopt(t, s0, Probes(t, s.d.slots))
  {
    hide Adopt, Seen;
    var d := Device(s.d.slots, [], true);
    LoadsUndisturbed(t, d, SLOTS);
    assert Probes(t, s.d.slots)[..SLOTS] == Probes(t, s.d.slots);
  }

  /** Writing without faults succeeds exactly when the record reads back as valid; the record is in its slot either way. */
  lemma PersistUndisturbed(t: Trust, s: State, plain: Plain)
    requires Shape(s) && s.d.alive && s.d.plan == [] && s.r.generation < GENERATION_MAX
    ensures var (u, result) := Persist(t, s, plain, s.r.generation + 1); var i := Target(s.r.active);
      && (result == Ok <==> PlainValid(t, plain, CURRENT))
      && u.d == s.d.(slots := s.d.slots[i := Sealed(s.r.generation + 1, CURRENT, plain)])
      && u.r == if result == Ok then s.r.(active := i, generation := s.r.generation + 1, resident := Decode(plain)) else s.r
  {
    hide PlainValid, Target;
  }

  /** The newest record that opens is one of the first version. */
  ghost predicate LegacyNewest(t: Trust, s: State, c: nat)
    requires Shape(s)
  {
    && c < SLOTS && Newest(Probes(t, s.d.slots), SLOTS) == c && Seen(t, s.d.slots[c]).Opened?
    && s.d.slots[c].version == LEGACY
  }

  /** A reset without faults that finds a record of the first version reports Ok exactly when there is a next generation and
      the record is not a relay's.  Otherwise the store serves without a gateway, and the old record is the one in use. */
  lemma MigrationExactly(t: Trust, s: State, c: nat)
    requires Shape(s) && LegacyNewest(t, s, c)
    ensures var (u, result) := Step(t, s, Reset([], true, true)); var g, p := s.d.slots[c].generation, s.d.slots[c].plain;
      && (result == Ok <==> g != GENERATION_MAX && !p.flags.mobileRelay)
      && (result == Ok ==> u.r == Ram(true, Target(c), g + 1, Decode(Upgrade(p)))
                           && u.d.slots[Target(c)] == Sealed(g + 1, CURRENT, Upgrade(p)))
      && (result != Ok ==> u.r == Ram(true, c, g, NO_RESIDENT))
      && u.d.slots[c] == s.d.slots[c] && u.d.alive && u.d.plan == []
  {
    hide Newest, PlainValid, Step, Persist, Upgrade, Target;
    BeginUndisturbed(t, s);
    var slot, d := s.d.slots[c], Device(s.d.slots, [], true);
    assert Seen(t, slot) == Opened(slot.generation, LEGACY, slot.plain);
    MigratesExactly(t, slot.plain);
    var s1 := State(d, Ram(true, c, slot.generation, NO_RESIDENT));
    if slot.generation != GENERATION_MAX { PersistUndisturbed(t, s1, Upgrade(slot.plain)); }
  }

  lemma {:induction false} ScrubUndisturbed(d: Device, active: nat, i: nat)
    requires |d.slots| == SLOTS && i <= SLOTS && active < SLOTS && d.alive && d.plan == []
    ensures Scrub(d, active, i).1 == Ok
    decreases SLOTS - i
  {
    if i < SLOTS {
      if i == active || d.slots[i].Empty? {
        ScrubUndisturbed(d, active, i + 1);
      } else {
        ScrubUndisturbed(d.(slots := d.slots[i := Empty]), active, i + 1);
      }
    }
  }

  /** Forget without faults, from a store whose RAM shows no gateway. */
  lemma ForgetUndisturbed(t: Trust, s: State, expected: seq<byte>)
    requires Shape(s) && s.d.alive && s.d.plan == [] && s.r.begun && s.r.active >= 0 && !s.r.resident.flags.gateway
    requires !AllZero(expected)
    ensures var (u, result) := Forget(t, s, expected);
      && result == Ok && u.d.slots[s.r.active] == s.d.slots[s.r.active]
      && forall k :: 0 <= k < SLOTS && k != s.r.active ==> u.d.slots[k].Empty?
  {
    hide Scrub;
    ScrubUndisturbed(s.d, s.r.active, 0);
    ScrubFrame(s.d, s.r.active, 0);
  }

  /** No fault is needed for forget to keep a gateway.  A device with a gateway record of the first version is reset, then asked
      to forget: it reports Ok exactly when the reset did not, for a relay or the last generation, and then the gateway
      is the one thing that is still stored. */
  lemma LegacyForget(t: Trust, s: State, c: nat, expected: seq<byte>)
    requires Shape(s) && LegacyNewest(t, s, c) && s.d.slots[c].plain.flags.gateway && !AllZero(expected)
    ensures var (s1, begun) := Step(t, s, Reset([], true, true)); var (s2, forgot) := Step(t, s1, ForgetGateway(expected));
      var p := s.d.slots[c].plain;
      && (forgot == Ok <==> begun != Ok)
      && (forgot == Ok <==> s.d.slots[c].generation == GENERATION_MAX || p.flags.mobileRelay)
      && (forgot == Ok ==> s2.d.slots[c] == s.d.slots[c] && forall k :: 0 <= k < SLOTS && k != c ==> s2.d.slots[k].Empty?)
  {
    hide Newest, PlainValid, Begin, ForgetChecked, Target;
    MigrationExactly(t, s, c);
    var (s1, begun) := Step(t, s, Reset([], true, true));
    if begun != Ok { ForgetUndisturbed(t, s1, expected); }
  }

  // ----- a relay of the first version, for ever -----

  /** Slot `k` holds a relay record of the first version and no other slot opens. */
  ghost predicate Stuck(t: Trust, s: State, k: nat) {
    && Shape(s) && k < SLOTS
    && Seen(t, s.d.slots[k]).Opened? && s.d.slots[k].version == LEGACY && s.d.slots[k].plain.flags.mobileRelay
    && (forall i :: 0 <= i < SLOTS && i != k ==> !Seen(t, s.d.slots[i]).Opened?)
    && (s.r.begun ==> s.r == Ram(true, k, s.d.slots[k].generation, NO_RESIDENT))
  }

  lemma {:induction false} OneOpens(p: seq<Probe>, k: nat, n: nat)
    requires n <= |p| && k < |p| && p[k].Opened? && forall i :: 0 <= i < |p| && i != k ==> !p[i].Opened?
    ensures Newest(p, n) == if k < n then k else -1
  {
    if n > 0 { OneOpens(p, k, n - 1); }
  }

  /** Slots change, the record does not, and nothing new opens. */
  ghost predicate StillAlone(t: Trust, before: seq<Slot>, after: seq<Slot>, k: nat)
    requires k < SLOTS && |before| == SLOTS
  {
    |after| == SLOTS && after[k] == before[k] && forall i :: 0 <= i < SLOTS && i != k ==> !Seen(t, after[i]).Opened?
  }

  lemma AdoptStuck(t: Trust, s: State, k: nat)
    requires Stuck(t, s, k) && s.r == NO_RAM
    ensures var (u, result) := Adopt(t, s, Probes(t, s.d.slots));
      Stuck(t, u, k) && StillAlone(t, s.d.slots, u.d.slots, k) && result != Ok
  {
    hide Call, Persist, PlainValid, Upgrade, Newest, Target;
    OneOpens(Probes(t, s.d.slots), k, SLOTS);
    var slot := s.d.slots[k];
    MigratesExactly(t, slot.plain);
    var (d1, probe) := Load(t, s.d, k);
    if probe.Opened? && slot.generation != GENERATION_MAX {
      PersistFrame(t, State(d1, Ram(true, k, slot.generation, NO_RESIDENT)), Upgrade(slot.plain));
    }
  }

  lemma ResetStuck(t: Trust, s: State, k: nat, e: Event)
    requires Stuck(t, s, k) && e.Reset?
    ensures var (u, result) := Step(t, s, e); Stuck(t, u, k) && StillAlone(t, s.d.slots, u.d.slots, k) && result != Ok
  {
    hide Call, Adopt, Seen;
    forall u: State | u.d.slots == s.d.slots && u.r == NO_RAM
      ensures var (v, result) := Adopt(t, u, Probes(t, s.d.slots));
        Stuck(t, u, k) && Stuck(t, v, k) && StillAlone(t, s.d.slots, v.d.slots, k) && result != Ok
    {
      AdoptStuck(t, u, k);
    }
    assert forall p: seq<Probe> :: |p| == SLOTS && (forall i :: 0 <= i < SLOTS ==> p[i] == Seen(t, s.d.slots[i])) ==> p == Probes(t, s.d.slots);
  }

  /** An active record of the first version cannot be edited. */
  lemma NoEdit(t: Trust, s: State, k: nat, edit: Plain -> Plain)
    requires Stuck(t, s, k) && s.r.begun && s.r.generation < GENERATION_MAX
    ensures var (u, result) := Update(t, s, edit); u.d.slots == s.d.slots && u.r == s.r && result != Ok
  {
    hide Call, Persist, PlainValid;
  }

  lemma CommitStuck(t: Trust, s: State, k: nat, e: Event)
    requires Stuck(t, s, k) && (e.PutWifi? || e.PutGateway? || e.PutEnrollment?)
    ensures var (u, result) := Step(t, s, e); u.d.slots == s.d.slots && u.r == s.r && result != Ok
  {
    hide Update, GatewayValid, ChainFits, Seen;
    if s.r.begun && s.r.generation < GENERATION_MAX {
      if e.PutWifi? { NoEdit(t, s, k, p => SetWifi(p, e.wifi)); }
      if e.PutGateway? { NoEdit(t, s, k, p => SetGateway(p, e.gateway, e.mobileRelay, e.bootstrapPort)); }
    }
  }

  lemma ForgetStuck(t: Trust, s: State, k: nat, expected: seq<byte>)
    requires Stuck(t, s, k)
    ensures var u := Forget(t, s, expected).0; Stuck(t, u, k) && StillAlone(t, s.d.slots, u.d.slots, k)
  {
    hide Call, Scrub, PlainValid;
    forall d: Device | d.slots == s.d.slots && s.r.begun
      ensures |Scrub(d, k, 0).0.slots| == SLOTS && StillAlone(t, s.d.slots, Scrub(d, k, 0).0.slots, k)
    {
      ScrubFrame(d, k, 0);
    }
  }

  /** Every event but the loss of that slot leaves the record in place and opens no other slot; of requests and resets, only
      forget can report Ok. */
  lemma StepStuck(t: Trust, s: State, k: nat, e: Event)
    requires Stuck(t, s, k) && (e.Damage? ==> e.slot % SLOTS != k)
    ensures var (u, result) := Step(t, s, e);
      && Stuck(t, u, k) && u.d.slots[k] == s.d.slots[k] && (result == Ok ==> e.ForgetGateway? || e.Damage?)
  {
    hide Begin, Update, Forget, Seen, GatewayValid, ChainFits;
    match e
    case Reset(_, _, _) => ResetStuck(t, s, k, e);
    case ForgetGateway(expected) => ForgetStuck(t, s, k, expected);
    case Damage(_, _) => BrokenNeverOpens(t);
    case _ => CommitStuck(t, s, k, e);
  }

  lemma BrokenNeverOpens(t: Trust)
    ensures !Seen(t, Empty).Opened? && !Seen(t, Garbage).Opened?
  {
  }

  /** A device with a relay record of the first version, through resets, power cuts, requests and losses of other slots in any
      order: the gateway stays stored and is what every reset finds, no RAM ever shows it, and no reset and no commit reports
      Ok again. */
  lemma {:induction false} RelayForever(t: Trust, s: State, k: nat, events: seq<Event>)
    requires Stuck(t, s, k) && forall j :: 0 <= j < |events| && events[j].Damage? ==> events[j].slot % SLOTS != k
    ensures var u := Run(t, s, events);
      && Stuck(t, u, k) && u.d.slots[k] == s.d.slots[k] && !(u.r.begun && u.r.resident.flags.gateway)
      && Recoverable(t, u.d.slots) == Some(Upgrade(s.d.slots[k].plain))
    ensures forall e: Event ::
      Step(t, Run(t, s, events), e).1 == Ok ==> e.ForgetGateway? || e.Damage?
    decreases |events|
  {
    hide Step, Seen, Newest;
    if events != [] {
      var n := |events| - 1;
      RelayForever(t, s, k, events[..n]);
      StepStuck(t, Run(t, s, events[..n]), k, events[n]);
    }
    var u := Run(t, s, events);
    OneOpens(Probes(t, u.d.slots), k, SLOTS);
    forall e: Event | Step(t, u, e).1 == Ok ensures e.ForgetGateway? || e.Damage? {
      if !e.Damage? { StepStuck(t, u, k, e); }
    }
  }
}
