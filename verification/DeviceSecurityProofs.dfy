/** What the controller store keeps across faults, power cuts, resets and the loss of a slot. */
module DeviceSecurityProofs {
  import opened Bytes
  import opened DeviceSecurity

  // ----- generations -----

  /** Consecutive generations compare the right way round, across the wrap too. */
  lemma NextIsAfter(g: u32)
    ensures After32(Next(g), g) && !After32(g, Next(g)) && Next(g) != g
  {
    if g + 1 < TWO_32 {
      assert Sub32(Next(g), g) == 1;
      assert (g - Next(g)) % TWO_32 == TWO_32 - 1;
    } else {
      assert (0 - g) % TWO_32 == 1;
      assert (g - 0) % TWO_32 == g;
    }
  }

  ghost predicate Neighbours(g: u32, h: u32) {
    h == Next(g) || g == Next(h)
  }

  /** Two records are always one generation apart. */
  ghost predicate Adjacent(slots: seq<Slot>)
    requires |slots| == 2
  {
    slots[0].Sealed? && slots[1].Sealed? ==> Neighbours(slots[0].generation, slots[1].generation)
  }

  /** The active slot, unless lost, has the current generation; the other one an adjacent one. */
  ghost predicate Lined(s: State)
    requires Shape(s)
  {
    s.r.active >= 0 ==>
      && (s.d.slots[s.r.active].Sealed? ==> s.d.slots[s.r.active].generation == s.r.generation)
      && (s.d.slots[Other(s.r.active)].Sealed? ==> Neighbours(s.r.generation, s.d.slots[Other(s.r.active)].generation))
  }

  // ----- controllers -----

  ghost predicate Holds(controllers: seq<Controller>, id: seq<byte>) {
    exists i :: 0 <= i < |controllers| && controllers[i].valid && controllers[i].id == id
  }

  ghost predicate Unique(controllers: seq<Controller>) {
    forall i, j :: 0 <= i < j < |controllers| && controllers[i].valid && controllers[j].valid ==>
      controllers[i].id != controllers[j].id
  }

  ghost predicate UniqueIn(s: Slot) {
    s.Sealed? ==> Unique(s.material.controllers)
  }

  /** A begun store holds in RAM what its active slot holds, and that record decodes. */
  ghost predicate RamTrue(s: State)
    requires Shape(s)
  {
    && (s.r.begun <==> s.r.active >= 0)
    && (s.r.begun && s.d.slots[s.r.active].Sealed? ==>
          s.d.slots[s.r.active].material == s.r.material && s.d.slots[s.r.active].readable)
  }

  ghost predicate Inv(s: State) {
    && Shape(s) && Adjacent(s.d.slots) && Lined(s) && RamTrue(s)
    && Unique(s.r.material.controllers) && UniqueIn(s.d.slots[0]) && UniqueIn(s.d.slots[1])
  }

  // ----- transactions -----

  ghost predicate OneSlotWritten(s: State, t: State, i: nat)
    requires Shape(s) && Shape(t) && i < 2
  {
    t.d.slots == s.d.slots[i := t.d.slots[i]]
  }

  /** `persist` never writes the active slot, and moves to what it wrote exactly when it reports success. */
  lemma PersistFrame(s: State)
    requires Shape(s)
    ensures var (t, result) := Persist(s); var i := Other(s.r.active);
      var record := Sealed(Next(s.r.generation), s.r.material, false, true);
      && OneSlotWritten(s, t, i) && t.d.slots[i] in {s.d.slots[i], Garbage, record}
      && (result == Ok ==> t.d.slots[i] == record && t.r == s.r.(active := i, generation := Next(s.r.generation)))
      && (result != Ok ==> t.r == s.r)
  {
    hide Encode, Call, Write;
  }

  lemma RetireFrame(s: State)
    requires Shape(s)
    ensures var (t, result) := Retire(s); var i := Other(s.r.active);
      var record := Sealed(Next(s.r.generation), s.r.material.(pending := false), false, true);
      && OneSlotWritten(s, t, i) && t.d.slots[i] in {s.d.slots[i], Garbage, Empty, record}
      && (!s.r.material.pending ==> t == s && result == Ok)
      && (s.r.material.pending && result == Ok ==>
            t.d.slots[i] == record
            && t.r == s.r.(active := i, generation := Next(s.r.generation), material := s.r.material.(pending := false)))
      && (result != Ok ==> t.r == s.r)
  {
    hide Persist, Call;
    if s.r.material.pending && s.r.active >= 0 {
      var i := Other(s.r.active);
      var (d1, cleared) := Write(s.d, i, Empty);
      var (d2, probe) := Validate(d1, i);
      PersistFrame(SetPending(s.(d := d2), false));
    }
  }

  /** The material to be stored, without the retirement flag. */
  function Core(m: Material): Material {
    m.(pending := false)
  }

  /** What the next undisturbed `begin` finds. */
  function Recoverable(slots: seq<Slot>): Option<Material>
    requires |slots| == 2
  {
    var i := Newest(Seen(slots[0]), Seen(slots[1]));
    if i < 0 then None else Some(Core(slots[i].material))
  }

  /** The slot that is not active holds a record newer than the active one. */
  ghost predicate Ahead(s: State)
    requires Shape(s)
  {
    var other := s.d.slots[Other(s.r.active)];
    other.Sealed? && other.generation == Next(s.r.generation)
  }

  lemma NewerWins(s: State)
    requires Shape(s) && s.r.active >= 0 && Lined(s) && s.d.slots[s.r.active].Sealed?
    ensures var i := if Ahead(s) then Other(s.r.active) else s.r.active;
      Newest(Seen(s.d.slots[0]), Seen(s.d.slots[1])) == i && Recoverable(s.d.slots) == Some(Core(s.d.slots[i].material))
  {
    hide Next, After32;
    NextIsAfter(s.r.generation);
    if s.d.slots[Other(s.r.active)].Sealed? { NextIsAfter(s.d.slots[Other(s.r.active)].generation); }
  }

  /** The next `begin` finds what RAM holds, unless a write that was reported failed did land: then it finds that. */
  lemma SyncedUnlessAhead(s: State)
    requires Inv(s) && s.r.begun && s.d.slots[s.r.active].Sealed?
    ensures Recoverable(s.d.slots)
         == Some(Core(if Ahead(s) then s.d.slots[Other(s.r.active)].material else s.r.material))
  {
    NewerWins(s);
  }

  ghost predicate Recovers(slots: seq<Slot>, a: Option<Material>, b: Material, c: Material)
    requires |slots| == 2
  {
    Recoverable(slots) in {a, Some(b), Some(c)}
  }

  lemma PersistRecovers(s: State)
    requires Shape(s) && s.r.active >= 0 && Lined(s) && s.d.slots[s.r.active].Sealed?
    ensures var (t, result) := Persist(s);
      && Lined(t) && Shape(t) && t.r.active >= 0 && t.d.slots[t.r.active].Sealed? && t.d.slots[s.r.active] == s.d.slots[s.r.active]
      && Recovers(t.d.slots, Recoverable(s.d.slots), Core(s.d.slots[s.r.active].material), Core(s.r.material))
      && (result == Ok ==> Recoverable(t.d.slots) == Some(Core(s.r.material)))
  {
    hide Persist, Recoverable, Next;
    NextIsAfter(s.r.generation);
    PersistFrame(s);
    var (t, result) := Persist(s);
    NewerWins(s);
    NewerWins(t);
    if t.d.slots[Other(s.r.active)] == s.d.slots[Other(s.r.active)] { assert t.d.slots == s.d.slots; }
    else { NewerWins(t.(r := s.r)); }
  }

  lemma RetireRecovers(s: State)
    requires Shape(s) && s.r.active >= 0 && Lined(s) && s.d.slots[s.r.active].Sealed?
    requires s.d.slots[s.r.active].material == s.r.material
    ensures var (t, result) := Retire(s);
      && Lined(t) && Shape(t) && t.r.active >= 0 && t.d.slots[t.r.active].Sealed?
      && Core(t.d.slots[t.r.active].material) == Core(t.r.material) == Core(s.r.material)
      && Recoverable(t.d.slots) in {Recoverable(s.d.slots), Some(Core(s.r.material))}
      && (s.r.material.pending && result == Ok ==> Recoverable(t.d.slots) == Some(Core(s.r.material)))
  {
    hide Retire, Recoverable, Next;
    NextIsAfter(s.r.generation);
    RetireFrame(s);
    var (t, result) := Retire(s);
    NewerWins(s);
    NewerWins(t);
    if t.d.slots[Other(s.r.active)] == s.d.slots[Other(s.r.active)] { assert t.d.slots == s.d.slots; }
    else { NewerWins(t.(r := s.r)); }
  }

  lemma ReplaceRecovers(s: State, controllers: seq<Controller>)
    requires Shape(s) && s.r.active >= 0 && Lined(s) && s.d.slots[s.r.active].Sealed?
    requires s.d.slots[s.r.active].material == s.r.material && |controllers| == CONTROLLERS
    ensures var (t, result) := Replace(s, controllers); var m := s.r.material.(controllers := controllers);
      && Recovers(t.d.slots, Recoverable(s.d.slots), Core(s.r.material), Core(m))
      && (result == Ok ==> Recoverable(t.d.slots) == Some(Core(m)))
  {
    hide Persist, Retire, Recoverable, Lined;
    var s0 := WithControllers(s, controllers, true);
    assert Lined(s0) by { LinedIgnoresMaterial(s, s0); }
    PersistRecovers(s0);
    PersistFrame(s0);
    var (s1, persisted) := Persist(s0);
    if persisted == Ok { RetireRecovers(s1); RetireFrame(s1); }
  }

  lemma LinedIgnoresMaterial(s: State, t: State)
    requires Shape(s) && Shape(t) && Lined(s) && t == s.(r := t.r)
    requires t.r.active == s.r.active && t.r.generation == s.r.generation
    ensures Lined(t)
  {
  }

  // ----- old or new -----

  /** The controllers a successful request leaves behind. */
  function Intended(controllers: seq<Controller>, e: Event): (after: seq<Controller>)
    requires |controllers| == CONTROLLERS
    ensures |after| == CONTROLLERS
  {
    match e
    case Pair(id, root, role, _) =>
      var k := Place(controllers, id);
      if k < CONTROLLERS && role.Some? then controllers[k := Controller(true, role.value, id, root)] else controllers
    case RevokeOne(id, _) =>
      var k := Find(controllers, id, 0);
      if k < CONTROLLERS then controllers[k := NO_CONTROLLER] else controllers
    case RevokeEvery(_) => if AnyValid(controllers) then NO_CONTROLLERS else controllers
    case _ => controllers
  }

  lemma CommitOldOrNew(s: State, e: Event)
    requires Inv(s) && e.Pair? && (s.r.begun ==> s.d.slots[s.r.active].Sealed?)
    ensures var (t, result) := Step(s, e); var m := s.r.material.(controllers := Intended(s.r.material.controllers, e));
      && Recovers(t.d.slots, Recoverable(s.d.slots), Core(s.r.material), Core(m))
      && (result == Ok ==> Recoverable(t.d.slots) == Some(Core(m)))
  {
    hide Persist, Recoverable, Lined, Place, Adjacent, Unique;
    if s.r.begun {
      var s0 := WithControllers(s, Intended(s.r.material.controllers, e), s.r.material.pending);
      LinedIgnoresMaterial(s, s0);
      PersistRecovers(s0);
    }
  }

  lemma RevokeOldOrNew(s: State, e: Event)
    requires Inv(s) && (e.RevokeOne? || e.RevokeEvery?) && (s.r.begun ==> s.d.slots[s.r.active].Sealed?)
    ensures var (t, result) := Step(s, e); var m := s.r.material.(controllers := Intended(s.r.material.controllers, e));
      && Recovers(t.d.slots, Recoverable(s.d.slots), Core(s.r.material), Core(m))
      && (result == Ok && (s.r.material.pending || AnyValid(s.r.material.controllers)) ==> Recoverable(t.d.slots) == Some(Core(m)))
  {
    hide Replace, Retire, Recoverable, Lined, Find, Adjacent, Unique, AnyValid;
    if s.r.begun {
      RetireRecovers(s);
      RetireFrame(s);
      var (s1, resumed) := Retire(s);
      if resumed == Ok {
        var controllers := Intended(s.r.material.controllers, e);
        ReplaceRecovers(s1, controllers);
      }
    }
  }

  /** A request on an intact store, cut anywhere, leaves the next `begin` with the old material, the new material, or a record
      that had landed earlier although it was reported failed; with the new one if it reports success.  Without such a record
      it is old or new. */
  lemma OldOrNew(s: State, e: Event)
    requires Inv(s) && s.r.begun && s.d.slots[s.r.active].Sealed? && (e.Pair? || e.RevokeOne? || e.RevokeEvery?)
    ensures var (t, result) := Step(s, e);
      var before, after := s.r.material, s.r.material.(controllers := Intended(s.r.material.controllers, e));
      && Recoverable(t.d.slots) in {Some(Core(before)), Some(Core(after)), Recoverable(s.d.slots)}
      && (!Ahead(s) ==> Recoverable(s.d.slots) == Some(Core(before)))
      && (result == Ok && (e.Pair? || s.r.material.pending || AnyValid(s.r.material.controllers) || !Ahead(s)) ==>
            Recoverable(t.d.slots) == Some(Core(after)))
  {
    hide Recoverable, Step, Lined, Adjacent, Unique, AnyValid;
    SyncedUnlessAhead(s);
    if e.Pair? { CommitOldOrNew(s, e); } else {
      RevokeOldOrNew(s, e);
      if Step(s, e).1 == Ok && !AnyValid(s.r.material.controllers) { NothingToRevoke(s, e); }
    }
  }

  /** With no controller left, a revocation intends no change. */
  lemma NothingToRevoke(s: State, e: Event)
    requires Shape(s) && (e.RevokeOne? || e.RevokeEvery?) && !AnyValid(s.r.material.controllers)
    ensures Intended(s.r.material.controllers, e) == s.r.material.controllers
  {
    if e.RevokeOne? {
      assert Find(s.r.material.controllers, e.id, 0) == CONTROLLERS;
    }
  }

  // ----- begin -----

  lemma MigrateRecovers(s: State, retired: bool)
    requires Shape(s) && s.r.active >= 0 && Lined(s) && s.d.slots[s.r.active].Sealed?
    requires s.d.slots[s.r.active].material == s.r.material && !Ahead(s)
    ensures var (t, result) := Migrate(s, retired);
      && Recoverable(t.d.slots) == Recoverable(s.d.slots) == Some(Core(s.r.material))
      && (result == OkReflashable ==> t.r.begun && Core(t.r.material) == Core(s.r.material))
      && (result != OkReflashable ==> t.r == NO_RAM)
  {
    hide Persist, Retire, Recoverable, Lined;
    NewerWins(s);
    RetireRecovers(s);
    RetireFrame(s);
    var (s1, resumed) := Retire(s);
    if resumed == Ok && retired {
      var s2 := SetPending(s1, true);
      LinedIgnoresMaterial(s1, s2);
      PersistRecovers(s2);
      PersistFrame(s2);
      var (s3, migrated) := Persist(s2);
      if migrated == Ok { RetireRecovers(s3); RetireFrame(s3); }
    }
  }

  lemma ChosenIsLined(s: State, i: nat)
    requires Shape(s) && Adjacent(s.d.slots) && Newest(Seen(s.d.slots[0]), Seen(s.d.slots[1])) == i
    requires s.r.active == i && s.r.generation == s.d.slots[i].generation
    ensures Lined(s) && !Ahead(s)
  {
    hide Next, After32;
    NextIsAfter(s.d.slots[i].generation);
    if s.d.slots[1 - i].Sealed? { NextIsAfter(s.d.slots[1 - i].generation); }
  }

  /** Creating the first material writes only slot 0. */
  lemma CreateFrame(s: State, deviceId: seq<byte>, secret: seq<byte>)
    requires Shape(s) && s.r == NO_RAM
    ensures var (t, result) := Create(s, deviceId, secret); var m := Material(deviceId, secret, NO_CONTROLLERS, false);
      && OneSlotWritten(s, t, 0) && t.d.slots[0] in {s.d.slots[0], Garbage, Sealed(1, m, false, true)}
      && (result == OkReflashable ==> t.d.slots[0] == Sealed(1, m, false, true) && t.r == Ram(true, 0, 1, m))
      && (result != OkReflashable ==> !t.r.begun && t.r.active == -1 && t.r.material.controllers == NO_CONTROLLERS)
  {
    hide Persist, Call;
    var d1 := Plain(s.d).0;
    var d2 := Plain(d1).0;
    PersistFrame(State(d2, Ram(true, -1, 0, Material(deviceId, secret, NO_CONTROLLERS, false))));
  }

  /** A reset, however often its own repairs are cut, changes nothing about what can be recovered; when it succeeds RAM
      holds exactly that. */
  lemma ResetRecovers(s: State, e: Event)
    requires Inv(s) && e.Reset? && Recoverable(s.d.slots).Some?
    ensures var (t, result) := Step(s, e);
      && Recoverable(t.d.slots) == Recoverable(s.d.slots)
      && (result == OkReflashable ==> t.r.begun && Some(Core(t.r.material)) == Recoverable(s.d.slots))
      && (result != OkReflashable ==> !t.r.begun)
  {
    hide Migrate, Call, Recoverable, Lined, Unique, Adjacent;
    var p0, p1 := Seen(s.d.slots[0]), Seen(s.d.slots[1]);
    var i := Newest(p0, p1);
    assert i >= 0 by { assert Recoverable(s.d.slots).Some?; NewestExists(s.d.slots); }
    var slot := s.d.slots[i];
    forall d: Device | d.slots == s.d.slots
      ensures var u := State(d, Ram(false, i, slot.generation, slot.material)); var (t, result) := Migrate(u, slot.retired);
        && Recoverable(t.d.slots) == Recoverable(s.d.slots) == Some(Core(slot.material))
        && (result == OkReflashable ==> t.r.begun && Core(t.r.material) == Core(slot.material))
        && (result != OkReflashable ==> t.r == NO_RAM)
    {
      var u := State(d, Ram(false, i, slot.generation, slot.material));
      ChosenIsLined(u, i);
      MigrateRecovers(u, slot.retired);
    }
  }

  lemma NewestExists(slots: seq<Slot>)
    requires |slots| == 2
    ensures Recoverable(slots).Some? <==> Newest(Seen(slots[0]), Seen(slots[1])) >= 0
  {
  }

  // ----- properties of every controller table -----

  type Table = seq<Controller>

  /** `p` holds of the table in RAM and of each stored one. */
  ghost predicate Everywhere(s: State, p: Table -> bool)
    requires Shape(s)
  {
    && p(s.r.material.controllers)
    && (s.d.slots[0].Sealed? ==> p(s.d.slots[0].material.controllers))
    && (s.d.slots[1].Sealed? ==> p(s.d.slots[1].material.controllers))
  }

  lemma PersistEverywhere(s: State, p: Table -> bool)
    requires Shape(s) && Everywhere(s, p)
    ensures Everywhere(Persist(s).0, p)
  {
    hide Persist;
    PersistFrame(s);
  }

  lemma RetireEverywhere(s: State, p: Table -> bool)
    requires Shape(s) && Everywhere(s, p)
    ensures Everywhere(Retire(s).0, p)
  {
    hide Retire;
    RetireFrame(s);
  }

  /** Writing `controllers` may fail: then RAM returns to what it held. */
  lemma CommitEverywhere(s: State, controllers: Table, pending: bool, p: Table -> bool)
    requires Shape(s) && Everywhere(s, p) && |controllers| == CONTROLLERS && p(controllers)
    ensures var (t, result) := Persist(WithControllers(s, controllers, pending));
      Everywhere(t, p) && Everywhere(WithControllers(t, s.r.material.controllers, s.r.material.pending), p)
  {
    hide Persist;
    PersistEverywhere(WithControllers(s, controllers, pending), p);
  }

  lemma ReplaceEverywhere(s: State, controllers: Table, p: Table -> bool)
    requires Shape(s) && Everywhere(s, p) && |controllers| == CONTROLLERS && p(controllers)
    ensures Everywhere(Replace(s, controllers).0, p)
  {
    hide Persist, Retire;
    var s0 := WithControllers(s, controllers, true);
    CommitEverywhere(s, controllers, true, p);
    RetireEverywhere(Persist(s0).0, p);
  }

  lemma MigrateEverywhere(s: State, retired: bool, p: Table -> bool)
    requires Shape(s) && Everywhere(s, p) && p(NO_CONTROLLERS)
    ensures Everywhere(Migrate(s, retired).0, p)
  {
    hide Persist, Retire;
    RetireEverywhere(s, p);
    var s1 := Retire(s).0;
    PersistEverywhere(SetPending(s1, true), p);
    RetireEverywhere(Persist(SetPending(s1, true)).0, p);
  }

  lemma ResetEverywhere(s: State, e: Event, p: Table -> bool)
    requires Shape(s) && Everywhere(s, p) && p(NO_CONTROLLERS) && e.Reset?
    ensures Everywhere(Step(s, e).0, p)
  {
    hide Migrate, Create, Call, Recoverable;
    forall u: State, retired | Shape(u) && Everywhere(u, p) ensures Everywhere(Migrate(u, retired).0, p) {
      MigrateEverywhere(u, retired, p);
    }
    forall u: State | Shape(u) && Everywhere(u, p) && u.r == NO_RAM ensures Everywhere(Create(u, e.deviceId, e.secret).0, p) {
      CreateFrame(u, e.deviceId, e.secret);
    }
  }

  lemma PairEverywhere(s: State, e: Event, p: Table -> bool)
    requires Shape(s) && Everywhere(s, p) && e.Pair? && p(Intended(s.r.material.controllers, e))
    ensures Everywhere(Step(s, e).0, p)
  {
    hide Persist, Place;
    CommitEverywhere(s, Intended(s.r.material.controllers, e), s.r.material.pending, p);
  }

  lemma RevokeEverywhere(s: State, e: Event, p: Table -> bool)
    requires Shape(s) && Everywhere(s, p) && (e.RevokeOne? || e.RevokeEvery?) && p(Intended(s.r.material.controllers, e))
    ensures Everywhere(Step(s, e).0, p)
  {
    hide Retire, Replace, Everywhere, Find, AnyValid;
    RetireEverywhere(s, p);
    RetireFrame(s);
    if Retire(s).1 == Ok { ReplaceEverywhere(Retire(s).0, Intended(s.r.material.controllers, e), p); }
  }

  /** A property of tables that the empty table has and that an event's intended change keeps is kept everywhere,
      whatever fails on the way. */
  lemma StepEverywhere(s: State, e: Event, p: Table -> bool)
    requires Shape(s) && Everywhere(s, p) && p(NO_CONTROLLERS)
    requires p(Intended(s.r.material.controllers, e))
    ensures Everywhere(Step(s, e).0, p)
  {
    hide Begin, Commit, Revoke, RevokeAll, Intended;
    if e.Reset? {
      ResetEverywhere(s, e, p);
    } else if e.Pair? {
      PairEverywhere(s, e, p);
    } else if !e.Damage? {
      RevokeEverywhere(s, e, p);
    }
  }

  // ----- the invariant -----

  lemma AdjacentIfLined(s: State)
    requires Shape(s) && s.r.active >= 0 && Lined(s)
    ensures Adjacent(s.d.slots)
  {
  }

  ghost predicate Matched(s: State)
    requires Shape(s) && s.r.active >= 0
  {
    var slot := s.d.slots[s.r.active];
    slot.Sealed? ==> slot.material == s.r.material && slot.readable
  }

  lemma PersistLined(s: State)
    requires Shape(s) && s.r.active >= 0 && Lined(s)
    ensures var (t, result) := Persist(s); t.r.active >= 0 && Lined(t) && (result == Ok ==> Matched(t)) && t.r.begun == s.r.begun
  {
    hide Persist, Next;
    PersistFrame(s);
  }

  lemma RetireLined(s: State)
    requires Shape(s) && s.r.active >= 0 && Lined(s) && Matched(s)
    ensures var t := Retire(s).0; t.r.active >= 0 && Lined(t) && Matched(t) && t.r.begun == s.r.begun
  {
    hide Retire, Next;
    RetireFrame(s);
  }

  lemma ReplaceLined(s: State, controllers: Table)
    requires Shape(s) && s.r.active >= 0 && Lined(s) && Matched(s) && |controllers| == CONTROLLERS && !s.r.material.pending
    ensures var t := Replace(s, controllers).0; t.r.active >= 0 && Lined(t) && Matched(t) && t.r.begun == s.r.begun
  {
    hide Persist, Retire, Lined;
    var s0 := WithControllers(s, controllers, true);
    LinedIgnoresMaterial(s, s0);
    PersistLined(s0);
    PersistFrame(s0);
    var (s1, persisted) := Persist(s0);
    if persisted == Ok { RetireLined(s1); } else { LinedIgnoresMaterial(s1, WithControllers(s1, s.r.material.controllers, false)); }
  }

  lemma CommitLined(s: State, e: Event)
    requires Inv(s) && e.Pair?
    ensures var t := Step(s, e).0; Shape(t) && Adjacent(t.d.slots) && Lined(t) && RamTrue(t)
  {
    hide Persist, Lined, Adjacent, Place, Unique;
    if s.r.begun {
      var s0 := WithControllers(s, Intended(s.r.material.controllers, e), s.r.material.pending);
      LinedIgnoresMaterial(s, s0);
      PersistLined(s0);
      PersistFrame(s0);
      var s1 := Persist(s0).0;
      LinedIgnoresMaterial(s1, WithControllers(s1, s.r.material.controllers, s.r.material.pending));
      AdjacentIfLined(Step(s, e).0);
    }
  }

  lemma RevokeLined(s: State, e: Event)
    requires Inv(s) && (e.RevokeOne? || e.RevokeEvery?)
    ensures var t := Step(s, e).0; Shape(t) && Adjacent(t.d.slots) && Lined(t) && RamTrue(t)
  {
    hide Replace, Retire, Lined, Adjacent, Find, AnyValid, Unique;
    if s.r.begun {
      RetireLined(s);
      RetireFrame(s);
      var (s1, resumed) := Retire(s);
      if resumed == Ok { ReplaceLined(s1, Intended(s.r.material.controllers, e)); }
      AdjacentIfLined(Step(s, e).0);
    }
  }

  lemma MigrateLined(s: State, retired: bool)
    requires Shape(s) && s.r.active >= 0 && Lined(s) && Matched(s) && !s.r.begun
    ensures var t := Migrate(s, retired).0; Adjacent(t.d.slots) && Lined(t) && RamTrue(t)
  {
    hide Persist, Retire, Lined, Adjacent;
    RetireLined(s);
    var (s1, resumed) := Retire(s);
    AdjacentIfLined(s1);
    var u := s1.(r := s1.r.(begun := true));
    LinedIgnoresMaterial(s1, u);
    if resumed == Ok && retired {
      var s2 := SetPending(s1, true);
      LinedIgnoresMaterial(s1, s2);
      PersistLined(s2);
      var (s3, migrated) := Persist(s2);
      AdjacentIfLined(s3);
      if migrated == Ok {
        RetireLined(s3);
        var s4 := Retire(s3).0;
        AdjacentIfLined(s4);
        LinedIgnoresMaterial(s4, s4.(r := s4.r.(begun := true)));
      }
    }
    NoRamIsTrue(Migrate(s, retired).0);
  }

  lemma NoRamIsTrue(t: State)
    requires Shape(t)
    ensures t.r == NO_RAM ==> Lined(t) && RamTrue(t)
  {
  }

  lemma ResetLined(s: State, e: Event)
    requires Inv(s) && e.Reset?
    ensures var t := Step(s, e).0; Shape(t) && Adjacent(t.d.slots) && Lined(t) && RamTrue(t)
  {
    hide Migrate, Create, Call, Lined, Recoverable, Unique;
    var i := Newest(Seen(s.d.slots[0]), Seen(s.d.slots[1]));
    if i >= 0 && s.d.slots[i].readable {
      var slot := s.d.slots[i];
      forall d: Device | d.slots == s.d.slots
        ensures var t := Migrate(State(d, Ram(false, i, slot.generation, slot.material)), slot.retired).0;
          Adjacent(t.d.slots) && Lined(t) && RamTrue(t)
      {
        var u := State(d, Ram(false, i, slot.generation, slot.material));
        ChosenIsLined(u, i);
        MigrateLined(u, slot.retired);
      }
    }
    forall u: State | u.d.slots == s.d.slots && u.r == NO_RAM && s.d.slots[0] == Empty && s.d.slots[1] == Empty
      ensures var t := Create(u, e.deviceId, e.secret).0; Adjacent(t.d.slots) && Lined(t) && RamTrue(t)
    {
      CreateLined(u, e.deviceId, e.secret);
    }
    forall u: State | Shape(u) && u.r == NO_RAM ensures Lined(u) && RamTrue(u) { NoRamIsTrue(u); }
  }

  lemma CreateLined(s: State, deviceId: seq<byte>, secret: seq<byte>)
    requires Shape(s) && s.r == NO_RAM && s.d.slots[0] == Empty && s.d.slots[1] == Empty
    ensures var t := Create(s, deviceId, secret).0; Adjacent(t.d.slots) && Lined(t) && RamTrue(t)
  {
    hide Create;
    CreateFrame(s, deviceId, secret);
  }

  /** At most one entry per controller is a property every intended change keeps. */
  lemma UniqueKept(t: Table, e: Event)
    requires |t| == CONTROLLERS && Unique(t)
    ensures Unique(Intended(t, e))
  {
  }

  lemma NoneIsUnique()
    ensures Unique(NO_CONTROLLERS)
  {
  }

  /** Every event keeps the invariant. */
  lemma StepKeeps(s: State, e: Event)
    requires Inv(s)
    ensures Inv(Step(s, e).0)
  {
    hide Step, Intended, Unique;
    UniqueKept(s.r.material.controllers, e);
    NoneIsUnique();
    StepEverywhere(s, e, t => Unique(t));
    assert Shape(Step(s, e).0) && Adjacent(Step(s, e).0.d.slots) && Lined(Step(s, e).0) && RamTrue(Step(s, e).0) by {
      if e.Reset? { ResetLined(s, e); }
      else if e.Pair? { CommitLined(s, e); }
      else if e.Damage? { DamageLined(s, e); }
      else { RevokeLined(s, e); }
    }
  }

  lemma DamageLined(s: State, e: Event)
    requires Inv(s) && e.Damage?
    ensures var t := Step(s, e).0; Shape(t) && Adjacent(t.d.slots) && Lined(t) && RamTrue(t)
  {
    hide Unique;
  }

  function Run(s: State, events: seq<Event>): (t: State)
    requires Shape(s)
    ensures Shape(t)
    decreases |events|
  {
    if events == [] then s else Step(Run(s, events[..|events| - 1]), events[|events| - 1]).0
  }

  lemma {:induction false} RunKeeps(s: State, events: seq<Event>)
    requires Inv(s)
    ensures Inv(Run(s, events))
  {
    hide Step, Adjacent, Lined, RamTrue, Unique;
    if events != [] {
      RunKeeps(s, events[..|events| - 1]);
      StepKeeps(Run(s, events[..|events| - 1]), events[|events| - 1]);
    }
  }

  lemma BlankIsTrue(d: Device)
    requires d.slots == [Empty, Empty]
    ensures Inv(State(d, NO_RAM))
  {
    NoneIsUnique();
  }

  /** A reset without faults serves exactly when the record `begin` chooses decodes or, with none to choose, both slots are
      empty. */
  lemma ServesExactly(s: State, e: Event)
    requires Shape(s) && e.Reset? && e.reflashable && e.plan == []
    ensures var i := Newest(Seen(s.d.slots[0]), Seen(s.d.slots[1]));
      Step(s, e).1 == OkReflashable <==> if i >= 0 then s.d.slots[i].readable else s.d.slots == [Empty, Empty]
  {
    hide After32;
    var i := Newest(Seen(s.d.slots[0]), Seen(s.d.slots[1]));
    if i >= 0 {
      var d := s.d.(plan := [], alive := true);
      MigrateSucceeds(State(d, Ram(false, i, s.d.slots[i].generation, s.d.slots[i].material)), s.d.slots[i].retired);
    }
  }

  lemma PersistSucceeds(s: State)
    requires Shape(s) && s.d.alive && s.d.plan == []
    ensures var (t, result) := Persist(s); result == Ok && t.d.alive && t.d.plan == [] && t.r.active >= 0
  {
  }

  lemma RetireSucceeds(s: State)
    requires Shape(s) && s.d.alive && s.d.plan == [] && s.r.active >= 0
    ensures var (t, result) := Retire(s); result == Ok && t.d.alive && t.d.plan == [] && t.r.active >= 0
  {
    hide Persist;
    if s.r.material.pending {
      PersistSucceeds(SetPending(s.(d := Write(s.d, Other(s.r.active), Empty).0), false));
    }
  }

  lemma MigrateSucceeds(s: State, retired: bool)
    requires Shape(s) && s.d.alive && s.d.plan == [] && s.r.active >= 0
    ensures Migrate(s, retired).1 == OkReflashable
  {
    hide Persist, Retire;
    RetireSucceeds(s);
    PersistSucceeds(SetPending(Retire(s).0, true));
    RetireSucceeds(Persist(SetPending(Retire(s).0, true)).0);
  }

  /** The first record of a blank device, cut anywhere: the next reset without faults serves exactly when the cut did not tear
      it, so that the slot is still empty or the record landed. */
  lemma FirstWriteCut(s: State, first: Event, next: Event)
    requires Shape(s) && s.d.slots == [Empty, Empty] && first.Reset? && first.reflashable
    requires next.Reset? && next.reflashable && next.plan == []
    ensures var t := Step(s, first).0;
      && t.d.slots[0] in {Empty, Garbage, Sealed(1, Material(first.deviceId, first.secret, NO_CONTROLLERS, false), false, true)}
      && t.d.slots[1] == Empty && (Step(t, next).1 == OkReflashable <==> t.d.slots[0] != Garbage)
  {
    hide Create, Call;
    forall d: Device | d.slots == s.d.slots
      ensures var t := Create(State(d, NO_RAM), first.deviceId, first.secret).0;
        OneSlotWritten(s, t, 0)
        && t.d.slots[0] in {Empty, Garbage, Sealed(1, Material(first.deviceId, first.secret, NO_CONTROLLERS, false), false, true)}
    {
      CreateFrame(State(d, NO_RAM), first.deviceId, first.secret);
    }
    ServesExactly(Step(s, first).0, next);
  }

  /** A torn slot beside no record is never replaced: whatever fails, no later `begin` succeeds or writes. */
  lemma TornFirstWrite(s: State, e: Event)
    requires Shape(s) && e.Reset? && Recoverable(s.d.slots) == None && Garbage in s.d.slots
    ensures var (t, result) := Step(s, e); !t.r.begun && result != OkReflashable && t.d.slots == s.d.slots
  {
    hide Call;
    assert s.d.slots[0] == Garbage || s.d.slots[1] == Garbage;
  }

  // ----- revocation -----

  /** No slot and no RAM entry names the controller. */
  ghost predicate Forgotten(s: State, id: seq<byte>)
    requires Shape(s)
  {
    Everywhere(s, t => !Holds(t, id))
  }

  /** A finished retirement leaves the table of RAM in both slots. */
  lemma RetireStores(s: State)
    requires Inv(s) && s.r.begun && s.r.material.pending && Retire(s).1 == Ok
    ensures var t := Retire(s).0;
      && t.r.material.controllers == s.r.material.controllers
      && (t.d.slots[0].Sealed? ==> t.d.slots[0].material.controllers == s.r.material.controllers)
      && (t.d.slots[1].Sealed? ==> t.d.slots[1].material.controllers == s.r.material.controllers)
  {
    hide Retire, Lined, Adjacent, Unique;
    RetireFrame(s);
  }

  /** A revocation that reports success has removed the controller from RAM and from both slots. */
  lemma RevokeForgets(s: State, id: seq<byte>)
    requires Inv(s) && s.r.begun && Revoke(s, id).1 == Ok
    ensures Forgotten(Revoke(s, id).0, id)
  {
    hide Persist, Retire, Lined, Adjacent, Find;
    RetireFrame(s);
    RetireLined(s);
    var s1 := Retire(s).0;
    var controllers := s1.r.material.controllers;
    var k := Find(controllers, id, 0);
    if k < CONTROLLERS {
      RemovedIsGone(controllers, id, k);
      ReplaceStores(s1, controllers[k := NO_CONTROLLER]);
    } else {
      RetireStores(s);
    }
  }

  lemma RemovedIsGone(t: Table, id: seq<byte>, k: nat)
    requires Unique(t) && k < |t| && t[k].valid && t[k].id == id
    ensures !Holds(t[k := NO_CONTROLLER], id)
  {
  }

  /** A replacement that reports success leaves its table in both slots. */
  lemma ReplaceStores(s: State, controllers: Table)
    requires Shape(s) && s.r.active >= 0 && |controllers| == CONTROLLERS && Replace(s, controllers).1 == Ok
    ensures var t := Replace(s, controllers).0; var m := s.r.material.(controllers := controllers);
      && t.r.active >= 0 && t.d.slots[t.r.active] == Sealed(Next(Next(s.r.generation)), Core(m), false, true)
      && t.d.slots[Other(t.r.active)] == Sealed(Next(s.r.generation), m.(pending := true), false, true)
      && t.r.material == Core(m)
  {
    hide Persist, Retire;
    var s0 := WithControllers(s, controllers, true);
    PersistFrame(s0);
    RetireFrame(Persist(s0).0);
  }

  /** Once forgotten, a controller stays forgotten until it is paired again: no request, fault, cut or lost slot brings it
      back. */
  lemma {:induction false} ForgottenForGood(s: State, id: seq<byte>, events: seq<Event>)
    requires Inv(s) && Forgotten(s, id)
    requires forall k :: 0 <= k < |events| && events[k].Pair? ==> events[k].id != id
    ensures Forgotten(Run(s, events), id)
  {
    hide Step, Adjacent, Lined, RamTrue, Unique;
    if events != [] {
      var n := |events| - 1;
      ForgottenForGood(s, id, events[..n]);
      var t := Run(s, events[..n]);
      NeverComesBack(t.r.material.controllers, id, events[n]);
      StepEverywhere(t, events[n], x => !Holds(x, id));
    }
  }

  lemma NeverComesBack(t: Table, id: seq<byte>, e: Event)
    requires |t| == CONTROLLERS && !Holds(t, id) && (e.Pair? ==> e.id != id)
    ensures !Holds(NO_CONTROLLERS, id) && !Holds(Intended(t, e), id)
  {
    hide Find, Place;
  }

  /** The two together, over a whole life: after a successful revocation no later `begin` finds the controller. */
  lemma RevokedForGood(s: State, before: seq<Event>, id: seq<byte>, after: seq<Event>)
    requires Inv(s) && Run(s, before).r.begun && Revoke(Run(s, before), id).1 == Ok
    requires forall k :: 0 <= k < |after| && after[k].Pair? ==> after[k].id != id
    ensures var t := Run(Revoke(Run(s, before), id).0, after);
      && !Holds(t.r.material.controllers, id)
      && (Recoverable(t.d.slots).Some? ==> !Holds(Recoverable(t.d.slots).value.controllers, id))
  {
    hide Step, Revoke, Run;
    RunKeeps(s, before);
    var u := Run(s, before);
    RevokeForgets(u, id);
    StepKeeps(u, RevokeOne(id, true));
    assert Step(u, RevokeOne(id, true)).0 == Revoke(u, id).0 by { RevokeIsStep(u, id); }
    ForgottenForGood(Revoke(u, id).0, id, after);
  }

  /** From a blank device on: the invariant holds in every run, and revocation is for good. */
  lemma BlankRuns(d: Device, before: seq<Event>, id: seq<byte>, after: seq<Event>)
    requires d.slots == [Empty, Empty]
    requires forall k :: 0 <= k < |after| && after[k].Pair? ==> after[k].id != id
    ensures Inv(State(d, NO_RAM)) && Inv(Run(State(d, NO_RAM), before))
    ensures var u := Run(State(d, NO_RAM), before);
      u.r.begun && Revoke(u, id).1 == Ok ==>
        var t := Run(Revoke(u, id).0, after);
        && !Holds(t.r.material.controllers, id)
        && (Recoverable(t.d.slots).Some? ==> !Holds(Recoverable(t.d.slots).value.controllers, id))
  {
    hide Run, Revoke, Inv, Recoverable;
    var s := State(d, NO_RAM);
    BlankIsTrue(d);
    RunKeeps(s, before);
    if Run(s, before).r.begun && Revoke(Run(s, before), id).1 == Ok { RevokedForGood(s, before, id, after); }
  }

  lemma RevokeIsStep(s: State, id: seq<byte>)
    requires Shape(s) && s.r.begun
    ensures Step(s, RevokeOne(id, true)) == Revoke(s, id)
  {
    hide Revoke;
  }

  // ----- revoke all -----

  ghost predicate NoController(t: Table) {
    !AnyValid(t)
  }

  /** Revoke-all reports success on an empty table without looking at the slots.  It leaves a controller somewhere exactly
      when RAM had none, no retirement was pending, and the slot that is not active holds a record with one. */
  lemma RevokeAllForgets(s: State)
    requires Inv(s) && s.r.begun && RevokeAll(s).1 == Ok
    ensures var other := s.d.slots[Other(s.r.active)];
      Everywhere(RevokeAll(s).0, t => NoController(t)) <==>
        (AnyValid(s.r.material.controllers) || s.r.material.pending || !other.Sealed? || !AnyValid(other.material.controllers))
  {
    hide Persist, Retire, Lined, Adjacent, Unique, AnyValid;
    RetireFrame(s);
    RetireLined(s);
    NoneIsEmpty();
    var s1 := Retire(s).0;
    if AnyValid(s1.r.material.controllers) { ReplaceStores(s1, NO_CONTROLLERS); }
    else if s.r.material.pending { RetireStores(s); }
  }

  lemma NoneIsEmpty()
    ensures NoController(NO_CONTROLLERS)
  {
  }

  /** Such slots arise: a pairing whose record lands although its read back fails.  Revoke-all then reports success, and
      the next `begin` brings the controller back. */
  lemma UnrevokedPairing(deviceId: seq<byte>, secret: seq<byte>, id: seq<byte>, root: seq<byte>)
    requires !AllZero(id) && !AllZero(root)
    ensures var m := Material(deviceId, secret, NO_CONTROLLERS, false);
      var s := State(Device([Sealed(1, m, false, true), Empty], [Done, Done, Done, Lost(true, Kept)], true), Ram(true, 0, 1, m));
      var (s1, paired) := Step(s, Pair(id, root, Some(Owner), true));
      var (s2, revoked) := Step(s1, RevokeEvery(true));
      var (s3, begun) := Step(s2, Reset([], true, [], []));
      && Inv(s) && paired == ReadbackFailed && revoked == Ok && begun == OkReflashable
      && Holds(s3.r.material.controllers, id)
  {
    var m := Material(deviceId, secret, NO_CONTROLLERS, false);
    var s := State(Device([Sealed(1, m, false, true), Empty], [Done, Done, Done, Lost(true, Kept)], true), Ram(true, 0, 1, m));
    var paired := NO_CONTROLLERS[0 := Controller(true, Owner, id, root)];
    assert Place(NO_CONTROLLERS, id) == 0 by { PlaceInEmpty(id); }
    NoneIsUnique();
    NoneIsEmpty();
    var (s1, r1) := Step(s, Pair(id, root, Some(Owner), true));
    assert s1.d.slots[1] == Sealed(2, m.(controllers := paired), false, true);
    assert paired[0].valid && paired[0].id == id;
    var (s2, r2) := Step(s1, RevokeEvery(true));
    assert s2 == s1;
    assert After32(2, 1);
  }

  lemma PlaceInEmpty(id: seq<byte>)
    ensures Place(NO_CONTROLLERS, id) == 0
  {
    assert forall i :: 0 <= i < CONTROLLERS ==> !NO_CONTROLLERS[i].valid;
  }
}
