/** Revoke-all over whole lives: which record it leaves behind, from a blank device on. */
module DeviceSecurityRevoke {
  import opened Bytes
  import opened DeviceSecurity
  import opened DeviceSecurityProofs

  /** The material that replaced `older` holds a controller too, unless it still has `older` to retire. */
  ghost predicate Inherits(newer: Material, older: Material) {
    AnyValid(older.controllers) ==> AnyValid(newer.controllers) || newer.pending
  }

  ghost predicate Succeeds(p: Slot, q: Slot) {
    p.Sealed? && q.Sealed? && q.generation == Next(p.generation) ==> Inherits(q.material, p.material)
  }

  /** No record lost a controller without owing the retirement of the one it replaced. */
  ghost predicate Handed(s: State)
    requires Shape(s)
  {
    && Succeeds(s.d.slots[0], s.d.slots[1]) && Succeeds(s.d.slots[1], s.d.slots[0])
    && (s.r.active >= 0 ==>
          var other := s.d.slots[Other(s.r.active)];
          other.Sealed? ==> if other.generation == Next(s.r.generation) then Inherits(other.material, s.r.material)
                            else Inherits(s.r.material, other.material))
  }

  /** The parts of the invariant a write relies on. */
  ghost predicate Based(s: State) {
    Shape(s) && Lined(s) && Handed(s) && (s.r.active >= 0 ==> Matched(s))
  }

  /** Writing a heir of the active material, acknowledged or not. */
  lemma PersistHands(s: State, m: Material)
    requires Based(s) && s.r.active >= 0 && |m.controllers| == CONTROLLERS && Inherits(m, s.r.material)
    ensures var (t, result) := Persist(s.(r := s.r.(material := m)));
      && (result == Ok ==> Based(t)) && (result != Ok ==> Based(t.(r := s.r))) && t.r.material == m && t.r.active >= 0
      && (result != Ok ==> t.r == s.r.(material := m)) && t.r.begun == s.r.begun
  {
    hide Persist, AnyValid, Next;
    NextIsAfter(s.r.generation);
    NextIsAfter(Next(s.r.generation));
    PersistFrame(s.(r := s.r.(material := m)));
  }

  lemma RetireHands(s: State)
    requires Based(s) && s.r.active >= 0
    ensures var (t, result) := Retire(s);
      && Based(t) && t.r.active >= 0 && t.r.begun == s.r.begun
      && t.r.material.controllers == s.r.material.controllers && (result == Ok ==> !t.r.material.pending)
  {
    hide Retire, AnyValid, Next;
    NextIsAfter(s.r.generation);
    NextIsAfter(Next(s.r.generation));
    RetireFrame(s);
  }

  lemma ReplaceHands(s: State, controllers: Table)
    requires Based(s) && s.r.active >= 0 && |controllers| == CONTROLLERS && !s.r.material.pending
    ensures Based(Replace(s, controllers).0) && Replace(s, controllers).0.r.active >= 0
  {
    hide Persist, Retire, Handed, Lined, AnyValid;
    var m := s.r.material.(controllers := controllers, pending := true);
    PersistHands(s, m);
    var (s1, persisted) := Persist(WithControllers(s, controllers, true));
    if persisted == Ok { RetireHands(s1); } else { assert WithControllers(s1, s.r.material.controllers, false) == s1.(r := s.r); }
  }

  lemma MigrateHands(s: State, retired: bool)
    requires Based(s) && s.r.active >= 0
    ensures Handed(Migrate(s, retired).0)
  {
    hide Persist, Retire, Handed, Lined, AnyValid;
    RetireHands(s);
    var (s1, resumed) := Retire(s);
    AnyRam(s1);
    if resumed == Ok && retired {
      PersistHands(s1, s1.r.material.(pending := true));
      var (s2, migrated) := Persist(SetPending(s1, true));
      if migrated == Ok {
        RetireHands(s2);
        AnyRam(Retire(s2).0);
      } else {
        AnyRam(s2.(r := s1.r));
      }
    }
  }

  /** Dropping or beginning with the material does not touch what the slots hold. */
  lemma AnyRam(s: State)
    requires Shape(s) && Handed(s)
    ensures Handed(s.(r := NO_RAM)) && Handed(s.(r := s.r.(begun := true)))
  {
    hide AnyValid;
  }

  lemma ResetHands(s: State, e: Event)
    requires Inv(s) && Handed(s) && e.Reset?
    ensures Handed(Step(s, e).0)
  {
    hide Migrate, Create, Call, Unique, AnyValid, Next, Newest;
    var i := Newest(Seen(s.d.slots[0]), Seen(s.d.slots[1]));
    forall d: Device | d.slots == s.d.slots ensures Handed(State(d, NO_RAM)) { }
    if i >= 0 && s.d.slots[i].readable {
      var slot := s.d.slots[i];
      forall d: Device | d.slots == s.d.slots
        ensures Handed(Migrate(State(d, Ram(false, i, slot.generation, slot.material)), slot.retired).0)
      {
        var u := State(d, Ram(false, i, slot.generation, slot.material));
        ChosenIsLined(u, i);
        MigrateHands(u, slot.retired);
      }
    }
    forall d: Device | d.slots == s.d.slots && d.slots[0] == Empty && d.slots[1] == Empty
      ensures Handed(Create(State(d, NO_RAM), e.deviceId, e.secret).0)
    {
      CreateFrame(State(d, NO_RAM), e.deviceId, e.secret);
    }
  }

  lemma PairHands(s: State, e: Event)
    requires Inv(s) && Handed(s) && e.Pair?
    ensures Handed(Step(s, e).0)
  {
    hide Persist, Lined, Adjacent, Unique, Handed, Place, AnyValid;
    if s.r.begun {
      var after := Intended(s.r.material.controllers, e);
      PairedIsValid(s.r.material.controllers, e);
      PersistHands(s, s.r.material.(controllers := after));
    }
  }

  lemma PairedIsValid(t: Table, e: Event)
    requires |t| == CONTROLLERS && e.Pair?
    ensures AnyValid(t) ==> AnyValid(Intended(t, e))
  {
    hide Place;
    var k, after := Place(t, e.id), Intended(t, e);
    if k < CONTROLLERS && e.role.Some? { assert after[k].valid; }
  }

  lemma RevokeHands(s: State, e: Event)
    requires Inv(s) && Handed(s) && (e.RevokeOne? || e.RevokeEvery?)
    ensures Handed(Step(s, e).0)
  {
    hide Retire, Replace, Lined, Adjacent, Unique, Handed, Find, AnyValid;
    if s.r.begun {
      RetireHands(s);
      var (s1, resumed) := Retire(s);
      if resumed == Ok { ReplaceHands(s1, Intended(s.r.material.controllers, e)); }
    }
  }

  lemma StepHands(s: State, e: Event)
    requires Inv(s) && Handed(s)
    ensures Handed(Step(s, e).0)
  {
    hide Step, Inv, Handed;
    match e
    case Reset(_, _, _, _) => ResetHands(s, e);
    case Pair(_, _, _, _) => PairHands(s, e);
    case Damage(_, _) => DamageHands(s, e);
    case _ => RevokeHands(s, e);
  }

  lemma DamageHands(s: State, e: Event)
    requires Inv(s) && Handed(s) && e.Damage?
    ensures Handed(Step(s, e).0)
  {
    hide AnyValid, Next;
  }

  lemma {:induction false} RunHands(s: State, events: seq<Event>)
    requires Inv(s) && Handed(s)
    ensures Handed(Run(s, events))
    decreases |events|
  {
    hide Step, Adjacent, Lined, RamTrue, Unique, Handed;
    if events != [] {
      var n := |events| - 1;
      RunHands(s, events[..n]);
      RunKeeps(s, events[..n]);
      StepHands(Run(s, events[..n]), events[n]);
    }
  }

  /** In every life of a device, a revoke-all that reports success leaves a controller somewhere exactly when RAM had none, no
      retirement was owed, and a pairing that was reported failed had landed: a record newer than the active one. */
  lemma RevokeAllOverLives(d: Device, events: seq<Event>)
    requires d.slots == [Empty, Empty]
    ensures var s := Run(State(d, NO_RAM), events);
      s.r.begun && RevokeAll(s).1 == Ok ==>
        (!Everywhere(RevokeAll(s).0, t => NoController(t)) <==>
           !AnyValid(s.r.material.controllers) && !s.r.material.pending
           && Ahead(s) && AnyValid(s.d.slots[Other(s.r.active)].material.controllers))
  {
    hide Run, RevokeAll, Adjacent, Lined, Unique, AnyValid, Everywhere;
    var s0 := State(d, NO_RAM);
    BlankIsTrue(d);
    RunKeeps(s0, events);
    RunHands(s0, events);
    var s := Run(s0, events);
    if s.r.begun && RevokeAll(s).1 == Ok { RevokeAllForgets(s); }
  }
}
