/** What the eight-slot store keeps across faults, power cuts, resets and lost slots. */
module ConnectionStoreProofs {
  import opened Bytes
  import opened ConnectionStore

  // ----- generations and slots -----

  /** Rotation ties each generation to one slot. */
  ghost predicate Placed(slots: seq<Slot>) {
    && |slots| == SLOTS
    && forall i :: 0 <= i < SLOTS && slots[i].Sealed? ==> slots[i].generation > 0 && (slots[i].generation - 1 - i) % SLOTS == 0
  }

  /** Any two generations that open are less than eight apart. */
  ghost predicate Narrow(t: Trust, slots: seq<Slot>) {
    && |slots| == SLOTS
    && forall i, j :: 0 <= i < SLOTS && 0 <= j < SLOTS && Seen(t, slots[i]).Opened? && Seen(t, slots[j]).Opened? ==>
         slots[i].generation - slots[j].generation < SLOTS
  }

  /** The active slot is the one of the current generation. */
  ghost predicate Anchored(r: Ram) {
    if r.active < 0 then r.generation == 0 else r.generation > 0 && (r.generation - 1 - r.active) % SLOTS == 0
  }

  /** Stored generations: the current one, the seven before it and at most one that landed without being acknowledged. */
  ghost predicate Window(t: Trust, s: State)
    requires Shape(s)
  {
    forall i :: 0 <= i < SLOTS && Seen(t, s.d.slots[i]).Opened? ==> s.r.generation - 7 <= s.d.slots[i].generation <= s.r.generation + 1
  }

  /** Two generations a multiple of eight apart share a slot. */
  lemma SameSlot(g: int, h: int, i: nat, j: nat)
    requires i < SLOTS && j < SLOTS && (g - 1 - i) % SLOTS == 0 && (h - 1 - j) % SLOTS == 0 && (g - h) % SLOTS == 0
    ensures i == j
  {
    assert (i - j) % SLOTS == 0;
  }

  lemma WindowIsNarrow(t: Trust, s: State)
    requires Shape(s) && Placed(s.d.slots) && Window(t, s)
    ensures Narrow(t, s.d.slots)
  {
    hide Seen;
    forall i, j | 0 <= i < SLOTS && 0 <= j < SLOTS && Seen(t, s.d.slots[i]).Opened? && Seen(t, s.d.slots[j]).Opened?
      ensures s.d.slots[i].generation - s.d.slots[j].generation < SLOTS
    {
      var g: int, h: int := s.d.slots[i].generation, s.d.slots[j].generation;
      assert (g - 1 - i) % SLOTS == 0 && (h - 1 - j) % SLOTS == 0;
    }
  }

  /** Near each other, generations compare as numbers. */
  lemma AfterIsGreater(g: u32, h: u32)
    requires -8 < g - h < 8
    ensures After32(g, h) <==> g > h
  {
    if g < h { assert (g - h) % TWO_32 == g - h + TWO_32; } else { assert (g - h) % TWO_32 == g - h; }
  }

  function Probes(t: Trust, slots: seq<Slot>): (p: seq<Probe>)
    ensures |p| == |slots| && forall i :: 0 <= i < |slots| ==> p[i] == Seen(t, slots[i])
  {
    seq(|slots|, i requires 0 <= i < |slots| => Seen(t, slots[i]))
  }

  /** `begin` picks the greatest generation among the slots that open. */
  lemma {:induction false} NewestIsGreatest(t: Trust, slots: seq<Slot>, n: nat)
    requires Narrow(t, slots) && n <= SLOTS
    ensures var p := Probes(t, slots); var c := Newest(p, n);
      && (forall i :: 0 <= i < n && p[i].Opened? ==> c >= 0 && p[i].generation <= p[c].generation)
  {
    if n > 0 {
      NewestIsGreatest(t, slots, n - 1);
      var p := Probes(t, slots);
      var c := Newest(p, n - 1);
      if p[n - 1].Opened? && c >= 0 {
        assert slots[n - 1].Sealed? && slots[c].Sealed?;
        AfterIsGreater(p[n - 1].generation, p[c].generation);
      }
    }
  }

  /** Generations are unique, so there is one newest slot. */
  lemma NewestIs(t: Trust, slots: seq<Slot>, k: nat)
    requires Narrow(t, slots) && Placed(slots) && k < SLOTS && Seen(t, slots[k]).Opened?
    requires forall i :: 0 <= i < SLOTS && Seen(t, slots[i]).Opened? ==> slots[i].generation <= slots[k].generation
    ensures Newest(Probes(t, slots), SLOTS) == k
  {
    hide Newest, Seen;
    NewestIsGreatest(t, slots, SLOTS);
    var c := Newest(Probes(t, slots), SLOTS);
    assert Seen(t, slots[c]).Opened?;
    SameSlot(slots[c].generation, slots[k].generation, c, k);
  }

  // ----- what the next begin finds -----

  function Content(s: Slot): Plain
    requires s.Sealed?
  {
    if s.version == LEGACY then Upgrade(s.plain) else s.plain
  }

  /** The snapshot an undisturbed `begin` continues from. */
  function Recoverable(t: Trust, slots: seq<Slot>): Option<Plain>
    requires |slots| == SLOTS
  {
    var c := Newest(Probes(t, slots), SLOTS);
    if c < 0 then None else Some(Content(slots[c]))
  }

  ghost predicate Lined(t: Trust, s: State) {
    Shape(s) && Placed(s.d.slots) && Anchored(s.r) && Window(t, s)
  }

  /** The active slot, if there is one, still opens. */
  ghost predicate Intact(t: Trust, s: State)
    requires Shape(s)
  {
    s.r.active >= 0 ==> Seen(t, s.d.slots[s.r.active]).Opened?
  }

  /** A snapshot newer than the active one landed without being acknowledged. */
  ghost predicate Ahead(t: Trust, s: State)
    requires Shape(s)
  {
    var slot := s.d.slots[Target(s.r.active)];
    Seen(t, slot).Opened? && slot.generation == s.r.generation + 1
  }

  lemma GenerationAt(t: Trust, s: State, i: nat)
    requires Lined(t, s) && i < SLOTS && Seen(t, s.d.slots[i]).Opened?
    ensures (s.d.slots[i].generation == s.r.generation <==> i == s.r.active)
    ensures (s.d.slots[i].generation == s.r.generation + 1 ==> i == Target(s.r.active))
  {
    var g := s.d.slots[i].generation;
    if g == s.r.generation && s.r.active >= 0 { SameSlot(g, g, i, s.r.active); }
    if i == s.r.active {
      assert (g - s.r.generation) % SLOTS == 0;
    }
    if g == s.r.generation + 1 {
      TargetPlace(s.r);
      SameSlot(g, g, i, Target(s.r.active));
    }
  }

  /** The next generation belongs to the target slot. */
  lemma TargetPlace(r: Ram)
    requires -1 <= r.active < SLOTS && Anchored(r)
    ensures (r.generation + 1 - 1 - Target(r.active)) % SLOTS == 0
  {
    if r.active >= 0 {
      var q := (r.generation - 1 - r.active) / SLOTS;
      assert r.generation == r.active + 1 + SLOTS * q;
    }
  }

  lemma NewerWins(t: Trust, s: State)
    requires Lined(t, s) && Intact(t, s)
    ensures Recoverable(t, s.d.slots)
         == if Ahead(t, s) then Some(Content(s.d.slots[Target(s.r.active)]))
            else if s.r.active < 0 then None else Some(Content(s.d.slots[s.r.active]))
  {
    hide Newest, Seen, Content, Target;
    WindowIsNarrow(t, s);
    var p := Probes(t, s.d.slots);
    forall i | 0 <= i < SLOTS && Seen(t, s.d.slots[i]).Opened?
      ensures (s.d.slots[i].generation == s.r.generation <==> i == s.r.active)
      ensures (s.d.slots[i].generation == s.r.generation + 1 ==> i == Target(s.r.active))
    {
      GenerationAt(t, s, i);
    }
    if Ahead(t, s) {
      NewestIs(t, s.d.slots, Target(s.r.active));
    } else if s.r.active >= 0 {
      NewestIs(t, s.d.slots, s.r.active);
    }
  }

  // ----- persisting -----

  lemma PersistFrame(t: Trust, s: State, plain: Plain)
    requires Shape(s) && s.r.generation < GENERATION_MAX
    ensures var (u, result) := Persist(t, s, plain, s.r.generation + 1); var i := Target(s.r.active);
      var record := Sealed(s.r.generation + 1, CURRENT, plain);
      && u.d.slots == s.d.slots[i := u.d.slots[i]] && u.d.slots[i] in {s.d.slots[i], Garbage, record}
      && (result == Ok ==> u.d.slots[i] == record && PlainValid(t, plain, CURRENT)
                           && u.r == s.r.(active := i, generation := s.r.generation + 1, resident := Decode(plain)))
      && (result != Ok ==> u.r == s.r)
  {
    hide Call, Write, PlainValid, Target;
  }

  lemma PersistLined(t: Trust, s: State, plain: Plain)
    requires Lined(t, s) && s.r.generation < GENERATION_MAX
    ensures var (u, result) := Persist(t, s, plain, s.r.generation + 1);
      Lined(t, u) && (Intact(t, s) ==> Intact(t, u)) && (result == Ok ==> Intact(t, u))
  {
    hide Persist, Seen, Target, PlainValid;
    PersistFrame(t, s, plain);
    TargetPlace(s.r);
    var (u, result) := Persist(t, s, plain, s.r.generation + 1);
    var i := Target(s.r.active);
    if result == Ok {
      forall k | 0 <= k < SLOTS && Seen(t, u.d.slots[k]).Opened?
        ensures u.r.generation - 7 <= u.d.slots[k].generation <= u.r.generation + 1
      {
        if k != i && u.d.slots[k].generation == s.r.generation - 7 {
          SameSlot(s.r.generation - 7, s.r.generation + 1, k, i);
        }
      }
      assert Seen(t, u.d.slots[i]).Opened? by { RecordOpens(t, s.r.generation + 1, plain); }
    }
  }

  lemma RecordOpens(t: Trust, g: u32, plain: Plain)
    requires g > 0 && PlainValid(t, plain, CURRENT)
    ensures Seen(t, Sealed(g, CURRENT, plain)).Opened?
  {
  }

  /** Whatever happens to a write, the next `begin` finds what it would have found before, the active snapshot, or the
      new one; after an acknowledged write, the new one. */
  lemma PersistRecovers(t: Trust, s: State, plain: Plain)
    requires Lined(t, s) && Intact(t, s) && s.r.generation < GENERATION_MAX
    ensures var (u, result) := Persist(t, s, plain, s.r.generation + 1);
      && Recoverable(t, u.d.slots) in {Recoverable(t, s.d.slots), Active(s), Some(plain)}
      && (result == Ok ==> Recoverable(t, u.d.slots) == Some(plain) == Active(u))
  {
    hide Persist, Seen, Recoverable, Target, Lined, PlainValid;
    assert Shape(s) by { LinedShape(t, s); }
    PersistFrame(t, s, plain);
    PersistLined(t, s, plain);
    var (u, result) := Persist(t, s, plain, s.r.generation + 1);
    var i := Target(s.r.active);
    if result != Ok {
      NewerWins(t, u);
      NewerWins(t, s);
      if u.d.slots[i] == s.d.slots[i] { assert u.d.slots == s.d.slots; }
    } else {
      NewerWins(t, u);
      NotAhead(t, s, u);
    }
  }

  lemma LinedShape(t: Trust, s: State)
    requires Lined(t, s)
    ensures Shape(s)
  {
  }

  /** Once a write is acknowledged nothing is newer. */
  lemma NotAhead(t: Trust, s: State, u: State)
    requires Lined(t, s) && Lined(t, u) && u.r.active == Target(s.r.active) && u.r.generation == s.r.generation + 1
    requires u.d.slots == s.d.slots[u.r.active := u.d.slots[u.r.active]]
    ensures !Ahead(t, u)
  {
    hide Seen;
    var k := Target(u.r.active);
    assert u.d.slots[k] == s.d.slots[k];
  }

  /** What the active slot holds, if there is one. */
  function Active(s: State): Option<Plain>
    requires Shape(s)
  {
    if s.r.active < 0 || !s.d.slots[s.r.active].Sealed? then None else Some(Content(s.d.slots[s.r.active]))
  }

  // ----- commits -----

  /** RAM says about the active snapshot what it holds; a record still in the first version says nothing in RAM. */
  ghost predicate RamTrue(t: Trust, s: State)
    requires Shape(s)
  {
    if s.r.active < 0 then s.r.resident == NO_RESIDENT
    else
      var slot := s.d.slots[s.r.active];
      slot.Sealed? ==> Seen(t, slot).Opened? && s.r.resident == if slot.version == LEGACY then NO_RESIDENT else Decode(slot.plain)
  }

  ghost predicate Serving(t: Trust, s: State) {
    Lined(t, s) && RamTrue(t, s) && s.r.begun
  }

  ghost predicate Inv(t: Trust, s: State) {
    Shape(s) && Placed(s.d.slots) && Narrow(t, s.d.slots) && if s.r.begun then Serving(t, s) else s.r == NO_RAM
  }

  /** What an edit starts from. */
  function ActivePlain(s: State): Plain
    requires Shape(s)
  {
    if s.r.active < 0 || !s.d.slots[s.r.active].Sealed? then NO_PLAIN else s.d.slots[s.r.active].plain
  }

  /** An edit leaves slots as `persistPlain` does, with the edited active snapshot, or changes nothing. */
  lemma EditFrame(t: Trust, s: State, edit: Plain -> Plain)
    requires Lined(t, s) && s.r.generation < GENERATION_MAX
    ensures var (u, result) := Edit(t, s, edit); var i := Target(s.r.active);
      var plain := ActivePlain(s);
      var record := Sealed(s.r.generation + 1, CURRENT, edit(plain));
      && u.d.slots == s.d.slots[i := u.d.slots[i]]
      && (u.d.slots[i] == s.d.slots[i] || u.d.slots[i] == Garbage
          || ((s.r.active >= 0 ==> Seen(t, s.d.slots[s.r.active]).Opened? && s.d.slots[s.r.active].version == CURRENT)
              && u.d.slots[i] == record))
      && (result == Ok ==>
            && (s.r.active >= 0 ==> Seen(t, s.d.slots[s.r.active]).Opened? && s.d.slots[s.r.active].version == CURRENT)
            && u.d.slots[i] == record && PlainValid(t, edit(plain), CURRENT)
            && u.r == s.r.(active := i, generation := s.r.generation + 1, resident := Decode(edit(plain))))
      && (result != Ok ==> u.r == s.r)
  {
    hide Persist, PlainValid, Target, Lined;
    assert Shape(s) by { LinedShape(t, s); }
    var (s1, loaded, plain) := LoadActive(t, s);
    if loaded == Ok { PersistFrame(t, s1, edit(plain)); }
  }

  lemma EditLined(t: Trust, s: State, edit: Plain -> Plain)
    requires Serving(t, s) && s.r.generation < GENERATION_MAX
    ensures Serving(t, Edit(t, s, edit).0)
  {
    hide Persist, Seen, Target, PlainValid, Lined;
    assert Shape(s) by { LinedShape(t, s); }
    var (s1, loaded, plain) := LoadActive(t, s);
    LinedFrame(t, s, s1);
    if loaded == Ok {
      PersistLined(t, s1, edit(plain));
      PersistFrame(t, s1, edit(plain));
      var (u, result) := Persist(t, s1, edit(plain), s.r.generation + 1);
      if result == Ok { RecordOpens(t, s.r.generation + 1, edit(plain)); }
      LinedShape(t, u);
    }
  }

  lemma LinedFrame(t: Trust, s: State, u: State)
    requires Lined(t, s) && u.d.slots == s.d.slots && u.r == s.r
    ensures Lined(t, u)
  {
  }

  lemma UpdateKeeps(t: Trust, s: State, edit: Plain -> Plain)
    requires Serving(t, s) && s.r.generation < GENERATION_MAX
    ensures Serving(t, Update(t, s, edit).0)
  {
    hide Call, Edit, Lined, Seen;
    LinedShape(t, s);
    forall d: Device | d.slots == s.d.slots ensures Serving(t, s.(d := d)) { LinedFrame(t, s, s.(d := d)); }
    forall d: Device | d.slots == s.d.slots ensures Serving(t, Edit(t, s.(d := d), edit).0) {
      EditLined(t, s.(d := d), edit);
    }
  }

  /** An interrupted edit leaves the next `begin` with what it had, the active snapshot, or the edited one. */
  lemma EditOldOrNew(t: Trust, s: State, edit: Plain -> Plain)
    requires Lined(t, s) && Intact(t, s) && s.r.generation < GENERATION_MAX
    ensures var (u, result) := Edit(t, s, edit);
      var plain := ActivePlain(s);
      && Recoverable(t, u.d.slots) in {Recoverable(t, s.d.slots), Active(s), Some(edit(plain))}
      && (result == Ok ==> Recoverable(t, u.d.slots) == Some(edit(plain)) == Active(u) && Lined(t, u) && Intact(t, u) && !Ahead(t, u))
  {
    hide Persist, PlainValid, Target, Lined, Recoverable;
    LinedShape(t, s);
    var (s1, loaded, plain) := LoadActive(t, s);
    LinedFrame(t, s, s1);
    if loaded == Ok {
      PersistRecovers(t, s1, edit(plain));
      PersistFrame(t, s1, edit(plain));
      PersistLined(t, s1, edit(plain));
      if Persist(t, s1, edit(plain), s.r.generation + 1).1 == Ok {
        NotAhead(t, s1, Persist(t, s1, edit(plain), s.r.generation + 1).0);
      }
    }
  }

  // ----- scrubbing -----

  lemma {:induction false} ScrubFrame(d: Device, active: nat, i: nat)
    requires |d.slots| == SLOTS && i <= SLOTS && active < SLOTS
    ensures var (e, result) := Scrub(d, active, i);
      && |e.slots| == SLOTS && e.slots[active] == d.slots[active]
      && (forall k :: 0 <= k < SLOTS ==> e.slots[k] in {d.slots[k], Garbage, Empty})
      && (result == Ok ==> forall k :: i <= k < SLOTS && k != active ==> e.slots[k].Empty?)
      && (forall k :: 0 <= k < i ==> e.slots[k] == d.slots[k])
    decreases SLOTS - i
  {
    hide Call, Write;
    if i < SLOTS {
      if i == active {
        ScrubFrame(d, active, i + 1);
      } else {
        var (d1, read) := Quiet(d);
        if read {
          if d1.slots[i].Empty? { ScrubFrame(d1, active, i + 1); } else {
            var (d2, written) := Write(d1, i, Empty);
            var (d3, again) := Quiet(d2);
            if written && again && d3.slots[i].Empty? { ScrubFrame(d3, active, i + 1); }
          }
        }
      }
    }
  }

  /** Scrubbing erases stale snapshots only: the active one stays the one `begin` finds. */
  lemma ScrubRecovers(t: Trust, s: State)
    requires Lined(t, s) && Intact(t, s)
    ensures var (u, result) := ScrubOthers(s);
      && Lined(t, u) && Intact(t, u) && u.r == s.r
      && Recoverable(t, u.d.slots) in {Recoverable(t, s.d.slots), Active(s)}
      && (!Ahead(t, s) ==> !Ahead(t, u) && Recoverable(t, u.d.slots) == Recoverable(t, s.d.slots))
      && (result == Ok && s.r.active >= 0 ==> Recoverable(t, u.d.slots) == Active(s))
  {
    hide Scrub, Target, Recoverable;
    if s.r.active >= 0 { ScrubFrame(s.d, s.r.active, 0); }
    var u := ScrubOthers(s).0;
    NewerWins(t, s);
    NewerWins(t, u);
  }

  // ----- forget -----

  /** A forgotten gateway, cut anywhere, leaves the next `begin` with the active snapshot, the cleared one, or a snapshot that
      had landed earlier although its write was reported failed; without such a snapshot it is old or cleared, never an
      earlier generation. */
  lemma ForgetOldOrCleared(t: Trust, s: State, expected: seq<byte>)
    requires Serving(t, s) && s.r.active >= 0 && Intact(t, s)
    ensures var (u, result) := Forget(t, s, expected); var old_ := s.d.slots[s.r.active];
      && Recoverable(t, u.d.slots) in {Recoverable(t, s.d.slots), Some(Content(old_)), Some(Cleared(old_.plain))}
      && (!Ahead(t, s) ==> Recoverable(t, s.d.slots) == Some(Content(old_)))
      && (result == Ok ==>
            Recoverable(t, u.d.slots) == Some(if s.r.resident.flags.gateway then Cleared(old_.plain) else Content(old_)))
  {
    hide Edit, ScrubOthers, Recoverable, Lined, Seen, Call;
    LinedShape(t, s);
    NewerWins(t, s);
    forall d: Device | d.slots == s.d.slots
      ensures ForgetParts(t, s.(d := d), s.d.slots[s.r.active], Recoverable(t, s.d.slots))
    {
      LinedFrame(t, s, s.(d := d));
      ForgetPartsHold(t, s.(d := d));
    }
  }

  ghost predicate ForgetParts(t: Trust, s: State, slot: Slot, before: Option<Plain>)
    requires Shape(s) && slot.Sealed?
  {
    && Recoverable(t, ScrubOthers(s).0.d.slots) in {before, Some(Content(slot))}
    && (ScrubOthers(s).1 == Ok ==> Recoverable(t, ScrubOthers(s).0.d.slots) == Some(Content(slot)))
    && (s.r.generation < GENERATION_MAX ==>
          var (u, result) := Edit(t, s, p => Cleared(p));
          && Recoverable(t, u.d.slots) in {before, Some(Content(slot)), Some(Cleared(slot.plain))}
          && (result == Ok ==> Recoverable(t, ScrubOthers(u).0.d.slots) == Some(Cleared(slot.plain))))
  }

  lemma ForgetPartsHold(t: Trust, s: State)
    requires Lined(t, s) && s.r.active >= 0 && Intact(t, s) && s.d.slots[s.r.active].Sealed?
    ensures ForgetParts(t, s, s.d.slots[s.r.active], Recoverable(t, s.d.slots))
  {
    hide Edit, ScrubOthers, Recoverable, Lined, Ahead, Seen;
    LinedShape(t, s);
    ScrubRecovers(t, s);
    if s.r.generation < GENERATION_MAX {
      EditOldOrNew(t, s, p => Cleared(p));
      var (u, result) := Edit(t, s, p => Cleared(p));
      if result == Ok { ScrubRecovers(t, u); }
    }
  }

  // ----- the invariant over runs -----

  lemma ScrubKeeps(t: Trust, s: State)
    requires Serving(t, s)
    ensures Serving(t, ScrubOthers(s).0) && ScrubOthers(s).0.r == s.r
    ensures ScrubOthers(s).1 == Ok && s.r.active >= 0 ==>
      forall k :: 0 <= k < SLOTS && k != s.r.active ==> ScrubOthers(s).0.d.slots[k].Empty?
    ensures s.r.active >= 0 ==> ScrubOthers(s).0.d.slots[s.r.active] == s.d.slots[s.r.active]
  {
    hide Scrub;
    if s.r.active >= 0 { ScrubFrame(s.d, s.r.active, 0); }
  }

  lemma ForgetKeeps(t: Trust, s: State, expected: seq<byte>)
    requires Serving(t, s)
    ensures Serving(t, Forget(t, s, expected).0)
  {
    hide Edit, ScrubOthers, Lined, Seen, Call;
    LinedShape(t, s);
    forall d: Device | d.slots == s.d.slots ensures Serving(t, s.(d := d)) { LinedFrame(t, s, s.(d := d)); }
    forall u: State | Serving(t, u) ensures Shape(u) && Serving(t, ScrubOthers(u).0) { LinedShape(t, u); ScrubKeeps(t, u); }
    if s.r.generation < GENERATION_MAX {
      forall d: Device | d.slots == s.d.slots ensures Serving(t, Edit(t, s.(d := d), p => Cleared(p)).0) {
        EditLined(t, s.(d := d), p => Cleared(p));
      }
    }
  }

  /** The slot `begin` chooses is a sound anchor for the others. */
  lemma ChosenIsLined(t: Trust, s: State, c: nat)
    requires Shape(s) && Placed(s.d.slots) && Narrow(t, s.d.slots) && Newest(Probes(t, s.d.slots), SLOTS) == c
    requires s.r.active == c && s.r.generation == s.d.slots[c].generation
    ensures Lined(t, s) && !Ahead(t, s) && Intact(t, s)
  {
    hide Newest, Seen, Target;
    NewestIsGreatest(t, s.d.slots, SLOTS);
    assert Seen(t, s.d.slots[c]) == Probes(t, s.d.slots)[c];
    forall k | 0 <= k < SLOTS && Seen(t, s.d.slots[k]).Opened?
      ensures s.r.generation - 7 <= s.d.slots[k].generation <= s.r.generation
    {
      assert Probes(t, s.d.slots)[k].generation <= Probes(t, s.d.slots)[c].generation;
    }
  }

  lemma AdoptKeeps(t: Trust, s: State)
    requires Shape(s) && Placed(s.d.slots) && Narrow(t, s.d.slots) && s.r == NO_RAM
    ensures Inv(t, Adopt(t, s, Probes(t, s.d.slots)).0)
  {
    hide Call, Persist, Seen, Newest, Upgrade;
    var probes := Probes(t, s.d.slots);
    var c := Newest(probes, SLOTS);
    var u := Adopt(t, s, probes).0;
    if c < 0 {
      NewestIsGreatest(t, s.d.slots, SLOTS);
      assert forall i :: 0 <= i < SLOTS ==> probes[i] == Seen(t, s.d.slots[i]);
    } else {
      var (d1, probe) := Load(t, s.d, c);
      assert probes[c] == Seen(t, s.d.slots[c]);
      if probe.Opened? {
        var s1 := State(d1, Ram(true, c, probe.generation, if probe.version == LEGACY then NO_RESIDENT else Decode(probe.plain)));
        ChosenIsLined(t, s1, c);
        if probe.version == LEGACY && probe.generation < GENERATION_MAX { MigrationKeeps(t, s1, Upgrade(probe.plain)); }
      }
    }
  }

  lemma MigrationKeeps(t: Trust, s: State, plain: Plain)
    requires Serving(t, s) && s.r.generation < GENERATION_MAX
    ensures Inv(t, Persist(t, s, plain, s.r.generation + 1).0)
  {
    hide Persist, Seen, Target, PlainValid, Lined, Placed, Narrow;
    LinedShape(t, s);
    PersistLined(t, s, plain);
    PersistFrame(t, s, plain);
    var (u, result) := Persist(t, s, plain, s.r.generation + 1);
    if result == Ok { RecordOpens(t, s.r.generation + 1, plain); }
    LinedShape(t, u);
    ServingIsInv(t, u);
  }

  lemma ServingIsInv(t: Trust, s: State)
    requires Serving(t, s)
    ensures Inv(t, s)
  {
    WindowIsNarrow(t, s);
  }

  lemma ResetKeeps(t: Trust, s: State, e: Event)
    requires Inv(t, s) && e.Reset?
    ensures Inv(t, Step(t, s, e).0)
  {
    hide Call, Adopt, Seen, Newest, Narrow, Placed;
    forall u: State | u.d.slots == s.d.slots && u.r == NO_RAM ensures Inv(t, Adopt(t, u, Probes(t, s.d.slots)).0) && Inv(t, u) {
      AdoptKeeps(t, u);
    }
    forall p: seq<Probe> | |p| == SLOTS && forall i :: 0 <= i < SLOTS ==> p[i] == Seen(t, s.d.slots[i])
      ensures p == Probes(t, s.d.slots)
    {
    }
  }

  lemma CommitKeeps(t: Trust, s: State, e: Event)
    requires Serving(t, s) && (e.PutWifi? || e.PutGateway? || e.PutEnrollment?)
    ensures Serving(t, Step(t, s, e).0)
  {
    hide Update, Serving, GatewayValid, ChainFits;
    ServingShape(t, s);
    if s.r.generation < GENERATION_MAX {
      if e.PutWifi? { UpdateKeeps(t, s, p => SetWifi(p, e.wifi)); }
      if e.PutGateway? { UpdateKeeps(t, s, p => SetGateway(p, e.gateway, e.mobileRelay, e.bootstrapPort)); }
      if e.PutEnrollment? { UpdateKeeps(t, s, p => SetEnrollment(p, e.enrollment)); }
    }
  }

  lemma ServingShape(t: Trust, s: State)
    requires Serving(t, s)
    ensures Shape(s) && s.r.begun
  {
  }

  lemma DamageKeeps(t: Trust, s: State, e: Event)
    requires Inv(t, s) && e.Damage?
    ensures Inv(t, Step(t, s, e).0)
  {
    hide PlainValid;
  }

  /** Every event keeps the invariant. */
  lemma StepKeeps(t: Trust, s: State, e: Event)
    requires Inv(t, s)
    ensures Inv(t, Step(t, s, e).0)
  {
    hide Begin, Update, ForgetChecked, GatewayValid, ChainFits, Serving, Placed, Narrow;
    if e.Reset? {
      ResetKeeps(t, s, e);
    } else if e.Damage? {
      DamageKeeps(t, s, e);
    } else if s.r.begun {
      if e.ForgetGateway? { ForgetKeeps(t, s, e.expected); } else { CommitKeeps(t, s, e); }
      ServingIsInv(t, Step(t, s, e).0);
    }
  }

  lemma {:induction false} RunKeeps(t: Trust, s: State, events: seq<Event>)
    requires Inv(t, s)
    ensures Inv(t, Run(t, s, events))
  {
    hide Step, Serving, Placed, Narrow;
    if events != [] {
      RunKeeps(t, s, events[..|events| - 1]);
      StepKeeps(t, Run(t, s, events[..|events| - 1]), events[|events| - 1]);
    }
  }

  // ----- what forgetting achieves -----

  /** No gateway, relay or enrollment. */
  predicate FreeOfGateway(p: Plain) {
    !p.flags.gateway && !p.flags.enrollment && !p.flags.mobileRelay
  }

  ghost predicate Free(s: State) {
    && Shape(s) && !s.r.resident.flags.gateway
    && forall i :: 0 <= i < SLOTS && s.d.slots[i].Sealed? ==> FreeOfGateway(s.d.slots[i].plain)
  }

  /** `begin` left the active record in its first version because its migration failed. */
  predicate UnmigratedGateway(s: State)
    requires Shape(s) && s.r.active >= 0
  {
    var slot := s.d.slots[s.r.active];
    slot.Sealed? && slot.version == LEGACY && slot.plain.flags.gateway
  }

  /** With an active slot, an acknowledged forget has emptied every other one.  The active one keeps its Wi-Fi, and the
      gateway is gone exactly when it was in RAM or the record had been migrated. */
  lemma ForgetClears(t: Trust, s: State, expected: seq<byte>)
    requires Serving(t, s) && s.r.active >= 0 && Forget(t, s, expected).1 == Ok
    ensures var u := Forget(t, s, expected).0; var before, after := s.d.slots[s.r.active], u.d.slots[u.r.active];
      && u.r.active >= 0
      && (forall k :: 0 <= k < SLOTS && k != u.r.active ==> u.d.slots[k].Empty?)
      && (s.r.resident.flags.gateway ==> before.Sealed? && after == Sealed(s.r.generation + 1, CURRENT, Cleared(before.plain)))
      && (!s.r.resident.flags.gateway ==> after == before)
      && (Free(u) <==> s.r.resident.flags.gateway || !UnmigratedGateway(s))
  {
    hide Edit, ScrubOthers, Lined, PlainValid, Call;
    LinedShape(t, s);
    forall d: Device | d.slots == s.d.slots ensures Serving(t, s.(d := d)) && ScrubbedOnly(t, s.(d := d)) {
      LinedFrame(t, s, s.(d := d));
      ScrubKeeps(t, s.(d := d));
    }
    if s.r.resident.flags.gateway {
      forall d: Device | d.slots == s.d.slots && Edit(t, s.(d := d), p => Cleared(p)).1 == Ok
        ensures ClearedThenScrubbed(t, s.(d := d))
      {
        var s1 := s.(d := d);
        EditFrame(t, s1, p => Cleared(p));
        EditLined(t, s1, p => Cleared(p));
        var u := Edit(t, s1, p => Cleared(p)).0;
        LinedShape(t, u);
        ScrubKeeps(t, u);
      }
    } else {
      ActiveIsFree(t, s);
    }
  }

  ghost predicate ScrubbedOnly(t: Trust, s: State)
    requires Shape(s) && s.r.active >= 0
  {
    var (u, result) := ScrubOthers(s);
    && u.r == s.r && u.d.slots[s.r.active] == s.d.slots[s.r.active]
    && (result == Ok ==> forall k :: 0 <= k < SLOTS && k != s.r.active ==> u.d.slots[k].Empty?)
  }

  ghost predicate ClearedThenScrubbed(t: Trust, s: State)
    requires Shape(s) && s.r.active >= 0 && s.r.generation < GENERATION_MAX
  {
    var u := Edit(t, s, p => Cleared(p)).0; var before := s.d.slots[s.r.active];
    && u.r.active >= 0 && before.Sealed?
    && !u.r.resident.flags.gateway
    && u.d.slots[u.r.active] == Sealed(s.r.generation + 1, CURRENT, Cleared(before.plain))
    && ScrubbedOnly(t, u)
  }

  /** RAM shows no gateway: then the active record has none, unless it is unmigrated. */
  lemma ActiveIsFree(t: Trust, s: State)
    requires Serving(t, s) && s.r.active >= 0 && !s.r.resident.flags.gateway
    ensures s.d.slots[s.r.active].Sealed? ==> (FreeOfGateway(s.d.slots[s.r.active].plain) <==> !UnmigratedGateway(s))
  {
  }

  lemma EditFree(t: Trust, s: State, edit: Plain -> Plain)
    requires Serving(t, s) && Free(s) && s.r.generation < GENERATION_MAX
    requires forall p :: FreeOfGateway(p) ==> FreeOfGateway(edit(p))
    ensures Free(Edit(t, s, edit).0)
  {
    hide Edit, Lined, PlainValid, Seen;
    EditFrame(t, s, edit);
    assert FreeOfGateway(ActivePlain(s));
    var u := Edit(t, s, edit).0;
    assert FreeOfGateway(edit(ActivePlain(s)));
  }

  lemma ScrubFree(s: State)
    requires Free(s)
    ensures Free(ScrubOthers(s).0)
  {
    hide Scrub;
    if s.r.active >= 0 { ScrubFrame(s.d, s.r.active, 0); }
  }

  lemma AdoptFree(t: Trust, s: State)
    requires Free(s) && Inv(t, s) && s.r == NO_RAM
    ensures Free(Adopt(t, s, Probes(t, s.d.slots)).0)
  {
    hide Call, Persist, PlainValid, Narrow;
    var c := Newest(Probes(t, s.d.slots), SLOTS);
    if c >= 0 {
      var (d1, probe) := Load(t, s.d, c);
      if probe.Opened? && probe.version == LEGACY && probe.generation < GENERATION_MAX {
        var s1 := State(d1, Ram(true, c, probe.generation, s.r.resident));
        PersistFrame(t, s1, Upgrade(probe.plain));
      }
    }
  }

  lemma StepFree(t: Trust, s: State, e: Event)
    requires Inv(t, s) && Free(s) && !e.PutGateway?
    ensures Free(Step(t, s, e).0)
  {
    hide Edit, ScrubOthers, Adopt, Call, Narrow, Lined, RamTrue, Newest, Placed, Seen;
    if e.Reset? {
      assert forall p: seq<Probe> :: |p| == SLOTS && (forall i :: 0 <= i < SLOTS ==> p[i] == Seen(t, s.d.slots[i])) ==> p == Probes(t, s.d.slots);
      forall u: State | u.d.slots == s.d.slots && u.r == NO_RAM ensures Free(u) && Free(Adopt(t, u, Probes(t, s.d.slots)).0) {
        AdoptFree(t, u);
      }
    } else if e.PutWifi? && s.r.begun && s.r.generation < GENERATION_MAX {
      forall d: Device | d.slots == s.d.slots ensures Free(Edit(t, s.(d := d), p => SetWifi(p, e.wifi)).0) {
        LinedFrame(t, s, s.(d := d));
        RamTrueFrame(t, s, s.(d := d));
        EditFree(t, s.(d := d), p => SetWifi(p, e.wifi));
      }
    } else if e.ForgetGateway? {
      forall u: State | Free(u) ensures Free(ScrubOthers(u).0) { ScrubFree(u); }
    }
  }

  lemma RamTrueFrame(t: Trust, s: State, u: State)
    requires Shape(s) && Shape(u) && RamTrue(t, s) && u.d.slots == s.d.slots && u.r == s.r
    ensures RamTrue(t, u)
  {
  }

  /** After an acknowledged forget the gateway stays gone through resets, cuts, further commits and lost slots, until a
      gateway is committed again: losing the one remaining slot restores nothing. */
  lemma {:induction false} FreeForGood(t: Trust, s: State, events: seq<Event>)
    requires Inv(t, s) && Free(s)
    requires forall k :: 0 <= k < |events| ==> !events[k].PutGateway?
    ensures Free(Run(t, s, events))
    ensures Recoverable(t, Run(t, s, events).d.slots).Some? ==> FreeOfGateway(Recoverable(t, Run(t, s, events).d.slots).value)
  {
    hide Step, Serving, Placed, Narrow;
    if events != [] {
      var n := |events| - 1;
      FreeForGood(t, s, events[..n]);
      RunKeeps(t, s, events[..n]);
      StepFree(t, Run(t, s, events[..n]), events[n]);
    }
    RecoverableFree(t, Run(t, s, events));
  }

  lemma RecoverableFree(t: Trust, s: State)
    requires Free(s)
    ensures Recoverable(t, s.d.slots).Some? ==> FreeOfGateway(Recoverable(t, s.d.slots).value)
  {
    hide Newest;
    var c := Newest(Probes(t, s.d.slots), SLOTS);
    if c >= 0 { assert Probes(t, s.d.slots)[c] == Seen(t, s.d.slots[c]); }
  }

  // ----- commits and resets -----

  /** The snapshot a commit intends. */
  function Intended(p: Plain, e: Event): Plain
    requires e.PutWifi? || e.PutGateway? || e.PutEnrollment?
  {
    match e
    case PutWifi(w) => SetWifi(p, w)
    case PutGateway(g, mobileRelay, bootstrapPort) => SetGateway(p, g, mobileRelay, bootstrapPort)
    case PutEnrollment(e) => SetEnrollment(p, e)
  }

  /** A commit, cut anywhere, leaves the next `begin` with the active snapshot, the intended one, or one that had landed earlier
      although its write was reported failed; without such a snapshot it is old or intended. */
  lemma CommitOldOrNew(t: Trust, s: State, e: Event)
    requires Serving(t, s) && Intact(t, s) && (e.PutWifi? || e.PutGateway? || e.PutEnrollment?)
    ensures var (u, result) := Step(t, s, e); var after := Intended(ActivePlain(s), e);
      && Recoverable(t, u.d.slots) in {Recoverable(t, s.d.slots), Active(s), Some(after)}
      && (!Ahead(t, s) ==> Recoverable(t, s.d.slots) == Active(s))
      && (result == Ok ==> Recoverable(t, u.d.slots) == Some(after))
  {
    hide Edit, Recoverable, Lined, GatewayValid, ChainFits, Seen, RamTrue;
    LinedShape(t, s);
    NewerWins(t, s);
    if s.r.generation < GENERATION_MAX {
      forall d: Device | d.slots == s.d.slots
        ensures e.PutWifi? ==> EditEnds(t, s.(d := d), p => SetWifi(p, e.wifi), Intended(ActivePlain(s), e))
        ensures e.PutGateway? ==>
          EditEnds(t, s.(d := d), p => SetGateway(p, e.gateway, e.mobileRelay, e.bootstrapPort), Intended(ActivePlain(s), e))
        ensures e.PutEnrollment? ==> EditEnds(t, s.(d := d), p => SetEnrollment(p, e.enrollment), Intended(ActivePlain(s), e))
      {
        var s1 := s.(d := d);
        LinedFrame(t, s, s1);
        if e.PutWifi? { EditOldOrNew(t, s1, p => SetWifi(p, e.wifi)); }
        if e.PutGateway? { EditOldOrNew(t, s1, p => SetGateway(p, e.gateway, e.mobileRelay, e.bootstrapPort)); }
        if e.PutEnrollment? { EditOldOrNew(t, s1, p => SetEnrollment(p, e.enrollment)); }
      }
    }
  }

  ghost predicate EditEnds(t: Trust, s: State, edit: Plain -> Plain, after: Plain)
    requires Shape(s) && s.r.generation < GENERATION_MAX
  {
    var (u, result) := Edit(t, s, edit);
    && Recoverable(t, u.d.slots) in {Recoverable(t, s.d.slots), Active(s), Some(after)}
    && (result == Ok ==> Recoverable(t, u.d.slots) == Some(after))
  }

  /** Resets change nothing about what the next `begin` finds, even when one migrates a record and is cut. */
  lemma ResetRecovers(t: Trust, s: State, e: Event)
    requires Inv(t, s) && e.Reset?
    ensures Recoverable(t, Step(t, s, e).0.d.slots) == Recoverable(t, s.d.slots)
  {
    hide Call, Adopt, Seen, Newest, Narrow, Placed, Recoverable;
    forall u: State | u.d.slots == s.d.slots && u.r == NO_RAM
      ensures Recoverable(t, Adopt(t, u, Probes(t, s.d.slots)).0.d.slots) == Recoverable(t, s.d.slots)
    {
      AdoptRecovers(t, u);
    }
    assert forall p: seq<Probe> :: |p| == SLOTS && (forall i :: 0 <= i < SLOTS ==> p[i] == Seen(t, s.d.slots[i])) ==> p == Probes(t, s.d.slots);
  }

  lemma AdoptRecovers(t: Trust, s: State)
    requires Shape(s) && Placed(s.d.slots) && Narrow(t, s.d.slots) && s.r == NO_RAM
    ensures Recoverable(t, Adopt(t, s, Probes(t, s.d.slots)).0.d.slots) == Recoverable(t, s.d.slots)
  {
    hide Call, Persist, Seen, Newest, Upgrade, Lined;
    var c := Newest(Probes(t, s.d.slots), SLOTS);
    if c >= 0 {
      var (d1, probe) := Load(t, s.d, c);
      assert Probes(t, s.d.slots)[c] == Seen(t, s.d.slots[c]);
      if probe.Opened? && probe.version == LEGACY && probe.generation < GENERATION_MAX {
        var s1 := State(d1, Ram(true, c, probe.generation, NO_RESIDENT));
        ChosenIsLined(t, s1, c);
        PersistRecovers(t, s1, Upgrade(probe.plain));
      }
    }
  }

  /** A failed migration still serves, without a gateway in RAM: the case forget does not cover. */
  lemma FailedMigrationServes(t: Trust, s: State, e: Event)
    requires Inv(t, s) && e.Reset? && Step(t, s, e).0.r.begun && Step(t, s, e).1 != Ok
    requires Recoverable(t, s.d.slots).Some? && Recoverable(t, s.d.slots).value.flags.gateway
    ensures var u := Step(t, s, e).0; u.r.active >= 0 && !u.r.resident.flags.gateway && UnmigratedGateway(u)
  {
    hide Call, Adopt, Seen, Narrow, Placed, UnmigratedGateway, Recoverable;
    forall u: State | u.d.slots == s.d.slots && u.r == NO_RAM
      ensures var (v, result) := Adopt(t, u, Probes(t, s.d.slots));
        v.r.begun && result != Ok ==> v.r.active >= 0 && !v.r.resident.flags.gateway && UnmigratedGateway(v)
    {
      FailedAdoption(t, u);
    }
    assert forall p: seq<Probe> :: |p| == SLOTS && (forall i :: 0 <= i < SLOTS ==> p[i] == Seen(t, s.d.slots[i])) ==> p == Probes(t, s.d.slots);
  }

  lemma FailedAdoption(t: Trust, s: State)
    requires Shape(s) && s.r == NO_RAM && Recoverable(t, s.d.slots).Some? && Recoverable(t, s.d.slots).value.flags.gateway
    ensures var (u, result) := Adopt(t, s, Probes(t, s.d.slots));
      u.r.begun && result != Ok ==> u.r.active >= 0 && !u.r.resident.flags.gateway && UnmigratedGateway(u)
  {
    hide Call, Persist, Seen, Newest;
    var c := Newest(Probes(t, s.d.slots), SLOTS);
    assert Probes(t, s.d.slots)[c] == Seen(t, s.d.slots[c]);
    var (d1, probe) := Load(t, s.d, c);
    if probe.Opened? && probe.generation < GENERATION_MAX {
      PersistFrame(t, State(d1, Ram(true, c, probe.generation, NO_RESIDENT)), Upgrade(probe.plain));
    }
  }

  lemma {:induction false} LoadsSucceed(t: Trust, d: Device, n: nat)
    requires d.alive && n <= |d.slots| && n <= |d.plan| && forall k :: 0 <= k < n ==> d.plan[k] == Done
    ensures var (e, probes) := LoadAll(t, d, n); e == d.(plan := d.plan[n..]) && probes.Some?
  {
    hide Seen;
    if n > 0 { LoadsSucceed(t, d, n - 1); }
  }

  lemma {:induction false} NothingToScrub(d: Device, active: nat, i: nat)
    requires |d.slots| == SLOTS && i <= SLOTS && d.alive && d.plan == []
    requires forall k :: 0 <= k < SLOTS && k != active ==> d.slots[k].Empty?
    ensures Scrub(d, active, i) == (d, Ok)
    decreases SLOTS - i
  {
    if i < SLOTS { NothingToScrub(d, active, i + 1); }
  }

  const TORN_MIGRATION: seq<Outcome> := Repeat(Done, 10) + [Lost(true, Kept)]

  function LegacyOnly(plain: Plain): seq<Slot> {
    [Sealed(1, LEGACY, plain)] + Repeat(Empty, 7)
  }

  lemma LegacyOnlyStore(t: Trust, plain: Plain)
    requires PlainValid(t, plain, LEGACY)
    ensures Placed(LegacyOnly(plain)) && Narrow(t, LegacyOnly(plain)) && Newest(Probes(t, LegacyOnly(plain)), SLOTS) == 0
  {
    hide Newest, PlainValid;
    NewestIs(t, LegacyOnly(plain), 0);
  }

  lemma TornMigration(t: Trust, plain: Plain)
    requires PlainValid(t, plain, LEGACY)
    ensures Begin(t, State(Device(LegacyOnly(plain), TORN_MIGRATION, true), NO_RAM), true, true)
         == (State(Device(LegacyOnly(plain), [], true), Ram(true, 0, 1, NO_RESIDENT)), CryptoFailed)
  {
    hide PlainValid, Newest;
    var slots, plan := LegacyOnly(plain), TORN_MIGRATION;
    LegacyOnlyStore(t, plain);
    LoadsSucceed(t, Device(slots, plan[1..], true), SLOTS);
    assert LoadAll(t, Device(slots, plan[1..], true), SLOTS).1.value == Probes(t, slots);
    assert plan[1..][SLOTS..] == [Done, Lost(true, Kept)];
    assert [Done, Lost(true, Kept)][1..] == [Lost(true, Kept)] && [Lost(true, Kept)][1..] == [];
  }

  /** The failing case, from a device that holds one record of the first version: its migration cannot be sealed, forget
      reports success, and the gateway is still stored. */
  lemma ForgetKeepsLegacyGateway(t: Trust, plain: Plain, expected: seq<byte>)
    requires PlainValid(t, plain, LEGACY) && plain.flags.gateway && !AllZero(expected)
    ensures var s := State(Device(LegacyOnly(plain), [], true), NO_RAM);
      var (s1, begun) := Step(t, s, Reset(TORN_MIGRATION, true, true));
      var (s2, forgot) := Step(t, s1, ForgetGateway(expected));
      && Inv(t, s) && begun == CryptoFailed && s1.r.begun && forgot == Ok
      && s2.d.slots[0] == Sealed(1, LEGACY, plain)
  {
    hide PlainValid, Begin, Scrub, Newest, Placed, Narrow;
    LegacyOnlyStore(t, plain);
    TornMigration(t, plain);
    NothingToScrub(Device(LegacyOnly(plain), [], true), 0, 0);
  }
}
