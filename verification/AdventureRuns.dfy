/** What holds over whole runs that start from a reset record. */
module AdventureRuns {
  import opened Bytes
  import opened Adventure
  import opened AdventureProofs

  // ----- the variant search never fails -----

  lemma SignaturesDiffer(t: byte, o: byte, v: byte, t': byte, o': byte, v': byte)
    requires t < 5 && o < 5 && v < VARIANTS && t' < 5 && o' < 5 && v' < VARIANTS
    ensures Signature(t, o, v) == Signature(t', o', v') <==> t == t' && o == o' && v == v'
  {
  }

  /** The `k`th signature tried. */
  function Tried(terrain: byte, objective: byte, variant: byte, k: nat): (signature: u16)
    requires terrain < 5 && objective < 5 && variant < VARIANTS
  {
    Signature(terrain, objective, (variant + k) % VARIANTS)
  }

  /** The first `n` signatures tried. */
  function Circle(terrain: byte, objective: byte, variant: byte, n: nat): (signatures: set<u16>)
    requires terrain < 5 && objective < 5 && variant < VARIANTS
  {
    set k | 0 <= k < n :: Tried(terrain, objective, variant, k)
  }

  lemma TriedDiffer(terrain: byte, objective: byte, variant: byte, j: nat, k: nat)
    requires terrain < 5 && objective < 5 && variant < VARIANTS && j < k < VARIANTS
    ensures Tried(terrain, objective, variant, j) != Tried(terrain, objective, variant, k)
  {
    SignaturesDiffer(terrain, objective, (variant + j) % VARIANTS, terrain, objective, (variant + k) % VARIANTS);
  }

  lemma {:induction false} CircleSize(terrain: byte, objective: byte, variant: byte, n: nat)
    requires terrain < 5 && objective < 5 && variant < VARIANTS && n <= VARIANTS
    ensures |Circle(terrain, objective, variant, n)| == n
    decreases n
  {
    if n > 0 {
      CircleSize(terrain, objective, variant, n - 1);
      var last := Tried(terrain, objective, variant, n - 1);
      forall k | 0 <= k < n - 1 ensures Tried(terrain, objective, variant, k) != last {
        TriedDiffer(terrain, objective, variant, k, n - 1);
      }
      hide Tried;
      assert Circle(terrain, objective, variant, n) == Circle(terrain, objective, variant, n - 1) + {last};
    }
  }

  /** All of the first `n` variants refused. */
  predicate Refused(r: Ring<u16>, terrain: byte, objective: byte, variant: byte, n: nat)
    requires r.count <= |r.slots| && terrain < 5 && objective < 5 && variant < VARIANTS
  {
    forall k :: 0 <= k < n ==> InTrail(r, Tried(terrain, objective, variant, k))
  }

  lemma {:induction false} ListSize<T>(s: seq<T>)
    ensures |set x | x in s| <= |s|
  {
    if s != [] {
      ListSize(s[1..]);
      assert (set x | x in s) == {s[0]} + set x | x in s[1..];
    } else {
      assert (set x | x in s) == {};
    }
  }

  /** A trail of four cannot refuse five variants. */
  lemma NotAllRefused(r: Ring<u16>, terrain: byte, objective: byte, variant: byte)
    requires r.count <= |r.slots| == HISTORY && terrain < 5 && objective < 5 && variant < VARIANTS
    ensures !Refused(r, terrain, objective, variant, HISTORY + 1)
  {
    hide Tried;
    if Refused(r, terrain, objective, variant, HISTORY + 1) {
      var walked := set x | x in r.slots[..r.count];
      assert Circle(terrain, objective, variant, HISTORY + 1) <= walked;
      CircleSize(terrain, objective, variant, HISTORY + 1);
      ListSize(r.slots[..r.count]);
      Smaller(Circle(terrain, objective, variant, HISTORY + 1), walked);
      assert false;
    }
  }

  lemma Smaller<T>(a: set<T>, b: set<T>)
    requires a <= b
    ensures |a| <= |b|
  {
    assert b == a + (b - a);
  }

  lemma {:induction false} Searched(r: Ring<u16>, terrain: byte, objective: byte, variant: byte, attempts: nat)
    requires r.count <= |r.slots| && terrain < 5 && objective < 5 && variant < VARIANTS
    ensures var signature := Signature(terrain, objective, Choose(r, terrain, objective, variant, attempts));
      InTrail(r, signature) ==> Refused(r, terrain, objective, variant, attempts)
    decreases attempts
  {
    hide Signature;
    if attempts > 0 && InTrail(r, Signature(terrain, objective, variant)) {
      Searched(r, terrain, objective, (variant + 1) % VARIANTS, attempts - 1);
      if Refused(r, terrain, objective, (variant + 1) % VARIANTS, attempts - 1) {
        forall k | 0 <= k < attempts ensures InTrail(r, Tried(terrain, objective, variant, k)) {
          if k > 0 {
            assert Tried(terrain, objective, (variant + 1) % VARIANTS, k - 1) == Tried(terrain, objective, variant, k);
          }
        }
      }
    }
  }

  /** The variant taken makes a route unlike each of the last four. */
  lemma ChosenIsFresh(r: Ring<u16>, terrain: byte, objective: byte, variant: byte)
    requires TrailValid(r) && terrain < 5 && objective < 5 && variant < VARIANTS
    ensures !InTrail(r, Signature(terrain, objective, Choose(r, terrain, objective, variant, VARIANTS)))
  {
    hide InTrail;
    Searched(r, terrain, objective, variant, VARIANTS);
    NotAllRefused(r, terrain, objective, variant);
  }

  // ----- what a run leaves behind -----

  /** A route that came back: its chain key and whether it succeeded. */
  datatype Past = Past(key: u32, success: bool)

  /** A run with what happened in it, newest first: signatures begun, routes ended, days that paid, hunts and expeditions
      counted. */
  datatype Trace = Trace(now: Snapshot, begun: seq<u16>, past: seq<Past>, paid: seq<u32>, hunts: seq<u32>, trips: seq<u32>)

  const FIRST := Trace(Snapshot(RESET, RESET), [], [], [], [], [])

  function Next(mix: Mixer, t: Trace, e: Event): Trace {
    var (after, status) := Perform(mix, t.now, e);
    Trace(after,
          if e.Start? && status == Ok then [LastSignature(after.body.trail)] + t.begun else t.begun,
          if (e.End? || e.RescueDone?) && status == Ok then [Past(after.body.marks.chainKey, after.body.marks.chainEligible)] + t.past
          else t.past,
          if after.body.marks.bonusDay != t.now.body.marks.bonusDay then [after.body.marks.bonusDay] + t.paid else t.paid,
          if (e.PartyDone? || e.RescueDone?) && status == Ok then [e.hunt.proof] + t.hunts else t.hunts,
          if e.ExpeditionDone? && status == Ok then [e.expedition.id] + t.trips else t.trips)
  }

  function LastSignature(r: Ring<u16>): u16 {
    if 0 < r.count <= |r.slots| && r.next < |r.slots| then Newest(r, 0) else 0
  }

  function Traced(mix: Mixer, events: seq<Event>): Trace
    decreases |events|
  {
    if events == [] then FIRST else Next(mix, Traced(mix, events[..|events| - 1]), events[|events| - 1])
  }

  /** Newest first, the trail is the last four routes begun, and any five in a row differ. */
  predicate TrailTells(t: Trace)
    requires BodyValid(t.now.body)
  {
    && t.now.body.trail.count == (if |t.begun| < HISTORY then |t.begun| else HISTORY)
    && Listed(t.now.body.trail) == t.begun[..t.now.body.trail.count]
    && forall i, j :: 0 <= i < j < |t.begun| && j <= i + HISTORY ==> t.begun[i] != t.begun[j]
  }

  /** Chain depth: one more than the unbroken row of successes with the same key, up to 255. */
  function Depth(past: seq<Past>, key: u32): (depth: byte)
    ensures depth != 0
  {
    if past == [] || past[0] != Past(key, true) then 1
    else if Depth(past[1..], key) == 255 then 255 else Depth(past[1..], key) + 1
  }

  predicate ChainTells(t: Trace) {
    var m := t.now.body.marks;
    if t.now.body.route.phase == ACTIVE || t.now.body.route.phase == AWAITING_RESCUE then
      m.chainDepth == Depth(t.past, m.chainKey) && !m.chainEligible
    else if t.past == [] then !m.chainEligible
    else t.past[0] == Past(m.chainKey, m.chainEligible) && m.chainDepth == Depth(t.past[1..], m.chainKey)
  }

  /** The stored target of a walk is the one its company, home and risks call for, and risk was only taken on detours. */
  predicate WalkTells(p: Progress) {
    && (p.route.phase == ACTIVE ==> p.route.target == Target(p.route, AtHome(p.place)))
    && p.route.riskPoints <= 15 * p.route.decisions
    && (p.route.commuteSafe ==> p.route.riskPoints == 0)
  }

  lemma TrailStep(mix: Mixer, t: Trace, e: Event)
    requires Valid(t.now) && BodyValid(Next(mix, t, e).now.body) && TrailTells(t)
    ensures TrailTells(Next(mix, t, e))
  {
    hide BodyValid;
    var p, u := t.now.body, Next(mix, t, e);
    BodyParts(p);
    if e.Start? && Effect(mix, p, e).1 == Ok {
      BegunGrows(mix, t, e);
    } else {
      SameTrail(mix, p, e);
    }
  }

  lemma BodyParts(p: Progress)
    requires BodyValid(p)
    ensures TrailValid(p.trail) && p.trail.count <= |p.trail.slots| == HISTORY && p.trail.next < HISTORY
    ensures p.log.count <= |p.log.slots| == JOURNAL && p.log.next < JOURNAL
  {
  }

  lemma SameTrail(mix: Mixer, p: Progress, e: Event)
    requires BodyValid(p) && !(e.Start? && Effect(mix, p, e).1 == Ok)
    ensures Effect(mix, p, e).0.trail == p.trail
  {
    hide BodyValid, Target, Visit, Stored, ProgressPercent;
  }

  lemma BegunGrows(mix: Mixer, t: Trace, e: Event)
    requires Valid(t.now) && TrailTells(t) && e.Start? && Effect(mix, t.now.body, e).1 == Ok
    requires BodyValid(Next(mix, t, e).now.body)
    ensures TrailTells(Next(mix, t, e))
  {
    hide BodyValid, Choose, Target, Seed, NewRoute;
    var p, u, q := t.now.body, Next(mix, t, e), e.request;
    BodyParts(p);
    var signature := Signature(q.terrain, q.objective, NextVariant(mix, p, q, e.clock, e.entropy));
    assert u.now.body.trail == Push(p.trail, signature) by { NewRouteVariant(mix, p, q, e.clock, e.entropy); }
    NewestPushed(p.trail, signature, 0);
    PushLists(p.trail, signature);
    ChosenIsFresh(p.trail, q.terrain, q.objective, Seed(mix, p, q, e.clock, e.entropy) % VARIANTS);
    assert u.begun == [signature] + t.begun;
    forall j | 0 < j < |u.begun| && j <= HISTORY ensures u.begun[j] != signature {
      ListedInTrail(p.trail, j - 1);
    }
  }

  lemma NewRouteVariant(mix: Mixer, p: Progress, q: Request, c: Clock, entropy: u32)
    requires p.trail.count <= |p.trail.slots| && RequestValid(q)
    ensures NewRoute(mix, p, q, c, entropy).variant == NextVariant(mix, p, q, c, entropy)
  {
  }

  lemma ListedInTrail(r: Ring<u16>, k: nat)
    requires TrailValid(r) && k < r.count
    ensures InTrail(r, Listed(r)[k])
  {
    Back(r.next, HISTORY, k);
  }

  lemma ChainEnds(mix: Mixer, t: Trace, e: Event)
    requires Valid(t.now) && ChainTells(t) && (e.End? || e.RescueDone?)
    ensures ChainTells(Next(mix, t, e))
  {
    hide BodyValid, Target, ProgressPercent, Push, Depth, LastSignature, ClockValid, HuntValid, JournalEntry;
    if Effect(mix, t.now.body, e).1 == Ok { assert Next(mix, t, e).past[1..] == t.past; }
  }

  lemma ChainStarts(mix: Mixer, t: Trace, e: Event)
    requires Valid(t.now) && ChainTells(t) && e.Start?
    ensures ChainTells(Next(mix, t, e))
  {
    hide BodyValid, Target, Seed, Choose, Push, TimeBand, Moon, LastSignature, ClockValid, RequestValid, NextVariant, ChainKey;
    assert Effect(mix, t.now.body, e).1 == Ok ==> Effect(mix, t.now.body, e).0.route.phase == ACTIVE;
  }

  /** Nothing else starts or ends a route or touches the chain. */
  lemma ChainFrame(mix: Mixer, p: Progress, e: Event)
    requires BodyValid(p) && !e.Start? && !e.End? && !e.RescueDone?
    ensures var m, q := Effect(mix, p, e).0.marks, Effect(mix, p, e).0;
      && m.chainKey == p.marks.chainKey && m.chainDepth == p.marks.chainDepth && m.chainEligible == p.marks.chainEligible
      && (q.route.phase == p.route.phase || (p.route.phase == RETURNED && q.route.phase == IDLE))
  {
    hide BodyValid, Target, Visit, Stored, ClockValid, SampleValid, HuntValid, EncounterValid, Sat16, Sat32, ZoneToken;
  }

  lemma ChainStep(mix: Mixer, t: Trace, e: Event)
    requires Valid(t.now) && ChainTells(t)
    ensures ChainTells(Next(mix, t, e))
  {
    hide BodyValid, Effect, LastSignature, Depth;
    if e.Start? { ChainStarts(mix, t, e); } else if e.End? || e.RescueDone? { ChainEnds(mix, t, e); } else {
      ChainFrame(mix, t.now.body, e);
    }
  }

  /** The target depends on what the route is, not on how far it has gone. */
  lemma SameTarget(r: Route, q: Route, home: bool)
    requires q == r.(outcome := q.outcome, decisions := q.decisions, branch := q.branch, progress := q.progress,
                     riskPoints := q.riskPoints, target := q.target, steps := q.steps, distance := q.distance,
                     earlyReturn := q.earlyReturn)
    ensures Target(q, home) == Target(r, home)
  {
    hide Percent;
  }

  lemma Retargeted(p: Progress)
    ensures Retarget(p).route.target == Target(Retarget(p).route, AtHome(p.place))
    ensures Retarget(p) == p.(route := p.route.(target := Retarget(p).route.target))
  {
    SameTarget(p.route, Retarget(p).route, AtHome(p.place));
  }

  predicate RiskTells(r: Route) {
    r.riskPoints <= 15 * r.decisions && (r.commuteSafe ==> r.riskPoints == 0)
  }

  lemma RetargetTells(p: Progress)
    requires RiskTells(p.route)
    ensures WalkTells(Retarget(p))
  {
    hide Target;
    Retargeted(p);
  }

  /** Where the target is not recalculated nothing it depends on has changed. */
  lemma SameWalk(p: Progress, q: Progress)
    requires WalkTells(p) && RiskTells(q.route) && AtHome(q.place) == AtHome(p.place) && q.route.target == p.route.target
    requires q.route.phase == p.route.phase
    requires q.route == p.route.(outcome := q.route.outcome, decisions := q.route.decisions, branch := q.route.branch,
                                 progress := q.route.progress, riskPoints := q.route.riskPoints, steps := q.route.steps,
                                 distance := q.route.distance, earlyReturn := q.route.earlyReturn)
    ensures WalkTells(q)
  {
    SameTarget(p.route, q.route, AtHome(p.place));
  }

  lemma LocateTells(mix: Mixer, p: Progress, e: Event)
    requires BodyValid(p) && WalkTells(p) && (e.PrivacyMode? || e.HomeZone? || e.CoarseZone? || e.PreciseZone?)
    ensures WalkTells(Effect(mix, p, e).0)
  {
    hide BodyValid, Target, Visit, Stored, Retarget, SampleValid, ZoneToken;
    forall q: Progress | q.route.riskPoints == p.route.riskPoints && q.route.decisions == p.route.decisions
                         && q.route.commuteSafe == p.route.commuteSafe
      ensures WalkTells(Retarget(q)) {
      RetargetTells(q);
    }
  }

  lemma ChoiceTells(p: Progress, decision: byte)
    requires BodyValid(p) && WalkTells(p)
    ensures WalkTells(Decide(p, decision).0)
  {
    hide TrailValid, LogValid, ZonesValid, PlaceValid, MarksValid, Target, WalkTells;
    RiskOf(p);
    SameWalk(p, Decide(p, decision).0);
  }

  /** Counting changes steps and progress of a route and nothing the target depends on. */
  lemma CountFrame(mix: Mixer, p: Progress, e: Event)
    requires BodyValid(p) && (e.Hotspot? || e.Walk? || e.ExpeditionDone? || e.EncounterDone?)
    ensures var q := Effect(mix, p, e).0;
      q.place == p.place && q.route == p.route.(progress := q.route.progress, steps := q.route.steps)
  {
    hide BodyValid, ClockValid, EncounterValid, Sat16, Sat32, Pays;
  }

  lemma CountTells(mix: Mixer, p: Progress, e: Event)
    requires BodyValid(p) && WalkTells(p) && (e.Hotspot? || e.Walk? || e.ExpeditionDone? || e.EncounterDone?)
    ensures WalkTells(Effect(mix, p, e).0)
  {
    hide BodyValid, Target, Effect, WalkTells;
    RiskOf(p);
    CountFrame(mix, p, e);
    SameWalk(p, Effect(mix, p, e).0);
  }

  lemma RiskOf(p: Progress)
    requires WalkTells(p)
    ensures RiskTells(p.route)
  {
  }

  lemma AckTells(p: Progress, routeId: u32)
    requires WalkTells(p)
    ensures WalkTells(Acknowledge(p, routeId).0)
  {
    hide Target;
  }

  lemma CompanyTells(mix: Mixer, p: Progress, e: Event)
    requires BodyValid(p) && WalkTells(p) && (e.Start? || e.PartyDone? || e.End? || e.RescueDone?)
    ensures WalkTells(Effect(mix, p, e).0)
  {
    hide BodyValid, Target, Retarget, ProgressPercent, Seed, NextVariant, Push, TimeBand, Moon, ClockValid, RequestValid,
      HuntValid, JournalEntry;
    forall q: Progress | RiskTells(q.route) ensures WalkTells(Retarget(q)) {
      RetargetTells(q);
      Retargeted(q);
    }
  }

  lemma WalkStep(mix: Mixer, p: Progress, e: Event)
    requires BodyValid(p) && WalkTells(p)
    ensures WalkTells(Effect(mix, p, e).0)
  {
    hide SetPrivacy, SetHome, ObserveCoarse, ObservePrecise, ObserveHotspot, Begin, ApplyParty, Finish, Rescue, AddSteps, Decide,
      ApplyExpedition, ApplyEncounter, Acknowledge, BodyValid, WalkTells;
    if e.PrivacyMode? || e.HomeZone? || e.CoarseZone? || e.PreciseZone? { LocateTells(mix, p, e); }
    else if e.Start? || e.PartyDone? || e.End? || e.RescueDone? { CompanyTells(mix, p, e); }
    else if e.Acknowledged? { AckTells(p, e.routeId); }
    else if e.Choice? { ChoiceTells(p, e.decision); }
    else { CountTells(mix, p, e); }
  }

  // ----- the run theorems -----

  lemma FirstTells()
    ensures Valid(FIRST.now) && TrailTells(FIRST) && ChainTells(FIRST) && WalkTells(FIRST.now.body)
  {
  }

  /** In a run that ends no community-day route undated: any five routes in a row differ in terrain, objective or variant, the
      chain depth counts the unbroken successes, the target is current and commute-safe routes take no risk. */
  lemma {:induction false} RunTells(mix: Mixer, events: seq<Event>)
    requires forall k :: 0 <= k < |events| ==> !Undated(Traced(mix, events[..k]).now.body, events[k])
    ensures var t := Traced(mix, events);
      Valid(t.now) && TrailTells(t) && ChainTells(t) && WalkTells(t.now.body)
    decreases |events|
  {
    hide Valid, TrailTells, ChainTells, WalkTells, Undated, Perform;
    if events == [] {
      FirstTells();
    } else {
      var n := |events| - 1;
      var front := events[..n];
      forall k | 0 <= k < n ensures front[..k] == events[..k] && front[k] == events[k] {}
      RunTells(mix, front);
      var t := Traced(mix, front);
      StepKeeps(mix, t.now, events[n]);
      TellsStep(mix, t, events[n]);
    }
  }

  lemma TellsStep(mix: Mixer, t: Trace, e: Event)
    requires Valid(t.now) && Valid(Next(mix, t, e).now) && TrailTells(t) && ChainTells(t) && WalkTells(t.now.body)
    ensures TrailTells(Next(mix, t, e)) && ChainTells(Next(mix, t, e)) && WalkTells(Next(mix, t, e).now.body)
  {
    hide TrailTells, ChainTells, WalkTells, BodyValid, Effect;
    TrailStep(mix, t, e);
    ChainStep(mix, t, e);
    WalkStep(mix, t.now.body, e);
  }

  // ----- community days -----

  function LatestDay(events: seq<Event>): nat
    decreases |events|
  {
    if events == [] then 0
    else
      var latest, e := LatestDay(events[..|events| - 1]), events[|events| - 1];
      if e.Hotspot? && e.clock.trusted != 0 && e.clock.dayId > latest then e.clock.dayId else latest
  }

  /** Trusted days never go backwards. */
  predicate Forward(events: seq<Event>)
    decreases |events|
  {
    events == [] || (var e := events[|events| - 1];
      && Forward(events[..|events| - 1])
      && (e.Hotspot? && e.clock.trusted != 0 ==> e.clock.dayId >= LatestDay(events[..|events| - 1])))
  }

  predicate Decreasing(s: seq<u32>) {
    forall i, j :: 0 <= i < j < |s| ==> s[i] > s[j]
  }

  lemma BonusDay(mix: Mixer, s: Snapshot, e: Event)
    ensures var after := Perform(mix, s, e).0.body.marks.bonusDay;
      after == if Valid(s) && e.Hotspot? && Perform(mix, s, e).1 == Ok && Pays(s.body.marks, e.clock) then e.clock.dayId
               else s.body.marks.bonusDay
  {
    hide BodyValid, Target, Visit, Stored, ProgressPercent, Seed, Choose, NewRoute, Push, TimeBand, Moon, ClockValid;
  }

  /** While trusted days do not go backwards, every community day pays at most once, whoever meets whom, across routes. */
  lemma {:induction false} PaidOncePerDay(mix: Mixer, events: seq<Event>)
    requires Forward(events)
    ensures var t := Traced(mix, events);
      && Decreasing(t.paid) && t.now.body.marks.bonusDay <= LatestDay(events)
      && t.now.body.marks.bonusDay == if t.paid == [] then 0 else t.paid[0]
    decreases |events|
  {
    hide Perform;
    if events != [] {
      var n := |events| - 1;
      PaidOncePerDay(mix, events[..n]);
      BonusDay(mix, Traced(mix, events[..n]).now, events[n]);
    }
  }

  // ----- hunts and expeditions -----

  predicate Twice(s: seq<u32>) {
    exists i, j :: 0 <= i < j < |s| && s[i] == s[j]
  }

  /** The hunt or expedition of this event is counted although it was counted before. */
  predicate CountsAgain(mix: Mixer, t: Trace, e: Event) {
    Perform(mix, t.now, e).1 == Ok
    && (((e.PartyDone? || e.RescueDone?) && e.hunt.proof in t.hunts) || (e.ExpeditionDone? && e.expedition.id in t.trips))
  }

  /** Only the last one counted is remembered. */
  predicate MarksTell(t: Trace) {
    && t.now.body.marks.partyProof == (if t.hunts == [] then 0 else t.hunts[0])
    && t.now.body.marks.expedition == (if t.trips == [] then 0 else t.trips[0])
  }

  lemma CountStep(mix: Mixer, t: Trace, e: Event)
    requires MarksTell(t)
    ensures MarksTell(Next(mix, t, e))
  {
    hide BodyValid, Target, Visit, Stored, ProgressPercent, Seed, Choose, NewRoute, Push, TimeBand, Moon, ClockValid, HuntValid,
      LastSignature, Postcard, JournalEntry;
  }

  lemma {:induction false} RunCounts(mix: Mixer, events: seq<Event>)
    ensures MarksTell(Traced(mix, events))
    decreases |events|
  {
    hide MarksTell, Next;
    if events != [] {
      RunCounts(mix, events[..|events| - 1]);
      CountStep(mix, Traced(mix, events[..|events| - 1]), events[|events| - 1]);
    } else {
      FirstCounts();
    }
  }

  lemma FirstCounts()
    ensures MarksTell(FIRST)
  {
  }

  /** In every run, exactly which accepted steps count something again: company or an expedition that was counted before but not
      last, and any rescue by a hunt that was counted before. */
  lemma CountedAgainExactly(mix: Mixer, events: seq<Event>, e: Event)
    ensures var t := Traced(mix, events); var r := t.now.body.route;
      CountsAgain(mix, t, e) <==>
        && Valid(t.now)
        && (match e
            case PartyDone(h) =>
              (r.phase == ACTIVE || r.phase == AWAITING_RESCUE) && HuntValid(h) && h.proof in t.hunts && h.proof != t.hunts[0]
            case RescueDone(h, c) => r.phase == AWAITING_RESCUE && ClockValid(c) && HuntValid(h) && h.proof in t.hunts
            case ExpeditionDone(x) => r.phase == ACTIVE && x.id != 0 && x.id in t.trips && x.id != t.trips[0]
            case _ => false)
  {
    hide BodyValid, Target, HuntValid, ClockValid, Push, JournalEntry, Sat16;
    RunCounts(mix, events);
  }

  /** Event `k` of a run counts something again. */
  predicate AgainAt(mix: Mixer, events: seq<Event>, k: nat) {
    k < |events| && CountsAgain(mix, Traced(mix, events[..k]), events[k])
  }

  /** So in a run every hunt and expedition counts once if and only if no such step is taken. */
  lemma {:induction false} CountedOnce(mix: Mixer, events: seq<Event>)
    ensures var t := Traced(mix, events);
      Twice(t.hunts) || Twice(t.trips) <==> exists k :: 0 <= k < |events| && AgainAt(mix, events, k)
    decreases |events|
  {
    hide CountsAgain, Next, Twice;
    if events != [] {
      var n := |events| - 1;
      var front := events[..n];
      CountedOnce(mix, front);
      forall k | 0 <= k < n ensures AgainAt(mix, front, k) <==> AgainAt(mix, events, k) {
        assert front[..k] == events[..k] && front[k] == events[k];
      }
      Grown(mix, Traced(mix, front), events[n]);
      assert AgainAt(mix, events, n) <==> CountsAgain(mix, Traced(mix, front), events[n]);
    } else {
      Nothing();
    }
  }

  lemma Nothing()
    ensures !Twice(FIRST.hunts) && !Twice(FIRST.trips)
  {
  }

  lemma Grown(mix: Mixer, t: Trace, e: Event)
    ensures var u := Next(mix, t, e);
      Twice(u.hunts) || Twice(u.trips) <==> Twice(t.hunts) || Twice(t.trips) || CountsAgain(mix, t, e)
  {
    hide Perform;
    TwiceCons(t.hunts, Next(mix, t, e).hunts);
    TwiceCons(t.trips, Next(mix, t, e).trips);
  }

  lemma TwiceCons(s: seq<u32>, grown: seq<u32>)
    ensures grown != [] && grown == [grown[0]] + s ==> (Twice(grown) <==> Twice(s) || grown[0] in s)
  {
    if grown != [] && grown == [grown[0]] + s {
      if Twice(s) {
        var i, j :| 0 <= i < j < |s| && s[i] == s[j];
        assert grown[i + 1] == grown[j + 1];
      }
      if grown[0] in s {
        var j :| 0 <= j < |s| && s[j] == grown[0];
        assert grown[0] == grown[j + 1];
      }
      if Twice(grown) {
        var i, j :| 0 <= i < j < |grown| && grown[i] == grown[j];
        assert grown[j] == s[j - 1];
        if i > 0 { assert grown[i] == s[i - 1]; }
      }
    }
  }

  /** Two valid hunts in turn count three times on any active route. */
  lemma AlternatingHunts(p: Progress, a: Hunt, b: Hunt)
    requires BodyValid(p) && p.route.phase == ACTIVE && HuntValid(a) && HuntValid(b)
    requires a.proof != b.proof && p.marks.partyProof != a.proof
    ensures var (p1, first) := ApplyParty(p, a); var (p2, second) := ApplyParty(p1, b); var (p3, third) := ApplyParty(p2, a);
      first == Ok && second == Ok && third == Ok
  {
    hide BodyValid, HuntValid, Target, Sat16;
  }
}
