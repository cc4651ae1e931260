/** Which operations keep a progress record valid, and what follows over whole runs. */
module AdventureProofs {
  import opened Bytes
  import opened Adventure

  // ----- rings -----

  /** The element written `k` pushes before the newest: `journalNewest`. */
  function Newest<T>(r: Ring<T>, k: nat): (x: T)
    requires k < r.count <= |r.slots| && r.next < |r.slots|
  {
    r.slots[(r.next + |r.slots| - 1 - k) % |r.slots|]
  }

  /** Newest first. */
  function Listed<T>(r: Ring<T>): (list: seq<T>)
    requires r.count <= |r.slots| && 0 <= r.next < |r.slots|
    ensures |list| == r.count && forall k :: 0 <= k < r.count ==> list[k] == Newest(r, k)
  {
    seq(r.count, k requires 0 <= k < r.count => Newest(r, k))
  }

  /** Stepping back round the array. */
  lemma Back(next: nat, n: nat, k: nat)
    requires next < n && k < n
    ensures (next + n - 1 - k) % n == if k < next then next - 1 - k else next + n - 1 - k
  {
    if k < next { Wraps(next - 1 - k, n); } else { Wraps(next + n - 1 - k, n); }
  }

  lemma Wraps(a: nat, n: nat)
    requires a < n
    ensures (a + n) % n == a && a % n == a
  {
  }

  lemma NewestPushed<T>(r: Ring<T>, x: T, k: nat)
    requires r.count <= |r.slots| && r.next < |r.slots| && k < Push(r, x).count
    ensures Newest(Push(r, x), k) == if k == 0 then x else Newest(r, k - 1)
  {
    var n := |r.slots|;
    var slot := (r.next + 1) % n;
    assert slot == if r.next + 1 == n then 0 else r.next + 1 by { if r.next + 1 < n { Wraps(r.next + 1, n); } else { Wraps(0, n); } }
    Back(slot, n, k);
    if k > 0 { Back(r.next, n, k - 1); }
  }

  /** A push puts the new element first and drops the oldest of a full ring. */
  lemma PushLists<T>(r: Ring<T>, x: T)
    requires r.count <= |r.slots| && r.next < |r.slots|
    ensures Listed(Push(r, x)) == [x] + Listed(r)[..if r.count < |r.slots| then r.count else r.count - 1]
  {
    forall k | 0 <= k < Push(r, x).count
      ensures Listed(Push(r, x))[k] == ([x] + Listed(r)[..if r.count < |r.slots| then r.count else r.count - 1])[k]
    {
      NewestPushed(r, x, k);
    }
  }

  lemma PushKeeps<T>(r: Ring<T>, capacity: nat, empty: T, x: T)
    requires RingValid(r, capacity, empty)
    ensures RingValid(Push(r, x), capacity, empty)
  {
    if r.count + 1 < capacity { assert (r.next + 1) % capacity == r.next + 1; }
  }

  lemma TrailPushed(r: Ring<u16>, x: u16)
    requires TrailValid(r) && x != 0
    ensures TrailValid(Push(r, x))
  {
    PushKeeps(r, HISTORY, 0, x);
  }

  /** The journal stays well formed exactly when the new entry is. */
  lemma LogPushed(r: Ring<Entry>, e: Entry)
    requires LogValid(r)
    ensures LogValid(Push(r, e)) <==> EntryValid(e)
  {
    PushKeeps(r, JOURNAL, NO_ENTRY, e);
    assert Push(r, e).slots[r.next] == e && r.next < Push(r, e).count;
  }

  // ----- zones -----

  lemma VisitKeeps(z: Zones, token: u32, meters: u32)
    requires ZonesValid(z) && token != 0
    ensures ZonesValid(Visit(z, token, meters)) && Stored(Visit(z, token, meters), token)
  {
    var slot, after := ZoneSlot(z, token), Visit(z, token, meters);
    assert after.slots[slot].token == token && slot < after.count;
    forall i, j | 0 <= i < j < after.count ensures after.slots[i].token != after.slots[j].token {
      var other := if i == slot then j else i;
      if (i == slot || j == slot) && !Stored(z, token) { assert z.slots[other].token != token; }
    }
  }

  /** A visit touches one slot only, counts one visit more, and evicts only when all five slots hold other zones; then the
      zone it evicts was visited no more than any it keeps. */
  lemma VisitMeans(z: Zones, token: u32, meters: u32)
    requires ZonesValid(z) && token != 0
    ensures var slot, after := ZoneSlot(z, token), Visit(z, token, meters);
      && (forall i :: 0 <= i < ZONES && i != slot ==> after.slots[i] == z.slots[i])
      && after.slots[slot].visits == Sat16(if Stored(z, token) then z.slots[slot].visits else 0, 1)
      && (slot < z.count && z.slots[slot].token != token ==>
            z.count == ZONES && !Stored(z, token) && forall i :: 0 <= i < ZONES ==> z.slots[slot].visits <= z.slots[i].visits)
      && (forall t :: t != token && Stored(z, t) && (slot >= z.count || z.slots[slot].token != t) ==> Stored(after, t))
  {
    var slot, after := ZoneSlot(z, token), Visit(z, token, meters);
    forall t | t != token && Stored(z, t) && (slot >= z.count || z.slots[slot].token != t) ensures Stored(after, t) {
      var i :| 0 <= i < z.count && z.slots[i].token == t;
      assert after.slots[i].token == t;
    }
  }

  // ----- each operation keeps a valid body -----

  lemma RetargetKeeps(p: Progress)
    requires BodyValid(p.(route := p.route.(target := if p.route.phase == IDLE then 0 else 100)))
    ensures BodyValid(Retarget(p))
  {
    hide Percent, TrailValid, LogValid, ZonesValid, PlaceValid;
    var t := Target(p.route, AtHome(p.place));
    assert p.route.phase != IDLE ==> p.route.base != 0;
  }

  lemma SetPrivacyKeeps(p: Progress, mode: byte, salt: u32)
    requires BodyValid(p)
    ensures BodyValid(SetPrivacy(p, mode, salt).0)
  {
    hide TrailValid, LogValid, Retarget;
    var kept := if mode == PRECISE_TRANSIENT then salt else 0;
    if mode < 3 && (mode == PRECISE_TRANSIENT ==> salt != 0) && !(p.place.privacy == mode && p.place.salt == kept) {
      RetargetKeeps(p.(place := Place(mode, 0, 0, kept, 0, false), zones := NO_ZONES, route := p.route.(distance := 0)));
    }
  }

  lemma SetHomeKeeps(p: Progress, token: u32)
    requires BodyValid(p)
    ensures BodyValid(SetHome(p, token).0)
  {
    hide TrailValid, LogValid, ZonesValid, Retarget;
    if p.place.privacy != PRIVACY_OFF { RetargetKeeps(p.(place := p.place.(home := token))); }
  }

  lemma ObserveKeeps(p: Progress, token: u32, steps: u32, meters: u32)
    requires BodyValid(p) && p.place.privacy != PRIVACY_OFF && token != 0
    ensures BodyValid(Observe(p, token, steps, meters).0)
  {
    hide TrailValid, LogValid, ZonesValid, Retarget, Visit, Stored, Sat32;
    ZonesShape(p.zones);
    VisitKeeps(p.zones, token, meters);
    var q := p.(zones := Visit(p.zones, token, meters),
                place := p.place.(current := token, zoneNew := !Stored(p.zones, token), total := Sat32(p.place.total, meters)));
    assert |q.zones.slots| == ZONES && q.zones.count <= ZONES by { ZonesShape(q.zones); }
    if p.route.phase == ACTIVE {
      RetargetKeeps(q.(route := q.route.(steps := Sat32(q.route.steps, steps), distance := Sat32(q.route.distance, meters))));
    }
  }

  lemma ZonesShape(z: Zones)
    requires ZonesValid(z)
    ensures |z.slots| == ZONES && z.count <= ZONES
  {
  }

  lemma ObserveHotspotKeeps(p: Progress, token: u32, people: byte, c: Clock)
    requires BodyValid(p)
    ensures BodyValid(ObserveHotspot(p, token, people, c).0)
  {
    hide TrailValid, LogValid, ZonesValid, PlaceValid;
  }

  lemma BeginKeeps(mix: Mixer, p: Progress, q: Request, c: Clock, entropy: u32)
    requires BodyValid(p)
    ensures BodyValid(Begin(mix, p, q, c, entropy).0)
  {
    hide TrailValid, LogValid, ZonesValid, Retarget, Push, Choose, Moon, TimeBand, NextDepth, NonZero, Signature, Stored;
    assert RingValid(p.trail, HISTORY, 0) by { TrailShape(p.trail); }
    if Begin(mix, p, q, c, entropy).1 == Ok {
      var key := ChainKey(mix, q);
      var route := NewRoute(mix, p, q, c, entropy);
      assert route.id != 0 && route.seed != 0 by { NonZeroIsNot(); }
      var signature := Signature(q.terrain, q.objective, route.variant);
      TrailPushed(p.trail, signature);
      RetargetKeeps(p.(route := route, trail := Push(p.trail, signature),
                       marks := p.marks.(sequence := p.marks.sequence + 1, chainKey := key,
                                         chainDepth := NextDepth(p.marks, key), chainEligible := false)));
    }
  }

  lemma TrailShape(r: Ring<u16>)
    requires TrailValid(r)
    ensures RingValid(r, HISTORY, 0)
  {
  }

  lemma NonZeroIsNot()
    ensures forall n: u32, f: u32 :: f != 0 ==> NonZero(n, f) != 0
  {
  }

  lemma WalkingKeeps(mix: Mixer, p: Progress, e: Event)
    requires BodyValid(p) && (e.Walk? || e.ExpeditionDone? || e.EncounterDone?)
    ensures BodyValid(Effect(mix, p, e).0)
  {
    hide TrailValid, LogValid, ZonesValid, PlaceValid, EncounterValid, Sat16, Sat32;
  }

  lemma DecideKeeps(p: Progress, decision: byte)
    requires BodyValid(p)
    ensures BodyValid(Decide(p, decision).0)
  {
    hide TrailValid, LogValid, ZonesValid, PlaceValid, Sat16;
  }

  lemma AcknowledgeKeeps(p: Progress, routeId: u32)
    requires BodyValid(p)
    ensures BodyValid(Acknowledge(p, routeId).0)
  {
    hide TrailValid, LogValid, ZonesValid;
  }

  lemma JoinedKeeps(p: Progress, h: Hunt, points: nat)
    requires BodyValid(p) && HuntValid(h) && p.route.phase != IDLE
    ensures BodyValid(Joined(p, h, points))
  {
    hide TrailValid, LogValid, ZonesValid, PlaceValid, Retarget;
    RetargetKeeps(p.(marks := p.marks.(partyProof := h.proof),
                     route := p.route.(party := h.people, progress := Sat16(p.route.progress, points))));
  }

  lemma PostcardIsKnown(r: Route)
    requires PARTIAL <= r.outcome <= RESCUED
    ensures Postcard(r) < POSTCARDS
  {
  }

  /** A route is written away well formed exactly when its community day can be dated. */
  lemma FinalizeKeeps(p: Progress, outcome: byte, c: Clock)
    requires BodyValid(p) && p.route.phase != IDLE && PARTIAL <= outcome <= RESCUED && ClockValid(c)
    ensures BodyValid(Finalize(p, outcome, c)) <==> (p.route.communityDay ==> c.trusted != 0)
  {
    hide TrailValid, LogValid, ZonesValid, PlaceValid, Push, Postcard, AtHome;
    var q := p.(route := p.route.(outcome := outcome, phase := RETURNED),
                marks := p.marks.(chainEligible := outcome == COMPLETE || outcome == RESCUED));
    PostcardIsKnown(q.route);
    assert RingValid(p.log, JOURNAL, NO_ENTRY) by { LogShape(p.log); }
    LogPushed(q.log, JournalEntry(q, c));
  }

  lemma LogShape(r: Ring<Entry>)
    requires LogValid(r)
    ensures RingValid(r, JOURNAL, NO_ENTRY)
  {
  }

  lemma WaitingKeeps(p: Progress)
    requires BodyValid(p) && p.route.phase == ACTIVE && p.route.risk == BOLD && !p.route.earlyReturn
    ensures BodyValid(p.(route := p.route.(phase := AWAITING_RESCUE)))
  {
    hide TrailValid, LogValid, ZonesValid, PlaceValid;
  }

  /** Ends that write a community-day route away with no trusted clock. */
  predicate Undated(p: Progress, e: Event) {
    match e
    case End(c) => ClockValid(c) && p.route.phase == ACTIVE && Ending(p.route).Some? && p.route.communityDay && c.trusted == 0
    case RescueDone(h, c) =>
      ClockValid(c) && p.route.phase == AWAITING_RESCUE && HuntValid(h) && p.route.communityDay && c.trusted == 0
    case _ => false
  }

  lemma FinishKeeps(p: Progress, c: Clock)
    requires BodyValid(p)
    ensures p.log.next < |p.log.slots| && (BodyValid(Finish(p, c).0) <==> !Undated(p, End(c)))
  {
    hide TrailValid, LogValid, ZonesValid, PlaceValid, Finalize, ProgressPercent;
    assert RingValid(p.log, JOURNAL, NO_ENTRY) by { LogShape(p.log); }
    if ClockValid(c) && p.route.phase == ACTIVE {
      match Ending(p.route)
      case Some(outcome) => FinalizeKeeps(p, outcome, c);
      case None => WaitingKeeps(p);
    }
  }

  lemma RescueKeeps(p: Progress, h: Hunt, c: Clock)
    requires BodyValid(p)
    ensures p.log.next < |p.log.slots| && (BodyValid(Rescue(p, h, c).0) <==> !Undated(p, RescueDone(h, c)))
  {
    hide TrailValid, LogValid, ZonesValid, PlaceValid, Finalize, Joined;
    assert RingValid(p.log, JOURNAL, NO_ENTRY) by { LogShape(p.log); }
    if ClockValid(c) && p.route.phase == AWAITING_RESCUE && HuntValid(h) {
      JoinedKeeps(p, h, 20);
      JoinedFrame(p, h, 20);
      FinalizeKeeps(Joined(p, h, 20), RESCUED, c);
    }
  }

  lemma JoinedFrame(p: Progress, h: Hunt, points: nat)
    ensures var q := Joined(p, h, points);
      && q == p.(route := q.route, marks := p.marks.(partyProof := h.proof))
      && q.route == p.route.(party := h.people, progress := q.route.progress, target := q.route.target)
  {
  }

  /** Every operation keeps a valid record valid, save one: ending a community-day route with no trusted clock. */
  lemma StepKeeps(mix: Mixer, s: Snapshot, e: Event)
    requires Valid(s)
    ensures Valid(Perform(mix, s, e).0) <==> !Undated(s.body, e)
  {
    hide SetPrivacy, SetHome, Observe, ObserveHotspot, Begin, ApplyParty, Finish, Rescue, AddSteps, Decide, ApplyExpedition,
      ApplyEncounter, Acknowledge, BodyValid, Ending;
    var p := s.body;
    match e
    case PrivacyMode(mode, salt) => SetPrivacyKeeps(p, mode, salt);
    case HomeZone(token) => SetHomeKeeps(p, token);
    case CoarseZone(token, steps, meters) =>
      if p.place.privacy == COARSE && token != 0 { ObserveKeeps(p, token, steps, meters); }
    case PreciseZone(sample, steps, meters) =>
      NonZeroIsNot();
      if p.place.privacy == PRECISE_TRANSIENT { ObserveKeeps(p, ZoneToken(mix, sample, p.place.salt), steps, meters); }
    case Hotspot(token, people, c) => ObserveHotspotKeeps(p, token, people, c);
    case Choice(decision) => DecideKeeps(p, decision);
    case Acknowledged(routeId) => AcknowledgeKeeps(p, routeId);
    case Start(q, c, entropy) => BeginKeeps(mix, p, q, c, entropy);
    case PartyDone(h) => PartyKeeps(p, h);
    case End(c) => FinishKeeps(p, c);
    case RescueDone(h, c) => RescueKeeps(p, h, c);
    case _ => WalkingKeeps(mix, p, e);
  }

  lemma PartyKeeps(p: Progress, h: Hunt)
    requires BodyValid(p)
    ensures BodyValid(ApplyParty(p, h).0)
  {
    hide Joined, BodyValid;
    if (p.route.phase == ACTIVE || p.route.phase == AWAITING_RESCUE) && HuntValid(h) { JoinedKeeps(p, h, 2 * h.people); }
  }

  // ----- runs -----

  function Run(mix: Mixer, s: Snapshot, events: seq<Event>): Snapshot
    decreases |events|
  {
    if events == [] then s else Perform(mix, Run(mix, s, events[..|events| - 1]), events[|events| - 1]).0
  }

  /** An invalid record refuses every operation for ever. */
  lemma {:induction false} Wedged(mix: Mixer, s: Snapshot, events: seq<Event>, e: Event)
    requires !Valid(s)
    ensures Run(mix, s, events) == s && Perform(mix, s, e) == (s, InvalidState)
  {
    if events != [] { Wedged(mix, s, events[..|events| - 1], e); }
  }

  /** A run keeps a record usable exactly when no end in it leaves a community-day route undated. */
  lemma {:induction false} RunKeeps(mix: Mixer, s: Snapshot, events: seq<Event>)
    requires Valid(s)
    ensures Valid(Run(mix, s, events)) <==>
      forall k :: 0 <= k < |events| ==> !Undated(Run(mix, s, events[..k]).body, events[k])
    decreases |events|
  {
    hide Valid, Perform, Undated;
    if events != [] {
      var n := |events| - 1;
      var front := events[..n];
      RunKeeps(mix, s, front);
      forall k | 0 <= k < n ensures front[..k] == events[..k] && front[k] == events[k] {}
      var before := Run(mix, s, front);
      if Valid(before) {
        StepKeeps(mix, before, events[n]);
        assert Undated(Run(mix, s, events[..n]).body, events[n]) <==> Undated(before.body, events[n]);
      } else {
        Wedged(mix, before, [], events[n]);
      }
    }
  }

  // ----- what the operations mean -----

  /** A route is written into the journal when it returns and at no other time: newest first, its entry goes in front of at
      most four older ones, which do not change. */
  lemma JournalRecords(mix: Mixer, p: Progress, e: Event)
    requires BodyValid(p)
    ensures p.log.count <= JOURNAL == |p.log.slots| && p.log.next < JOURNAL
    ensures var (q, status) := Effect(mix, p, e);
      if (e.End? || e.RescueDone?) && status == Ok then
        && q.log.count <= |q.log.slots| && q.log.next < |q.log.slots|
        && Listed(q.log) == [JournalEntry(q, e.clock)] + Listed(p.log)[..if p.log.count < JOURNAL then p.log.count else JOURNAL - 1]
        && q.route.phase == RETURNED && q.route.outcome != NO_OUTCOME
      else q.log == p.log
  {
    hide BodyValid, Target, ProgressPercent, Visit, Stored, Seed, Choose, Push, JournalEntry, ClockValid, HuntValid, Listed;
    LogFits(p);
    if (e.End? || e.RescueDone?) && Effect(mix, p, e).1 == Ok {
      assert Effect(mix, p, e).0.log == Push(p.log, JournalEntry(Effect(mix, p, e).0, e.clock)) by { Written(mix, p, e); }
      PushLists(p.log, JournalEntry(Effect(mix, p, e).0, e.clock));
      PushFits(p.log, JournalEntry(Effect(mix, p, e).0, e.clock));
    }
  }

  lemma LogFits(p: Progress)
    requires BodyValid(p)
    ensures p.log.count <= JOURNAL == |p.log.slots| && p.log.next < JOURNAL
  {
  }

  lemma PushFits<T>(r: Ring<T>, x: T)
    requires r.count <= |r.slots| && r.next < |r.slots|
    ensures var q := Push(r, x); q.count <= |q.slots| && q.next < |q.slots|
  {
  }

  /** The entry is drawn from the record as it is left. */
  lemma Written(mix: Mixer, p: Progress, e: Event)
    requires BodyValid(p) && (e.End? || e.RescueDone?) && Effect(mix, p, e).1 == Ok
    ensures p.log.next < |p.log.slots|
    ensures var q := Effect(mix, p, e).0; q.log == Push(p.log, JournalEntry(q, e.clock))
  {
    hide BodyValid, Target, ProgressPercent, Push, ClockValid, HuntValid, Postcard, Sat16;
    LogFits(p);
  }

  /** The record still says where: a current zone, a home, a visited zone or a journal entry carries a zone token. */
  ghost predicate NamesZone(p: Progress)
    requires |p.zones.slots| == ZONES && p.zones.count <= ZONES
  {
    p.place.current != 0 || p.place.home != 0 || (exists token: u32 :: Stored(p.zones, token)) || JournalNamesZone(p.log)
  }

  ghost predicate JournalNamesZone(log: Ring<Entry>) {
    exists k :: 0 <= k < |log.slots| && log.slots[k].zone != 0
  }

  /** Any change of privacy mode or salt forgets where Kitsu is, was and lives, and how far it went; only the zone tokens
      already in the journal stay, so the record names no zone exactly when no journal entry carries a token. */
  lemma PrivacyForgets(p: Progress, mode: byte, salt: u32)
    requires BodyValid(p) && SetPrivacy(p, mode, salt).1 == Ok
    ensures var q := SetPrivacy(p, mode, salt).0;
      && q.place == Place(mode, 0, 0, if mode == PRECISE_TRANSIENT then salt else 0, 0, false)
      && q.zones == NO_ZONES && q.route.distance == 0 && (forall token: u32 :: !Stored(q.zones, token))
      && q == p.(place := q.place, zones := q.zones, route := p.route.(distance := 0, target := q.route.target))
      && (NamesZone(q) <==> JournalNamesZone(p.log))
  {
    hide BodyValid, Target, JournalNamesZone;
  }

  /** A hunt that already counted towards a route is refused as company but still accepted as a rescue. */
  lemma SpentHuntRescues(p: Progress, h: Hunt, c: Clock)
    requires BodyValid(p) && p.route.phase == AWAITING_RESCUE && HuntValid(h) && p.marks.partyProof == h.proof && ClockValid(c)
    ensures p.log.next < |p.log.slots|
    ensures ApplyParty(p, h) == (p, Duplicate) && Rescue(p, h, c).1 == Ok
    ensures Rescue(p, h, c).0.route.phase == RETURNED && Rescue(p, h, c).0.marks.chainEligible
  {
    hide BodyValid, Target, HuntValid, ClockValid, JournalEntry, Push;
    LogFits(p);
  }

  /** Three ordinary operations on a fresh record can wedge it: a route begun on a community day, turned back, and ended after
      the clock lost trust. */
  lemma WedgeReachable(mix: Mixer, later: seq<Event>, e: Event)
    ensures var communityDay := Clock(TRUSTED_UNIX_MIN, 7, 600, 1);
      var events := [Start(Request(MEADOW, EXPLORE, BALANCED, GENTLE, 0, 1000, 0), communityDay, 0), Choice(RETURN_EARLY),
                     End(Clock(0, 0, 0, 0))];
      var s := Perform(mix, Perform(mix, Perform(mix, Snapshot(RESET, RESET), events[0]).0, events[1]).0, events[2]).0;
      !Valid(s) && Run(mix, s, later) == s && Perform(mix, s, e) == (s, InvalidState)
  {
    hide Target, Seed, Choose, Push, BodyValid, NonZero, ChainKey, ProgressPercent;
    var begun := Start(Request(MEADOW, EXPLORE, BALANCED, GENTLE, 0, 1000, 0), Clock(TRUSTED_UNIX_MIN, 7, 600, 1), 0);
    var first := Snapshot(RESET, RESET);
    ResetIsValid();
    StepKeeps(mix, first, begun);
    var second := Perform(mix, first, begun).0;
    assert second.body.route.phase == ACTIVE && second.body.route.communityDay && second.body.route.decisions == 0
      && !second.body.route.earlyReturn;
    TurnedBack(mix, second, later, e);
  }

  lemma TurnedBack(mix: Mixer, s: Snapshot, later: seq<Event>, e: Event)
    requires Valid(s) && s.body.route.phase == ACTIVE && s.body.route.communityDay && s.body.route.decisions == 0
    requires !s.body.route.earlyReturn && !s.body.route.commuteSafe
    ensures var t := Perform(mix, Perform(mix, s, Choice(RETURN_EARLY)).0, End(Clock(0, 0, 0, 0))).0;
      !Valid(t) && Run(mix, t, later) == t && Perform(mix, t, e) == (t, InvalidState)
  {
    hide BodyValid, ProgressPercent, Finalize;
    StepKeeps(mix, s, Choice(RETURN_EARLY));
    var next := Perform(mix, s, Choice(RETURN_EARLY)).0;
    StepKeeps(mix, next, End(Clock(0, 0, 0, 0)));
    Wedged(mix, Perform(mix, next, End(Clock(0, 0, 0, 0))).0, later, e);
  }

  lemma ResetIsValid()
    ensures Valid(Snapshot(RESET, RESET))
  {
  }
}
