/** The progression object in its own form: one record whose fields and fixed arrays every operation edits in place. */
module AdventureProgression {
  import opened Bytes
  import opened Adventure
  import opened AdventureProofs

  class AdventureProgression {
    const mix: Mixer
    var header: Header
    var route: Route
    var place: Place
    var marks: Marks
    const zones: array<Zone>
    var zoneCount: nat
    const history: array<u16>
    var historyCount: nat
    var historyNext: nat
    const journal: array<Entry>
    var journalCount: nat
    var journalNext: nat
    var checksum: Progress

    function Body(): Progress
      reads this, zones, history, journal
    {
      Progress(header, route, place, Zones(zones[..], zoneCount), Ring(history[..], historyCount, historyNext),
               Ring(journal[..], journalCount, journalNext), marks)
    }

    /** `snapshot`. */
    function Now(): Snapshot
      reads this, zones, history, journal
    {
      Snapshot(Body(), checksum)
    }

    ghost predicate Shape()
      reads this
    {
      zones.Length == ZONES && history.Length == HISTORY && journal.Length == JOURNAL
    }

    constructor (mix: Mixer)
      ensures Shape() && Now() == Snapshot(RESET, RESET) && this.mix == mix
      ensures fresh(zones) && fresh(history) && fresh(journal)
    {
      this.mix := mix;
      header, route, place, marks := RESET.header, NO_ROUTE, NO_PLACE, RESET.marks;
      zones := new Zone[ZONES](_ => NO_ZONE);
      history := new u16[HISTORY](_ => 0);
      journal := new Entry[JOURNAL](_ => NO_ENTRY);
      zoneCount, historyCount, historyNext, journalCount, journalNext := 0, 0, 0, 0, 0;
      checksum := RESET;
      new;
      assert zones[..] == RESET.zones.slots && history[..] == RESET.trail.slots && journal[..] == RESET.log.slots;
    }

    method RefreshCrc()
      modifies this`checksum
      ensures checksum == Body()
    {
      checksum := Body();
    }

    /** Copying a whole body in. */
    method Adopt(b: Progress)
      requires Shape() && |b.zones.slots| == ZONES && |b.trail.slots| == HISTORY && |b.log.slots| == JOURNAL
      modifies this, zones, history, journal
      ensures Body() == b
    {
      header, route, place, marks := b.header, b.route, b.place, b.marks;
      zoneCount, historyCount, historyNext := b.zones.count, b.trail.count, b.trail.next;
      journalCount, journalNext := b.log.count, b.log.next;
      forall i | 0 <= i < ZONES { zones[i] := b.zones.slots[i]; }
      forall i | 0 <= i < HISTORY { history[i] := b.trail.slots[i]; }
      forall i | 0 <= i < JOURNAL { journal[i] := b.log.slots[i]; }
      assert zones[..] == b.zones.slots && history[..] == b.trail.slots && journal[..] == b.log.slots;
    }

    static lemma ValidFits(s: Snapshot)
      requires Valid(s)
      ensures |s.body.zones.slots| == ZONES && |s.body.trail.slots| == HISTORY && |s.body.log.slots| == JOURNAL
    {
    }

    /** `restore`. */
    method RestoreFrom(saved: Snapshot) returns (status: RestoreStatus)
      requires Shape()
      modifies this, zones, history, journal
      ensures Shape() && (Now(), status) == Restore(old(Now()), saved)
    {
      hide Valid;
      if saved.body.header.magic != HEADER.magic { return BadMagic; }
      if saved.body.header.schema != HEADER.schema || saved.body.header.bytes != HEADER.bytes { return UnsupportedSchema; }
      if !Valid(saved) { return RestoreInvalid; }
      ValidFits(saved);
      Adopt(saved.body);
      checksum := saved.checksum;
      status := Restored;
    }

    /** The first adjustments of `recalculateTarget`, one at a time. */
    method RouteAdjustments() returns (percent: int)
      ensures percent == RoutePercent(route.terrain, route.objective, route.risk, route.personality)
    {
      percent := 100;
      if route.terrain == FOREST || route.terrain == WATERFRONT { percent := percent + 10; }
      else if route.terrain == RIDGE { percent := percent + 20; }
      else if route.terrain == TOWN { percent := percent - 10; }
      if route.objective == FOLLOW_SIGNAL { percent := percent + 5; }
      if route.objective == MEET_CREATURE { percent := percent + 10; }
      if route.objective == COMMUNITY { percent := percent - 10; }
      if route.objective == RETURN_HOME { percent := percent - 20; }
      if route.risk == CAREFUL { percent := percent - 10; }
      if route.risk == BOLD { percent := percent + 15; }
      if (route.personality == GENTLE && route.risk == CAREFUL) || (route.personality == BOLD_HEART && route.risk == BOLD)
         || (route.personality == CURIOUS && (route.objective == EXPLORE || route.objective == FOLLOW_SIGNAL))
         || (route.personality == PLAYFUL && route.objective == COMMUNITY) { percent := percent - 5; }
    }

    /** The rest of them: home, company, commute and community day, then the clamp. */
    method TargetPercent() returns (percent: int)
      ensures percent == Percent(route.terrain, route.objective, route.risk, route.personality, route.party, AtHome(place),
                                 route.commuteSafe, route.communityDay)
    {
      hide RoutePercent;
      percent := RouteAdjustments();
      if place.home != 0 && place.home == place.current { percent := percent - 15; }
      if route.party == 2 { percent := percent - 10; }
      if route.party == 3 { percent := percent - 15; }
      if route.party == 4 { percent := percent - 25; }
      if route.commuteSafe { percent := percent - 15; }
      if route.communityDay { percent := percent - 5; }
      if percent < 50 { percent := 50; }
      if percent > 180 { percent := 180; }
    }

    method RecalculateTarget()
      modifies this`route
      ensures Body() == Retarget(old(Body()))
    {
      hide Percent;
      if route.phase == IDLE || route.base == 0 {
        route := route.(target := 0);
        return;
      }
      var percent := TargetPercent();
      var target: int := route.base * percent / 100;
      if target < 100 { target := 100; }
      if target > 100_000 { target := 100_000; }
      route := route.(target := target);
    }

    method SetPrivacyMode(mode: byte, salt: u32) returns (status: Status)
      requires Shape()
      modifies this, zones
      ensures Shape() && (Now(), status) == Perform(mix, old(Now()), PrivacyMode(mode, salt))
    {
      hide BodyValid, Target;
      if !Valid(Now()) { return InvalidState; }
      if mode >= 3 { return InvalidArgument; }
      if mode == PRECISE_TRANSIENT && salt == 0 { return InvalidArgument; }
      var kept := salt;
      if mode != PRECISE_TRANSIENT { kept := 0; }
      if place.privacy == mode && place.salt == kept { return NoChange; }
      place := Place(mode, 0, 0, kept, 0, false);
      route := route.(distance := 0);
      zoneCount := 0;
      forall i | 0 <= i < ZONES { zones[i] := NO_ZONE; }
      assert zones[..] == NO_ZONES.slots;
      assert Body() == old(Body()).(place := place, zones := NO_ZONES, route := route);
      RecalculateTarget();
      RefreshCrc();
      status := Ok;
    }

    method SetHomeZone(token: u32) returns (status: Status)
      requires Shape()
      modifies this
      ensures Shape() && (Now(), status) == Perform(mix, old(Now()), HomeZone(token))
    {
      hide BodyValid, Target;
      if !Valid(Now()) { return InvalidState; }
      if place.privacy == PRIVACY_OFF { return PrivacyDisabled; }
      if token == 0 { return InvalidArgument; }
      if place.home == token { return NoChange; }
      place := place.(home := token);
      RecalculateTarget();
      RefreshCrc();
      status := Ok;
    }

    method FindLeastVisited() returns (slot: nat)
      requires Shape()
      ensures slot == LeastVisited(zones[..], ZONES)
    {
      slot := 0;
      var i: nat := 1;
      while i < ZONES
        invariant 1 <= i <= ZONES && slot == LeastVisited(zones[..], i)
      {
        if zones[i].visits < zones[slot].visits { slot := i; }
        i := i + 1;
      }
    }

    /** The search for a zone's slot: its own, else a free one, else the first of those visited least. */
    method FindSlot(token: u32) returns (slot: nat, isNew: bool)
      requires Shape() && zoneCount <= ZONES
      ensures slot < ZONES && slot == ZoneSlot(Body().zones, token) && isNew == !Stored(Body().zones, token)
    {
      var i: nat := 0;
      while i < zoneCount && zones[i].token != token
        invariant i <= zoneCount && forall k :: 0 <= k < i ==> zones[k].token != token
        invariant FindZone(zones[..], zoneCount, token, 0) == FindZone(zones[..], zoneCount, token, i)
      {
        i := i + 1;
      }
      if i < zoneCount {
        assert zones[..][i].token == token;
        return i, false;
      }
      if zoneCount < ZONES { return zoneCount, true; }
      slot := FindLeastVisited();
      isNew := true;
    }

    /** `observeZoneToken`. */
    method ObserveZoneToken(token: u32, steps: u32, meters: u32) returns (status: Status)
      requires Shape() && zoneCount <= ZONES && checksum == Body()
      modifies this, zones
      ensures Shape() && (Body(), status) == Observe(old(Body()), token, steps, meters) && checksum == Body()
    {
      hide ZoneSlot, Stored, Target;
      if steps > STEP_DELTA_MAX || meters > SEGMENT_MAX { return InvalidArgument; }
      var slot, isNew := FindSlot(token);
      if isNew {
        if zoneCount < ZONES { zoneCount := zoneCount + 1; }
        zones[slot] := Zone(token, 0, 0);
      }
      var zone := zones[slot];
      assert zone.token == token;
      zones[slot] := Zone(zone.token, Sat16(zone.visits, 1), Sat16(zone.decameters, Decameters(meters)));
      assert zones[..] == Visit(old(Body()).zones, token, meters).slots;
      place := place.(current := token, zoneNew := isNew, total := Sat32(place.total, meters));
      if route.phase == ACTIVE {
        route := route.(steps := Sat32(route.steps, steps), distance := Sat32(route.distance, meters));
        RecalculateTarget();
      }
      RefreshCrc();
      status := Ok;
    }

    method ObserveCoarseZone(token: u32, steps: u32, meters: u32) returns (status: Status)
      requires Shape()
      modifies this, zones
      ensures Shape() && (Now(), status) == Perform(mix, old(Now()), CoarseZone(token, steps, meters))
    {
      hide TrailValid, LogValid, RouteValid, PlaceValid, Observe;
      if !Valid(Now()) { return InvalidState; }
      if place.privacy == PRIVACY_OFF { return PrivacyDisabled; }
      if place.privacy != COARSE { return PrivacyModeMismatch; }
      if token == 0 { return InvalidArgument; }
      status := ObserveZoneToken(token, steps, meters);
    }

    method ObservePreciseTransient(sample: Sample, steps: u32, meters: u32) returns (status: Status)
      requires Shape()
      modifies this, zones
      ensures Shape() && (Now(), status) == Perform(mix, old(Now()), PreciseZone(sample, steps, meters))
    {
      hide TrailValid, LogValid, RouteValid, PlaceValid, Observe, ZoneToken;
      if !Valid(Now()) { return InvalidState; }
      if place.privacy == PRIVACY_OFF { return PrivacyDisabled; }
      if place.privacy != PRECISE_TRANSIENT { return PrivacyModeMismatch; }
      if !SampleValid(sample) { return InvalidArgument; }
      status := ObserveZoneToken(ZoneToken(mix, sample, place.salt), steps, meters);
    }

    method MeetHotspot(token: u32, people: byte, now: Clock) returns (status: Status)
      requires Shape()
      modifies this
      ensures Shape() && (Now(), status) == Perform(mix, old(Now()), Hotspot(token, people, now))
    {
      hide BodyValid, ClockValid;
      if !Valid(Now()) { return InvalidState; }
      if !ClockValid(now) { return InvalidClock; }
      if token == 0 || people < 2 || people > 4 { return InvalidArgument; }
      if now.trusted != 0 && marks.hotspot == token && marks.hotspotDay == now.dayId { return Duplicate; }
      marks := marks.(visits := Sat16(marks.visits, 1), hotspot := token, hotspotDay := if now.trusted != 0 then now.dayId else 0);
      if CommunityDay(now) && marks.bonusDay != now.dayId {
        marks := marks.(bonusDay := now.dayId, bonuses := Sat16(marks.bonuses, 1));
        if route.phase == ACTIVE { route := route.(progress := Sat16(route.progress, people)); }
      }
      RefreshCrc();
      status := Ok;
    }

    /** `historyContains`. */
    method HistoryContains(signature: u16) returns (found: bool)
      requires Shape() && historyCount <= HISTORY
      ensures found <==> InTrail(Body().trail, signature)
    {
      var i: nat := 0;
      while i < historyCount
        invariant i <= historyCount && forall k :: 0 <= k < i ==> history[k] != signature
      {
        if history[i] == signature {
          assert history[..][i] == signature;
          return true;
        }
        i := i + 1;
      }
      found := false;
    }

    /** `appendHistory`. */
    method AppendHistory(signature: u16)
      requires Shape() && historyCount <= HISTORY && historyNext < HISTORY
      modifies this`historyCount, this`historyNext, history
      ensures Body() == old(Body()).(trail := Push(old(Body()).trail, signature))
    {
      history[historyNext] := signature;
      if historyCount < HISTORY { historyCount := historyCount + 1; }
      historyNext := (historyNext + 1) % HISTORY;
    }

    /** The variant search of `begin`. */
    method PickVariant(terrain: byte, objective: byte, first: byte) returns (variant: byte)
      requires Shape() && historyCount <= HISTORY && terrain < 5 && objective < 5 && first < VARIANTS
      ensures variant == Choose(Body().trail, terrain, objective, first, VARIANTS)
    {
      hide InTrail, Signature;
      variant := first;
      var attempt: nat := 0;
      while attempt < VARIANTS
        invariant attempt <= VARIANTS && variant < VARIANTS
        invariant Choose(Body().trail, terrain, objective, first, VARIANTS)
          == Choose(Body().trail, terrain, objective, variant, VARIANTS - attempt)
      {
        var walked := HistoryContains(Signature(terrain, objective, variant));
        if !walked { break; }
        variant := (variant + 1) % VARIANTS;
        attempt := attempt + 1;
      }
    }

    /** The new route: its seed, variant and identifier, then every route field. */
    method SetOut(q: Request, now: Clock, entropy: u32)
      requires Shape() && historyCount <= HISTORY && historyNext < HISTORY && RequestValid(q) && marks.sequence < 0xFFFF_FFFF
      modifies this`route, this`marks, this`historyCount, this`historyNext, history
      ensures var p := old(Body()); var route := NewRoute(mix, p, q, now, entropy); var key := ChainKey(mix, q);
        Body() == Retarget(p.(route := route, trail := Push(p.trail, Signature(q.terrain, q.objective, route.variant)),
                              marks := p.marks.(sequence := p.marks.sequence + 1, chainKey := key,
                                                chainDepth := NextDepth(p.marks, key), chainEligible := false)))
    {
      hide Choose, Seed, ChainKey, Target, Push, NonZero, Signature, TimeBand, Moon, NextDepth, CommunityDay;
      var sequence := marks.sequence + 1;
      var key := ChainKey(mix, q);
      var depth := NextDepth(marks, key);
      var seed := Seed(mix, Body(), q, now, entropy);
      var variant := PickVariant(q.terrain, q.objective, seed % VARIANTS);
      var signature := Signature(q.terrain, q.objective, variant);
      var id := NonZero(mix([seed, sequence, signature]), 1);
      ghost var p := Body();
      route := Route(ACTIVE, NO_OUTCOME, q.terrain, q.objective, q.risk, q.personality, q.weather, TimeBand(now), Moon(now), 0, 0,
                     0, variant, 0, 0, id, seed, q.base, route.target, 0, 0, q.commuteSafe != 0, false, now.trusted != 0,
                     CommunityDay(now));
      assert route == NewRoute(mix, p, q, now, entropy);
      marks := marks.(sequence := sequence, chainKey := key, chainDepth := depth, chainEligible := false);
      AppendHistory(signature);
      RecalculateTarget();
    }

    /** `begin`. */
    method BeginRoute(q: Request, now: Clock, entropy: u32) returns (status: Status)
      requires Shape()
      modifies this, history
      ensures Shape() && (Now(), status) == Perform(mix, old(Now()), Start(q, now, entropy))
    {
      hide BodyValid, ClockValid, RequestValid, NewRoute, Choose, ChainKey, Retarget, Push, Signature, NextDepth;
      if !Valid(Now()) { return InvalidState; }
      if route.phase != IDLE { return Busy; }
      if !RequestValid(q) { return InvalidArgument; }
      if !ClockValid(now) { return InvalidClock; }
      if q.commuteSafe != 0 && q.risk != CAREFUL { return CommuteRestricted; }
      if marks.sequence == 0xFFFF_FFFF { return InvalidState; }
      RingsFit();
      SetOut(q, now, entropy);
      RefreshCrc();
      status := Ok;
    }

    lemma RingsFit()
      requires Valid(Now())
      ensures historyCount <= HISTORY && historyNext < HISTORY && journalCount <= JOURNAL && journalNext < JOURNAL
      ensures zoneCount <= ZONES
    {
    }

    method Steps(delta: u32) returns (status: Status)
      requires Shape()
      modifies this
      ensures Shape() && (Now(), status) == Perform(mix, old(Now()), Walk(delta))
    {
      hide BodyValid;
      if !Valid(Now()) { return InvalidState; }
      if route.phase != ACTIVE { return WrongPhase; }
      if delta > STEP_DELTA_MAX { return InvalidArgument; }
      if delta == 0 { return NoChange; }
      route := route.(steps := Sat32(route.steps, delta));
      RefreshCrc();
      status := Ok;
    }

    /** What one decision costs and earns. */
    method CountDecision(decision: byte)
      requires decision < 4 && route.decisions < DECISIONS
      modifies this`route
      ensures route == Decided(old(route), decision)
    {
      hide Sat16;
      route := route.(decisions := route.decisions + 1, branch := (route.branch * 5 + decision + 1) % 251);
      if decision == CONTINUE {
        route := route.(progress := Sat16(route.progress, 5));
      } else if decision == DETOUR {
        route := route.(progress := Sat16(route.progress, 10));
        route := route.(riskPoints := Sat16(route.riskPoints, 5 * (route.risk + 1)));
      } else if decision == HELP {
        route := route.(progress := Sat16(route.progress, 8));
      } else {
        route := route.(earlyReturn := true);
      }
    }

    method TakeDecision(decision: byte) returns (status: Status)
      requires Shape()
      modifies this
      ensures Shape() && (Now(), status) == Perform(mix, old(Now()), Choice(decision))
    {
      hide BodyValid, Decided;
      if !Valid(Now()) { return InvalidState; }
      if route.phase != ACTIVE || route.earlyReturn { return WrongPhase; }
      if decision >= 4 { return InvalidArgument; }
      if route.decisions >= DECISIONS { return DecisionLimit; }
      if route.commuteSafe && decision == DETOUR { return CommuteRestricted; }
      CountDecision(decision);
      RefreshCrc();
      status := Ok;
    }

    method CompleteExpedition(e: Expedition) returns (status: Status)
      requires Shape()
      modifies this
      ensures Shape() && (Now(), status) == Perform(mix, old(Now()), ExpeditionDone(e))
    {
      hide BodyValid, Sat16;
      if !Valid(Now()) { return InvalidState; }
      if route.phase != ACTIVE { return WrongPhase; }
      if e.id == 0 { return InvalidArgument; }
      if e.id == marks.expedition { return Duplicate; }
      marks := marks.(expedition := e.id);
      var points: nat := 4;
      if e.affection > 0 { points := points + e.affection; }
      if e.encounter { points := points + 5; }
      route := route.(progress := Sat16(route.progress, points));
      RefreshCrc();
      status := Ok;
    }

    method CompleteParty(h: Hunt) returns (status: Status)
      requires Shape()
      modifies this
      ensures Shape() && (Now(), status) == Perform(mix, old(Now()), PartyDone(h))
    {
      hide BodyValid, Sat16, HuntValid, Target;
      if !Valid(Now()) { return InvalidState; }
      if route.phase != ACTIVE && route.phase != AWAITING_RESCUE { return WrongPhase; }
      if !HuntValid(h) { return InvalidArgument; }
      if marks.partyProof == h.proof { return Duplicate; }
      marks := marks.(partyProof := h.proof);
      route := route.(party := h.people);
      route := route.(progress := Sat16(route.progress, 2 * h.people));
      RecalculateTarget();
      RefreshCrc();
      status := Ok;
    }

    method CompleteEncounter(e: Encounter) returns (status: Status)
      requires Shape()
      modifies this
      ensures Shape() && (Now(), status) == Perform(mix, old(Now()), EncounterDone(e))
    {
      hide BodyValid, EncounterValid;
      if !Valid(Now()) { return InvalidState; }
      if route.phase != ACTIVE { return WrongPhase; }
      if !EncounterValid(e) { return InvalidArgument; }
      if e.operation == marks.encounter { return Duplicate; }
      if e.operation < marks.encounter { return InvalidArgument; }
      marks := marks.(encounter := e.operation);
      if e.occurred != 0 {
        var points: nat := if route.objective == MEET_CREATURE then 12 else 7;
        route := route.(progress := Sat16(route.progress, points));
      }
      RefreshCrc();
      status := Ok;
    }

    method AppendJournal(now: Clock)
      requires Shape() && journalCount <= JOURNAL && journalNext < JOURNAL
      modifies this`journalCount, this`journalNext, journal
      ensures Body() == old(Body()).(log := Push(old(Body()).log, JournalEntry(old(Body()), now)))
    {
      hide Postcard;
      var entry := NO_ENTRY.(routeId := route.id, dayId := if now.trusted != 0 then now.dayId else 0, zone := place.current);
      entry := entry.(outcome := route.outcome, terrain := route.terrain, objective := route.objective, postcard := Postcard(route));
      entry := entry.(party := route.party, chainDepth := marks.chainDepth, variant := route.variant);
      if now.trusted != 0 { entry := entry.(trustedTime := true); }
      if route.communityDay { entry := entry.(communityDay := true); }
      if place.home != 0 && place.home == place.current { entry := entry.(homeComfort := true); }
      if route.commuteSafe { entry := entry.(commuteSafe := true); }
      journal[journalNext] := entry;
      if journalCount < JOURNAL { journalCount := journalCount + 1; }
      journalNext := (journalNext + 1) % JOURNAL;
    }

    /** `finalize`. */
    method FinalizeAs(outcome: byte, now: Clock)
      requires Shape() && journalCount <= JOURNAL && journalNext < JOURNAL
      modifies this`route, this`marks, this`journalCount, this`journalNext, this`checksum, journal
      ensures Body() == Finalize(old(Body()), outcome, now) && checksum == Body()
    {
      hide Push, JournalEntry;
      route := route.(outcome := outcome);
      route := route.(phase := RETURNED);
      marks := marks.(chainEligible := outcome == COMPLETE || outcome == RESCUED);
      AppendJournal(now);
      RefreshCrc();
    }

    method FinishRoute(now: Clock) returns (status: Status)
      requires Shape()
      modifies this, journal
      ensures Shape() && (Now(), status) == Perform(mix, old(Now()), End(now))
    {
      hide BodyValid, ClockValid, ProgressPercent, Finalize;
      if !Valid(Now()) { return InvalidState; }
      RingsFit();
      if !ClockValid(now) { return InvalidClock; }
      if route.phase != ACTIVE { return WrongPhase; }
      if route.earlyReturn {
        FinalizeAs(EARLY_RETURN, now);
        return Ok;
      }
      var progress := ProgressPercent(route);
      if progress >= 100 {
        FinalizeAs(COMPLETE, now);
        return Ok;
      }
      if route.risk == BOLD && progress < 40 {
        route := route.(phase := AWAITING_RESCUE);
        RefreshCrc();
        return RescueRequired;
      }
      FinalizeAs(PARTIAL, now);
      status := Ok;
    }

    method RescueRoute(h: Hunt, now: Clock) returns (status: Status)
      requires Shape()
      modifies this, journal
      ensures Shape() && (Now(), status) == Perform(mix, old(Now()), RescueDone(h, now))
    {
      hide BodyValid, ClockValid, HuntValid, Sat16, Finalize, Target;
      if !Valid(Now()) { return InvalidState; }
      RingsFit();
      if !ClockValid(now) { return InvalidClock; }
      if route.phase != AWAITING_RESCUE { return WrongPhase; }
      if !HuntValid(h) { return InvalidArgument; }
      marks := marks.(partyProof := h.proof);
      route := route.(party := h.people);
      route := route.(progress := Sat16(route.progress, 20));
      RecalculateTarget();
      FinalizeAs(RESCUED, now);
      status := Ok;
    }

    method AcknowledgeRoute(routeId: u32) returns (status: Status)
      requires Shape()
      modifies this
      ensures Shape() && (Now(), status) == Perform(mix, old(Now()), Acknowledged(routeId))
    {
      hide BodyValid;
      if !Valid(Now()) { return InvalidState; }
      if route.phase != RETURNED { return WrongPhase; }
      if routeId == 0 || routeId != route.id { return WrongRoute; }
      route := NO_ROUTE;
      RefreshCrc();
      status := Ok;
    }

    /** `journalNewest`. */
    method JournalNewest(newest: nat) returns (entry: Option<Entry>)
      requires Shape() && journalCount <= JOURNAL && journalNext < JOURNAL
      ensures entry == if newest < journalCount then Some(Listed(Body().log)[newest]) else None
    {
      if newest >= journalCount { return None; }
      entry := Some(journal[(journalNext + JOURNAL - 1 - newest) % JOURNAL]);
    }
  }
}
