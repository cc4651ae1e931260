/** Session and controller store together: every controller record, also one that landed although its commit was reported
    failed, goes back to a physical confirmation of its own. */
module PairingRecords {
  import opened Bytes
  import S = Session
  import P = SessionProofs
  import D = DeviceSecurity
  import R = DeviceSecurityProofs

  // ----- what a session asks the store for -----

  /** A commit the session asks for: the confirmation it uses, and the root it would store. */
  datatype Asking = Asking(stored: S.Stored, root: seq<byte>)

  predicate AsksNow(w: S.World, s: S.State, json: seq<byte>) {
    var c := w.parse(json);
    json != [] && s.r.secure && s.r.phase == S.PairingCommit && c.Commit? && S.CommitVerified(w, s.r.pending, c.version, c.proof)
    && (s.r.pending.id in s.controllers || |s.controllers| < S.CONTROLLERS)
  }

  /** The commit an event hands to the store, whatever the store answers. */
  function Asked(w: S.World, s: S.State, e: S.Event): Option<Asking> {
    if e.Frame? && AsksNow(w, s, e.json)
    then Some(Asking(S.Stored(|s.a.grants| - 1, s.a.link, s.r.pending.role.value, s.r.pending.id), s.r.pending.root))
    else None
  }

  function Asks(w: S.World, accepted: seq<byte>, rejected: seq<byte>, s: S.State, events: seq<S.Event>): seq<Asking>
    decreases |events|
  {
    if events == [] then []
    else
      var n := |events| - 1;
      var asked := Asked(w, S.Run(w, accepted, rejected, s, events[..n]), events[n]);
      Asks(w, accepted, rejected, s, events[..n]) + if asked.Some? then [asked.value] else []
  }

  // ----- confirmations -----

  /** A step keeps the confirmations and leaves at most the pairing that awaited its commit, if it asked for none; or it adds one
      confirmation. */
  ghost predicate GrantsKept(s: S.State, t: S.State, asked: bool) {
    (t.a.grants == s.a.grants && (t.r.phase == S.PairingCommit ==> s.r.phase == S.PairingCommit && !asked))
    || (|t.a.grants| == |s.a.grants| + 1 && t.a.grants[..|s.a.grants|] == s.a.grants && !asked)
  }

  lemma ConfirmGrants(w: S.World, s: S.State, now: u32)
    ensures GrantsKept(s, S.Confirm(w, s, now).0, false)
  {
    hide S.Answer, S.FreshId;
  }

  lemma SendGrants(w: S.World, s: S.State, channel: nat, requestId: seq<byte>, operation: seq<byte>, payload: seq<byte>)
    requires channel <= 2
    ensures var t := S.SendEnvelope(w, s, channel, requestId, operation, payload).0;
      t.a.grants == s.a.grants && t.r.phase == s.r.phase
  {
    hide S.Answer, P.EnvelopeCodec.Encode;
  }

  lemma EnvelopeGrants(w: S.World, s: S.State, json: seq<byte>, accepted: seq<byte>, rejected: seq<byte>, now: u32)
    requires s.r.phase == S.Authenticated
    ensures var t := S.HandleEnvelope(w, s, json, accepted, rejected, now).0;
      t.a.grants == s.a.grants && t.r.phase != S.PairingCommit
  {
    hide S.SendEnvelope, S.Accepted, S.RevokeSelf;
    forall u: S.State, requestId: seq<byte>, operation: seq<byte>, payload: seq<byte>
      ensures var t := S.SendEnvelope(w, u, S.RESPONSE, requestId, operation, payload).0; t.a.grants == u.a.grants && t.r.phase == u.r.phase
    {
      SendGrants(w, u, S.RESPONSE, requestId, operation, payload);
    }
    forall u: S.State, wanted: bool ensures var t := S.RevokeSelf(u, wanted).0; t.a == u.a && t.r == u.r { RevokeSame(u, wanted); }
  }

  lemma RevokeSame(s: S.State, wanted: bool)
    ensures var t := S.RevokeSelf(s, wanted).0; t.a == s.a && t.r == s.r
  {
    hide S.Answer;
  }

  lemma DispatchGrants(w: S.World, s: S.State, json: seq<byte>, accepted: seq<byte>, rejected: seq<byte>, now: u32)
    requires json != [] && s.r.secure
    ensures var (t, handled) := S.Dispatch(w, s, json, accepted, rejected, now);
      t.a.grants == s.a.grants
      && (t.r.phase == S.PairingCommit && handled ==> s.r.phase == S.PairingCommit && !AsksNow(w, s, json))
  {
    hide S.HandleEnvelope, S.Answer, S.AuthAccepted, S.CommitVerified;
    if s.r.phase == S.Authenticated { EnvelopeGrants(w, s, json, accepted, rejected, now); }
  }

  lemma FrameGrants(w: S.World, s: S.State, json: seq<byte>, accepted: seq<byte>, rejected: seq<byte>, now: u32)
    ensures GrantsKept(s, S.OnFrame(w, s, json, accepted, rejected, now), AsksNow(w, s, json))
  {
    hide S.Dispatch, S.Answer, AsksNow;
    NoFrameAsks(w, s, json);
    if json != [] && s.r.secure { DispatchGrants(w, s, json, accepted, rejected, now); }
  }

  lemma NoFrameAsks(w: S.World, s: S.State, json: seq<byte>)
    ensures AsksNow(w, s, json) ==> json != [] && s.r.secure && s.r.phase == S.PairingCommit
  {
  }

  lemma StepGrants(w: S.World, accepted: seq<byte>, rejected: seq<byte>, s: S.State, e: S.Event)
    ensures GrantsKept(s, S.Step(w, accepted, rejected, s, e), Asked(w, s, e).Some?)
  {
    hide S.OnFrame, S.Confirm, S.SendEnvelope, S.Answer, AsksNow;
    match e
    case Frame(json, now) => FrameGrants(w, s, json, accepted, rejected, now);
    case Confirmed(now) => ConfirmGrants(w, s, now);
    case Emit(operation, payload) =>
      forall u: S.State, requestId: seq<byte>
        ensures var t := S.SendEnvelope(w, u, S.EVENT, requestId, operation, payload).0; t.a.grants == u.a.grants && t.r.phase == u.r.phase
      {
        SendGrants(w, u, S.EVENT, requestId, operation, payload);
      }
    case _ =>
  }

  /** Every commit asked for names a confirmation of its own, given on its link for its role and id; one that awaits its commit
      frame has not been used. */
  ghost predicate Traced(s: S.State, asks: seq<Asking>) {
    && (forall k :: 0 <= k < |asks| ==> P.Backed(s.a, asks[k].stored))
    && (forall j, k :: 0 <= j < k < |asks| ==> asks[j].stored.confirmation < asks[k].stored.confirmation)
    && (s.r.phase == S.PairingCommit ==> forall k :: 0 <= k < |asks| ==> asks[k].stored.confirmation < |s.a.grants| - 1)
  }

  lemma StepTraced(w: S.World, accepted: seq<byte>, rejected: seq<byte>, s: S.State, e: S.Event, asks: seq<Asking>)
    requires P.Inv(s) && Traced(s, asks)
    ensures var asked := Asked(w, s, e);
      Traced(S.Step(w, accepted, rejected, s, e), asks + if asked.Some? then [asked.value] else [])
  {
    hide S.Step, S.CommitVerified, P.AllBacked, P.AllNumbered, P.TrafficTrue;
    StepGrants(w, accepted, rejected, s, e);
    var t, asked := S.Step(w, accepted, rejected, s, e), Asked(w, s, e);
    forall k | 0 <= k < |asks| ensures P.Backed(t.a, asks[k].stored) {
      assert P.Backed(s.a, asks[k].stored);
      var g := asks[k].stored.confirmation;
      assert t.a.grants[g] == t.a.grants[..|s.a.grants|][g];
    }
    if asked.Some? { assert P.Backed(s.a, asked.value.stored); }
  }

  lemma {:induction false} RunTraced(w: S.World, accepted: seq<byte>, rejected: seq<byte>, s: S.State, events: seq<S.Event>)
    requires P.Inv(s)
    ensures P.Inv(S.Run(w, accepted, rejected, s, events))
    ensures Traced(S.Run(w, accepted, rejected, s, events), Asks(w, accepted, rejected, s, events))
    decreases |events|
  {
    hide S.Step, P.Inv, Traced, Asked;
    if events == [] {
      NothingTraced(s);
    } else {
      var n := |events| - 1;
      RunTraced(w, accepted, rejected, s, events[..n]);
      var u := S.Run(w, accepted, rejected, s, events[..n]);
      StepTraced(w, accepted, rejected, u, events[n], Asks(w, accepted, rejected, s, events[..n]));
      P.StepKeeps(w, accepted, rejected, u, events[n]);
    }
  }

  lemma NothingTraced(s: S.State)
    ensures Traced(s, [])
  {
  }

  /** In every trace each commit the store was asked for, stored or not, used up a physical confirmation of its own. */
  lemma AsksAreConfirmed(w: S.World, accepted: seq<byte>, rejected: seq<byte>, s: S.State, events: seq<S.Event>, j: nat, k: nat)
    requires S.Begun(s) && j <= k < |Asks(w, accepted, rejected, s, events)|
    ensures var a := S.Run(w, accepted, rejected, s, events).a; var asks := Asks(w, accepted, rejected, s, events);
      var c := asks[k].stored;
      && 0 <= c.confirmation < |a.grants| && (j < k ==> asks[j].stored.confirmation < c.confirmation)
      && a.grants[c.confirmation] == S.Grant(c.link, c.role, c.id)
  {
    hide S.Run, Asks, P.Inv;
    P.BegunIsTrue(s);
    RunTraced(w, accepted, rejected, s, events);
  }

  // ----- what the store keeps -----

  function Stores(role: S.Role): D.Role {
    if role == S.Owner then D.Owner else D.Caretaker
  }

  /** Pairings reach the store only as commits of a session. */
  ghost predicate FromSession(events: seq<D.Event>, asks: seq<Asking>) {
    forall k :: 0 <= k < |events| && events[k].Pair? && events[k].role.Some? ==>
      AskedFor(D.Controller(true, events[k].role.value, events[k].id, events[k].root), asks)
  }

  ghost predicate AskedFor(entry: D.Controller, asks: seq<Asking>) {
    exists k :: 0 <= k < |asks| && asks[k].stored.id == entry.id && asks[k].root == entry.root && Stores(asks[k].stored.role) == entry.role
  }

  ghost predicate AllAsked(t: R.Table, asks: seq<Asking>) {
    forall i :: 0 <= i < |t| && t[i].valid ==> AskedFor(t[i], asks)
  }

  lemma IntendedAsked(t: R.Table, e: D.Event, asks: seq<Asking>)
    requires |t| == D.CONTROLLERS && AllAsked(t, asks) && FromSession([e], asks)
    ensures AllAsked(R.Intended(t, e), asks) && AllAsked(D.NO_CONTROLLERS, asks)
  {
    hide AskedFor, D.Find, D.Place;
    assert [e][0] == e;
  }

  lemma {:induction false} StoredAreAsked(s: D.State, events: seq<D.Event>, asks: seq<Asking>)
    requires D.Shape(s) && R.Everywhere(s, t => AllAsked(t, asks)) && FromSession(events, asks)
    ensures R.Everywhere(R.Run(s, events), t => AllAsked(t, asks))
    decreases |events|
  {
    hide D.Step, AskedFor, R.Intended;
    if events != [] {
      var n := |events| - 1;
      StoredAreAsked(s, events[..n], asks);
      var u := R.Run(s, events[..n]);
      assert AllAsked(u.r.material.controllers, asks);
      assert FromSession([events[n]], asks) by { assert [events[n]][0] == events[n]; }
      IntendedAsked(u.r.material.controllers, events[n], asks);
      R.StepEverywhere(u, events[n], t => AllAsked(t, asks));
    }
  }

  lemma BlankAsked(d: D.Device, asks: seq<Asking>)
    requires d.slots == [D.Empty, D.Empty]
    ensures R.Everywhere(D.State(d, D.NO_RAM), t => AllAsked(t, asks))
  {
  }

  /** One boot: a begun session object and its events. */
  datatype Boot = Boot(start: S.State, events: seq<S.Event>)

  ghost predicate AllBegun(boots: seq<Boot>) {
    forall b :: 0 <= b < |boots| ==> S.Begun(boots[b].start)
  }

  /** The commits of all boots, in order. */
  function AllAsks(w: S.World, accepted: seq<byte>, rejected: seq<byte>, boots: seq<Boot>): seq<Asking> {
    if boots == [] then []
    else
      var last := boots[|boots| - 1];
      AllAsks(w, accepted, rejected, boots[..|boots| - 1]) + Asks(w, accepted, rejected, last.start, last.events)
  }

  /** In one of the boots the user confirmed a pairing for this id and role. */
  ghost predicate Confirmed(w: S.World, accepted: seq<byte>, rejected: seq<byte>, boots: seq<Boot>, id: seq<byte>, role: D.Role) {
    exists b, k :: 0 <= b < |boots| && GrantAt(S.Run(w, accepted, rejected, boots[b].start, boots[b].events).a, k, id, role)
  }

  ghost predicate GrantAt(a: S.Audit, k: nat, id: seq<byte>, role: D.Role) {
    k < |a.grants| && a.grants[k].id == id && Stores(a.grants[k].role) == role
  }

  lemma {:induction false} AllConfirmed(w: S.World, accepted: seq<byte>, rejected: seq<byte>, boots: seq<Boot>, k: nat)
    requires AllBegun(boots) && k < |AllAsks(w, accepted, rejected, boots)|
    ensures var c := AllAsks(w, accepted, rejected, boots)[k].stored; Confirmed(w, accepted, rejected, boots, c.id, Stores(c.role))
  {
    hide S.Run, Asks, P.Inv, GrantAt;
    var n := |boots| - 1;
    var before, last := AllAsks(w, accepted, rejected, boots[..n]), boots[n];
    var c := AllAsks(w, accepted, rejected, boots)[k].stored;
    if k < |before| {
      AllConfirmed(w, accepted, rejected, boots[..n], k);
      var b, g :| 0 <= b < n && GrantAt(S.Run(w, accepted, rejected, boots[..n][b].start, boots[..n][b].events).a, g, c.id, Stores(c.role));
      assert boots[..n][b] == boots[b];
    } else {
      AskedIsGranted(w, accepted, rejected, last, k - |before|);
    }
  }

  lemma AskedIsGranted(w: S.World, accepted: seq<byte>, rejected: seq<byte>, boot: Boot, k: nat)
    requires S.Begun(boot.start) && k < |Asks(w, accepted, rejected, boot.start, boot.events)|
    ensures var c := Asks(w, accepted, rejected, boot.start, boot.events)[k].stored;
      c.confirmation >= 0
      && GrantAt(S.Run(w, accepted, rejected, boot.start, boot.events).a, c.confirmation, c.id, Stores(c.role))
  {
    hide S.Run, Asks;
    AsksAreConfirmed(w, accepted, rejected, boot.start, boot.events, k, k);
  }

  /** The two together.  From a blank store on, through any number of boots, failed writes that landed, power cuts, resets and
      lost slots: every controller in RAM or in either slot goes back to a confirmation for its id and role. */
  lemma ControllersAreConfirmed(w: S.World, accepted: seq<byte>, rejected: seq<byte>, boots: seq<Boot>, d: D.Device,
                                events: seq<D.Event>, i: nat)
    requires AllBegun(boots) && d.slots == [D.Empty, D.Empty] && FromSession(events, AllAsks(w, accepted, rejected, boots))
    ensures R.Everywhere(R.Run(D.State(d, D.NO_RAM), events), (t: R.Table) =>
      i < |t| && t[i].valid ==> Confirmed(w, accepted, rejected, boots, t[i].id, t[i].role))
  {
    hide S.Run, R.Run, AllAsks, FromSession, Confirmed;
    var asks := AllAsks(w, accepted, rejected, boots);
    BlankAsked(d, asks);
    StoredAreAsked(D.State(d, D.NO_RAM), events, asks);
    forall t: R.Table | AllAsked(t, asks) && i < |t| && t[i].valid ensures Confirmed(w, accepted, rejected, boots, t[i].id, t[i].role) {
      var k :| 0 <= k < |asks| && asks[k].stored.id == t[i].id && asks[k].root == t[i].root && Stores(asks[k].stored.role) == t[i].role;
      AllConfirmed(w, accepted, rejected, boots, k);
    }
  }
}
