/** What every trace of the session keeps. */
module SessionProofs {
  import opened Bytes
  import opened Session
  import EnvelopeCodec
  import E = Envelope

  /** Requests are dispatched as 1, 2, 3, …; envelopes are sent as 1, 2, 3, …, a response first. */
  ghost predicate Numbered(log: Log) {
    && (forall k :: 0 <= k < |log.dispatched| ==> log.dispatched[k] == k + 1)
    && (forall k :: 0 <= k < |log.sent| ==> log.sent[k].sequence == k + 1)
    && (log.sent != [] ==> log.sent[0].channel == RESPONSE)
  }

  ghost predicate AllNumbered(a: Audit) {
    forall i :: 0 <= i < |a.sessions| ==> Numbered(a.sessions[i])
  }

  /** A durable pairing names a confirmation of its own, given on its link for its role and id. */
  ghost predicate Backed(a: Audit, c: Stored) {
    0 <= c.confirmation < |a.grants| && a.grants[c.confirmation] == Grant(c.link, c.role, c.id)
  }

  ghost predicate AllBacked(a: Audit) {
    && (forall k :: 0 <= k < |a.commits| ==> Backed(a, a.commits[k]))
    && (forall j, k :: 0 <= j < k < |a.commits| ==> a.commits[j].confirmation < a.commits[k].confirmation)
  }

  /** The last confirmation has not been used. */
  ghost predicate Unused(a: Audit) {
    a.grants != [] && forall k :: 0 <= k < |a.commits| ==> a.commits[k].confirmation < |a.grants| - 1
  }

  predicate Live(p: Phase) {
    p in {AwaitingHello, AwaitingClientAuth, PairingPhysical, PairingCommit, Authenticated}
  }

  ghost predicate LinkTrue(r: Ram) {
    Live(r.phase) ==> r.secure
  }

  /** Counters of the running session are those of its log; events are possible only behind a response. */
  ghost predicate TrafficTrue(s: State) {
    && (s.r.peer.barrier ==> s.r.phase in {Authenticated, Backoff, Disconnected})
    && (s.r.phase == Authenticated ==>
          && s.a.sessions != []
          && s.r.peer.expected == |LastLog(s.a).dispatched| + 1 && s.r.peer.next == |LastLog(s.a).sent| + 1
          && (s.r.peer.barrier ==> LastLog(s.a).sent != []))
  }

  /** A pairing that awaits its commit frame is the last one confirmed, on this link. */
  ghost predicate PairingTrue(s: State) {
    s.r.phase == PairingCommit ==>
      && s.r.pending.role.Some? && Unused(s.a)
      && s.a.grants[|s.a.grants| - 1] == Grant(s.a.link, s.r.pending.role.value, s.r.pending.id)
  }

  ghost predicate Inv(s: State) {
    LinkTrue(s.r) && TrafficTrue(s) && PairingTrue(s) && AllNumbered(s.a) && AllBacked(s.a)
  }

  // ----- quiet steps -----

  /** No session traffic and no pairing are under way. */
  predicate Resting(r: Ram) {
    r.phase != Authenticated && r.phase != PairingCommit && (r.peer.barrier ==> r.phase == Backoff || r.phase == Disconnected)
  }

  lemma RestingKeeps(s: State, t: State)
    requires Inv(s) && t.a == s.a.(link := t.a.link) && Resting(t.r) && LinkTrue(t.r)
    ensures Inv(t)
  {
    BackedElsewhere(s.a, t.a);
  }

  lemma BackedElsewhere(a: Audit, b: Audit)
    requires AllBacked(a) && b == a.(link := b.link)
    ensures AllBacked(b)
  {
    forall k | 0 <= k < |b.commits| ensures Backed(b, b.commits[k]) { assert Backed(a, a.commits[k]); }
  }

  /** Nothing the invariant speaks of changed. */
  lemma SameKeeps(s: State, t: State)
    requires Inv(s) && t.a == s.a && t.r.phase == s.r.phase && t.r.secure == s.r.secure
    requires t.r.peer == s.r.peer && t.r.pending == s.r.pending
    ensures Inv(t)
  {
  }

  lemma FailAndCloseRests(r: Ram, now: u32, cause: Cause)
    ensures var t := FailAndClose(r, now, cause); Resting(t) && LinkTrue(t) && t.phase == Closing
  {
  }

  /** The parts of the invariant about history alone. */
  ghost predicate AuditTrue(a: Audit) {
    AllNumbered(a) && AllBacked(a)
  }

  lemma FailProofKeeps(s: State, now: u32)
    requires AuditTrue(s.a) && s.r.secure
    ensures Inv(FailProof(s, now))
  {
    hide AllNumbered, AllBacked, Unused, Answer;
  }

  // ----- link, window, timer -----

  lemma LinkUpKeeps(s: State, secure: bool, now: u32)
    requires Inv(s)
    ensures Inv(LinkUp(s, secure, now))
  {
    hide AllNumbered, AllBacked, Unused;
    RestingKeeps(s, LinkUp(s, secure, now));
  }

  lemma LinkDownKeeps(s: State, now: u32)
    requires Inv(s)
    ensures Inv(LinkDown(s, now))
  {
    hide AllNumbered, AllBacked, Unused;
    RestingKeeps(s, LinkDown(s, now));
  }

  lemma OpenWindowKeeps(s: State, open: bool, remaining: u32, now: u32, role: Role)
    requires Inv(s)
    ensures Inv(OpenWindow(s, open, remaining, now, role))
  {
    hide AllNumbered, AllBacked, Unused;
    var t := OpenWindow(s, open, remaining, now, role);
    if s.r.phase == PairingPhysical || s.r.phase == PairingCommit { RestingKeeps(s, t); } else { SameKeeps(s, t); }
  }

  lemma CancelKeeps(s: State)
    requires Inv(s)
    ensures Inv(CancelPairing(s))
  {
    hide AllNumbered, AllBacked, Unused;
    var t := CancelPairing(s);
    if s.r.phase == PairingPhysical || s.r.phase == PairingCommit { RestingKeeps(s, t); }
  }

  lemma LoopKeeps(s: State, now: u32, idle: bool)
    requires Inv(s)
    ensures Inv(Loop(s, now, idle))
  {
    hide AllNumbered, AllBacked, Unused, Answer;
    var t := Loop(s, now, idle);
    if t.r.phase == s.r.phase && t.r.peer == s.r.peer && t.r.pending == s.r.pending {
      SameKeeps(s, t);
    } else {
      RestingKeeps(s, t);
    }
  }

  // ----- handshake -----

  lemma HelloKeeps(w: World, s: State, id: Id, nonce: seq<byte>)
    requires Inv(s) && s.r.phase == AwaitingHello
    ensures var t := HandleHello(w, s, id, nonce).0; Inv(t) && t.r.secure
  {
    hide AllNumbered, AllBacked, Unused, Answer;
    RestingKeeps(s, HandleHello(w, s, id, nonce).0);
  }

  lemma AuthKeeps(w: World, s: State, proof: seq<byte>)
    requires Inv(s) && s.r.phase == AwaitingClientAuth
    ensures var t := HandleAuth(w, s, proof).0; Inv(t) && t.r.secure
  {
    hide AllBacked, Answer, AuthAccepted;
    var t := HandleAuth(w, s, proof).0;
    assert AllBacked(t.a) by { BackedWith(s.a, t.a); }
    if t.r.phase == Authenticated {
      assert LastLog(t.a) == Log([], []);
      assert !t.r.peer.barrier;
    }
  }

  lemma BackedWith(a: Audit, b: Audit)
    requires AllBacked(a) && b == a.(sessions := b.sessions)
    ensures AllBacked(b)
  {
    forall k | 0 <= k < |b.commits| ensures Backed(b, b.commits[k]) { assert Backed(a, a.commits[k]); }
  }

  // ----- pairing -----

  lemma PairRequestKeeps(s: State, version: nat, nonce: seq<byte>, now: u32)
    requires Inv(s) && s.r.phase == AwaitingHello
    ensures var t := HandlePairRequest(s, version, nonce, now).0; Inv(t) && t.r.secure
  {
    hide AllNumbered, AllBacked, Unused, Answer;
    RestingKeeps(s, HandlePairRequest(s, version, nonce, now).0);
  }

  lemma GrantKeeps(w: World, s: State, now: u32)
    requires Inv(s) && s.r.phase == PairingPhysical && s.r.pending.role.Some?
    ensures Inv(SendGrant(w, s, now).0)
  {
    hide AllNumbered, Answer;
    var t := SendGrant(w, s, now).0;
    if t.r.phase == PairingCommit {
      assert AllNumbered(t.a) by { NumberedWith(s.a, t.a); }
      forall k | 0 <= k < |t.a.commits| ensures Backed(t.a, t.a.commits[k]) { assert Backed(s.a, s.a.commits[k]); }
    } else {
      RestingKeeps(s, t);
    }
  }

  lemma NumberedWith(a: Audit, b: Audit)
    requires AllNumbered(a) && b.sessions == a.sessions
    ensures AllNumbered(b)
  {
  }

  lemma ConfirmKeeps(w: World, s: State, now: u32)
    requires Inv(s)
    ensures Inv(Confirm(w, s, now).0)
  {
    hide AllNumbered, AllBacked, Unused, Answer, FreshId, SendGrant;
    var t := Confirm(w, s, now).0;
    if Confirmable(s.r, now) {
      var (s1, root) := Ask(s);
      if root.ok {
        var (s2, id) := FreshId(s1, 8);
        if id != None {
          var s3 := WithRam(s2, s.r.(pending := s.r.pending.(root := root.bytes, id := id.value)));
          RestingKeeps(s, s3);
          GrantKeeps(w, s3, now);
        } else {
          RestingKeeps(s, t);
        }
      } else {
        RestingKeeps(s, t);
      }
    }
  }

  lemma CommitKeeps(w: World, s: State, version: nat, proof: seq<byte>, now: u32)
    requires Inv(s) && s.r.phase == PairingCommit
    ensures var (t, handled) := HandleCommit(w, s, version, proof, now);
      && (t.r.phase != PairingCommit ==> Inv(t))
      && (t.r.phase == PairingCommit ==> !handled && AuditTrue(t.a))
      && (t.r.phase != Closing ==> t.r.secure)
  {
    hide AllNumbered, Answer, CommitVerified;
    var (t, handled) := HandleCommit(w, s, version, proof, now);
    assert AllNumbered(t.a) by { NumberedWith(s.a, t.a); }
    if t.a != s.a {
      forall k | 0 <= k < |t.a.commits| ensures Backed(t.a, t.a.commits[k]) {
        if k < |s.a.commits| { assert Backed(s.a, s.a.commits[k]); }
      }
      FailAndCloseRests(s.r.(completed := s.r.pending.role, pending := NO_PENDING, phase := AwaitingHello), now, ResponseSendFailed);
    }
  }

  // ----- traffic -----

  lemma SendKeeps(w: World, s: State, channel: nat, requestId: seq<byte>, operation: seq<byte>, payload: seq<byte>)
    requires Inv(s) && channel <= 2 && (channel == RESPONSE || s.r.peer.barrier)
    ensures var (t, sent) := SendEnvelope(w, s, channel, requestId, operation, payload);
      && Inv(t) && t.r == s.r.(peer := s.r.peer.(next := t.r.peer.next)) && t.controllers == s.controllers
      && (sent ==> t.r.phase == Authenticated && LastLog(t.a).sent != [])
  {
    hide AllBacked, Answer, EnvelopeCodec.Encode;
    var (t, sent) := SendEnvelope(w, s, channel, requestId, operation, payload);
    if sent {
      assert AllBacked(t.a) by { BackedWith(s.a, t.a); }
      forall i | 0 <= i < |t.a.sessions| ensures Numbered(t.a.sessions[i]) { assert Numbered(s.a.sessions[i]); }
    }
  }

  lemma CountKeeps(s: State)
    requires Inv(s) && s.r.phase == Authenticated
    ensures var t := CountRequest(s); Inv(t) && t.r == s.r.(peer := s.r.peer.(expected := s.r.peer.expected + 1)) && t.controllers == s.controllers
  {
    hide AllBacked;
    var t := CountRequest(s);
    assert AllBacked(t.a) by { BackedWith(s.a, t.a); }
    forall i | 0 <= i < |t.a.sessions| ensures Numbered(t.a.sessions[i]) { assert Numbered(s.a.sessions[i]); }
  }

  lemma ForgetKeeps(w: World, s: State, m: EnvelopeCodec.Message, accepted: seq<byte>, rejected: seq<byte>, now: u32)
    requires Inv(s) && s.r.phase == Authenticated
    ensures var (t, handled) := HandleForget(w, s, m, accepted, rejected, now);
      Inv(t) && (!handled ==> t.r.phase == Closing)
  {
    hide AllNumbered, AllBacked, Unused, SendEnvelope, Answer;
    var (s1, revoked) := RevokeSelf(s, m.payload == [123, 125]);
    SameKeeps(s, s1);
    var receipt := if revoked then accepted else rejected;
    SendKeeps(w, s1, RESPONSE, m.requestId, m.operation, receipt);
    var (s2, sent) := SendEnvelope(w, s1, RESPONSE, m.requestId, m.operation, receipt);
    var t := HandleForget(w, s, m, accepted, rejected, now).0;
    if t != s2 { RestingKeeps(s2, t); }
  }

  lemma OperationKeeps(w: World, s: State, m: EnvelopeCodec.Message, now: u32)
    requires Inv(s) && s.r.phase == Authenticated && s.r.peer.role.Some?
    ensures var (t, handled) := HandleOperation(w, s, m, now);
      Inv(t) && (!handled ==> t.r.phase == Closing)
  {
    hide AllNumbered, AllBacked, Unused, SendEnvelope;
    var answer := w.handle(s.r.peer.role.value, m);
    var payload := if answer.Some? && 0 < |answer.value| <= E.PAYLOAD_MAXIMUM then answer.value else REJECTED;
    SendKeeps(w, s, RESPONSE, m.requestId, m.operation, payload);
    var (s1, sent) := SendEnvelope(w, s, RESPONSE, m.requestId, m.operation, payload);
    if !sent { RestingKeeps(s1, WithRam(s1, FailAndClose(s1.r, now, ResponseSendFailed))); }
  }

  lemma EnvelopeKeeps(w: World, s: State, json: seq<byte>, accepted: seq<byte>, rejected: seq<byte>, now: u32)
    requires Inv(s) && s.r.phase == Authenticated
    ensures var (t, handled) := HandleEnvelope(w, s, json, accepted, rejected, now);
      Inv(t) && (!handled ==> t.r.phase == Closing)
  {
    hide AllNumbered, AllBacked, Unused, Accepted, HandleForget, HandleOperation, CountRequest;
    var m := Accepted(w, s.r.peer, json);
    if m == None || s.r.peer.role == None {
      RestingKeeps(s, HandleEnvelope(w, s, json, accepted, rejected, now).0);
    } else {
      CountKeeps(s);
      var s1 := CountRequest(s);
      if m.value.operation == FORGET { ForgetKeeps(w, s1, m.value, accepted, rejected, now); }
      else { OperationKeeps(w, s1, m.value, now); }
    }
  }

  lemma EmitKeeps(w: World, s: State, operation: seq<byte>, payload: seq<byte>)
    requires Inv(s)
    ensures Inv(SendEvent(w, s, operation, payload).0)
  {
    hide AllNumbered, AllBacked, Unused, SendEnvelope, Answer;
    if s.r.peer.barrier {
      var (s1, id) := Ask(s);
      SameKeeps(s, s1);
      if id.ok { SendKeeps(w, s1, EVENT, id.bytes, operation, payload); }
    }
  }

  // ----- frames and runs -----

  lemma DispatchKeeps(w: World, s: State, json: seq<byte>, accepted: seq<byte>, rejected: seq<byte>, now: u32)
    requires Inv(s) && s.r.secure
    ensures var (t, handled) := Dispatch(w, s, json, accepted, rejected, now);
      && (handled || t.r.phase == Closing ==> Inv(t))
      && (!handled && t.r.phase != Closing ==> t.r.secure && AuditTrue(t.a))
  {
    hide HandleHello, HandleAuth, HandlePairRequest, HandleCommit, HandleEnvelope, AllNumbered, AllBacked, Unused;
    var c := w.parse(json);
    if s.r.phase == AwaitingHello && c.Hello? { HelloKeeps(w, s, c.id, c.nonce); }
    else if s.r.phase == AwaitingHello && c.PairRequest? { PairRequestKeeps(s, c.version, c.nonce, now); }
    else if s.r.phase == AwaitingClientAuth && c.Auth? { AuthKeeps(w, s, c.proof); }
    else if s.r.phase == Authenticated { EnvelopeKeeps(w, s, json, accepted, rejected, now); }
    else if s.r.phase == PairingCommit && c.Commit? { CommitKeeps(w, s, c.version, c.proof, now); }
  }

  lemma FrameKeeps(w: World, s: State, json: seq<byte>, accepted: seq<byte>, rejected: seq<byte>, now: u32)
    requires Inv(s)
    ensures Inv(OnFrame(w, s, json, accepted, rejected, now))
  {
    hide Dispatch, AllNumbered, AllBacked, Unused, FailProof, Answer;
    var t := OnFrame(w, s, json, accepted, rejected, now);
    if json == [] || !s.r.secure {
      RestingKeeps(s, t);
    } else if (s.r.phase == AwaitingHello || s.r.phase == AwaitingClientAuth) && Reached32(now, s.r.timers.state) {
      RestingKeeps(s, t);
    } else {
      DispatchKeeps(w, s, json, accepted, rejected, now);
      var (s1, handled) := Dispatch(w, s, json, accepted, rejected, now);
      if !handled && s1.r.phase != Closing { FailProofKeeps(s1, now); }
    }
  }

  /** Every event keeps the invariant. */
  lemma StepKeeps(w: World, accepted: seq<byte>, rejected: seq<byte>, s: State, e: Event)
    requires Inv(s)
    ensures Inv(Step(w, accepted, rejected, s, e))
  {
    hide LinkUp, LinkDown, OpenWindow, OnFrame, Confirm, CancelPairing, SendEvent, Loop, AllNumbered, AllBacked, Unused;
    match e
    case Up(secure, now) => LinkUpKeeps(s, secure, now);
    case Down(now) => LinkDownKeeps(s, now);
    case Pairing(open, remaining, now, role) => OpenWindowKeeps(s, open, remaining, now, role);
    case Frame(json, now) => FrameKeeps(w, s, json, accepted, rejected, now);
    case Confirmed(now) => ConfirmKeeps(w, s, now);
    case Cancelled => CancelKeeps(s);
    case Emit(operation, payload) => EmitKeeps(w, s, operation, payload);
    case Tick(now, idle) => LoopKeeps(s, now, idle);
    case Supply(plan) => SameKeeps(s, s.(plan := plan));
  }

  lemma {:induction false} RunKeeps(w: World, accepted: seq<byte>, rejected: seq<byte>, s: State, events: seq<Event>)
    requires Inv(s)
    ensures Inv(Run(w, accepted, rejected, s, events))
  {
    hide Step, Inv;
    if events != [] {
      RunKeeps(w, accepted, rejected, s, events[..|events| - 1]);
      StepKeeps(w, accepted, rejected, Run(w, accepted, rejected, s, events[..|events| - 1]), events[|events| - 1]);
    }
  }

  lemma BegunIsTrue(s: State)
    requires Begun(s)
    ensures Inv(s)
  {
  }

  /** In every trace: requests of a session are dispatched as 1, 2, 3, … without gap or repeat, and its envelopes are
      numbered 1, 2, 3, … with a response first. */
  lemma TracesAreNumbered(w: World, accepted: seq<byte>, rejected: seq<byte>, s: State, events: seq<Event>, i: nat)
    requires Begun(s) && i < |Run(w, accepted, rejected, s, events).a.sessions|
    ensures var log := Run(w, accepted, rejected, s, events).a.sessions[i];
      && (forall k :: 0 <= k < |log.dispatched| ==> log.dispatched[k] == k + 1)
      && (forall k :: 0 <= k < |log.sent| ==> log.sent[k].sequence == k + 1)
      && (log.sent != [] ==> log.sent[0].channel == RESPONSE)
  {
    hide Run, AllBacked;
    BegunIsTrue(s);
    RunKeeps(w, accepted, rejected, s, events);
  }

  /** In every trace each durable pairing used up a physical confirmation of its own, given on that very link, and stored
      the role that confirmation was for. */
  lemma PairingsAreConfirmed(w: World, accepted: seq<byte>, rejected: seq<byte>, s: State, events: seq<Event>, j: nat, k: nat)
    requires Begun(s) && j <= k < |Run(w, accepted, rejected, s, events).a.commits|
    ensures var a := Run(w, accepted, rejected, s, events).a; var c := a.commits[k];
      && 0 <= c.confirmation < |a.grants| && (j < k ==> a.commits[j].confirmation < c.confirmation)
      && a.grants[c.confirmation] == Grant(c.link, c.role, c.id)
  {
    hide Run, AllNumbered;
    BegunIsTrue(s);
    RunKeeps(w, accepted, rejected, s, events);
    var a := Run(w, accepted, rejected, s, events).a;
    assert Backed(a, a.commits[j]) && Backed(a, a.commits[k]);
  }

  /** A confirmation is recorded only inside an open window, for the window's role. */
  lemma GrantsFollowTheWindow(w: World, s: State, now: u32)
    ensures var (t, ok) := Confirm(w, s, now);
      && (ok ==> s.r.window.Some? && |t.a.grants| == |s.a.grants| + 1
                 && t.a.grants[|s.a.grants|].role == s.r.window.value.role && t.a.grants[|s.a.grants|].link == s.a.link
                 && t.a.grants[|s.a.grants|].id !in s.controllers)
      && (!ok ==> t.a == s.a)
  {
    hide Answer, FreshId;
  }

  // ----- backoff and closing -----

  /** During a backoff a second link is refused, but a frame on it restarts the handshake unless two proofs had already
      failed: only then is the backoff renewed. */
  lemma FrameDuringBackoff(w: World, s: State, json: seq<byte>, accepted: seq<byte>, rejected: seq<byte>, now: u32)
    requires s.r.phase == Backoff && s.r.secure && json != []
    ensures var t := OnFrame(w, s, json, accepted, rejected, now);
      && (t.r.phase == AwaitingHello <==> s.r.proofFailures + 1 < PROOF_FAILURES)
      && (t.r.phase == AwaitingHello ==> t.r.timers == s.r.timers)
      && (t.r.phase != AwaitingHello ==> t.r.phase == Closing && t.r.timers.backoffUntil == (now + BACKOFF_MS) % TWO_32)
  {
    hide Answer;
  }

  /** That handshake has the stale deadline of the closed link, 0.  While the millisecond clock is in the lower half of its range
      every frame is a timeout; otherwise every frame is taken, and the session closes exactly when the frame fails and two
      proofs had failed before. */
  lemma StaleDeadline(w: World, s: State, json: seq<byte>, accepted: seq<byte>, rejected: seq<byte>, now: u32)
    requires s.r.phase == AwaitingHello && s.r.secure && json != [] && s.r.timers.state == 0
    ensures var t := OnFrame(w, s, json, accepted, rejected, now); var (taken, handled) := Dispatch(w, s, json, accepted, rejected, now);
      && (now < 0x8000_0000 ==> t == WithRam(Ask(s).0, FailAndClose(s.r, now, HandshakeTimeout)))
      && (now >= 0x8000_0000 ==>
            && (handled ==> t == taken && t.r.phase in {AwaitingHello, AwaitingClientAuth, PairingPhysical})
            && (!handled ==> t.r.phase == if s.r.proofFailures + 1 >= PROOF_FAILURES then Closing else AwaitingHello))
  {
    hide Answer;
    assert Sub32(now, 0) == now;
  }

  /** A handshake on a new link that succeeds. */
  ghost predicate Handshakes(w: World, s: State, id: Id, nonce: seq<byte>, deviceNonce: seq<byte>, proof: seq<byte>) {
    && id in s.controllers && !AllZero(id)
    && w.handshake(s.controllers[id].root, DeviceProof, id, nonce, deviceNonce).Some?
    && w.handshake(s.controllers[id].root, ClientProof, id, nonce, deviceNonce) == Some(proof)
    && w.handshake(s.controllers[id].root, OkProof, id, nonce, deviceNonce).Some?
    && w.keys(s.controllers[id].root, nonce, deviceNonce).Some?
    && s.plan == [Reply(true, deviceNonce), Reply(true, []), Reply(true, []), Reply(true, [])]
  }

  /** Such a handshake leads to a session without failed proofs. */
  lemma HandshakeOpens(w: World, accepted: seq<byte>, rejected: seq<byte>, s: State, id: Id, nonce: seq<byte>,
                       deviceNonce: seq<byte>, proof: seq<byte>, hello: seq<byte>, auth: seq<byte>, now: u32)
    requires Begun(s) && Handshakes(w, s, id, nonce, deviceNonce, proof) && hello != [] && auth != []
    requires w.parse(hello) == Hello(id, nonce) && w.parse(auth) == Auth(proof)
    ensures var s1 := LinkUp(s, true, now);
      var s3 := OnFrame(w, OnFrame(w, s1, hello, accepted, rejected, now), auth, accepted, rejected, now);
      s3.r.phase == Authenticated && s3.r.secure && s3.r.proofFailures == 0
  {
    assert [Reply(true, deviceNonce), Reply(true, []), Reply(true, []), Reply(true, [])][1..]
        == [Reply(true, []), Reply(true, []), Reply(true, [])];
    assert [Reply(true, []), Reply(true, []), Reply(true, [])][1..] == [Reply(true, []), Reply(true, [])];
    assert [Reply(true, []), Reply(true, [])][1..] == [Reply(true, [])];
    var s1 := LinkUp(s, true, now);
    var (s2, ok) := HandleHello(w, s1, id, nonce);
    assert ok && s2.r.phase == AwaitingClientAuth;
  }

  /** From a session that broke the protocol: the link closes, a second link is refused by the backoff, and one frame on it
      restarts the handshake, with the stale deadline and the backoff still running. */
  lemma BackoffRestarts(w: World, accepted: seq<byte>, rejected: seq<byte>, s: State, bad: seq<byte>, junk: seq<byte>, now: u32)
    requires s.r.phase == Authenticated && s.r.secure && s.r.proofFailures == 0 && bad != [] && junk != []
    requires Accepted(w, s.r.peer, bad) == None && (now + BACKOFF_MS) % TWO_32 != 0
    ensures var s1 := OnFrame(w, s, bad, accepted, rejected, now);
      var s3 := LinkUp(LinkDown(s1, now), true, now);
      var s4 := OnFrame(w, s3, junk, accepted, rejected, now);
      && s1.r.phase == Closing && s3.r.phase == Backoff
      && s4.r.phase == AwaitingHello && s4.r.timers.state == 0 && BackingOff(s4.r, now)
  {
    hide Answer, Accepted;
    assert Sub32(now, (now + BACKOFF_MS) % TWO_32) == TWO_32 - BACKOFF_MS;
  }

  /** The two as one run of a begun session object. */
  lemma BackoffBypassed(w: World, accepted: seq<byte>, rejected: seq<byte>, s: State, id: Id, nonce: seq<byte>, deviceNonce: seq<byte>,
                        proof: seq<byte>, hello: seq<byte>, auth: seq<byte>, bad: seq<byte>, junk: seq<byte>, now: u32)
    requires Begun(s) && Handshakes(w, s, id, nonce, deviceNonce, proof) && hello != [] && auth != [] && bad != [] && junk != []
    requires w.parse(hello) == Hello(id, nonce) && w.parse(auth) == Auth(proof) && (now + BACKOFF_MS) % TWO_32 != 0
    requires forall p :: Accepted(w, p, bad) == None
    ensures var session := Step(w, accepted, rejected, Step(w, accepted, rejected, Step(w, accepted, rejected, s, Up(true, now)),
                                                            Frame(hello, now)), Frame(auth, now));
      var refused := Step(w, accepted, rejected, Step(w, accepted, rejected, Step(w, accepted, rejected, session, Frame(bad, now)), Down(now)),
                          Up(true, now));
      var t := Step(w, accepted, rejected, refused, Frame(junk, now));
      && session.r.phase == Authenticated && refused.r.phase == Backoff
      && t.r.phase == AwaitingHello && t.r.timers.state == 0 && BackingOff(t.r, now)
  {
    hide LinkUp, LinkDown, OnFrame, Begun, Handshakes, Accepted;
    HandshakeOpens(w, accepted, rejected, s, id, nonce, deviceNonce, proof, hello, auth, now);
    var session := OnFrame(w, OnFrame(w, LinkUp(s, true, now), hello, accepted, rejected, now), auth, accepted, rejected, now);
    assert Accepted(w, session.r.peer, bad) == None;
    BackoffRestarts(w, accepted, rejected, session, bad, junk, now);
  }

  /** A failed session closes its link by timer, unless the deadline happens to wrap to 0: then no later pass of the loop
      closes it. */
  lemma ClosesByTimer(r: Ram, now: u32, cause: Cause, later: u32)
    ensures var t := FailAndClose(r, now, cause);
      Disconnects(t, later, false) <==> now + CLOSE_DELAY_MS != TWO_32 && Reached32(later, (now + CLOSE_DELAY_MS) % TWO_32)
  {
  }
}
