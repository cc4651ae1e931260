/** The session in its own form: one object whose fields each handler updates step by step. */
module BleSession {
  import opened Bytes
  import opened Session
  import EnvelopeCodec
  import E = Envelope

  class KitsuBleSession {
    const world: World
    const accepted: seq<byte>
    const rejected: seq<byte>
    var phase: Phase
    var secure: bool
    var window: Option<Window>
    var peer: Peer
    var pending: Pending
    var timers: Timers
    var proofFailures: nat
    var completed: Option<Role>
    var controllers: map<Id, Controller>
    var plan: seq<Reply>
    var audit: Audit

    ghost function Now(): State
      reads this
    {
      State(Ram(phase, secure, window, peer, pending, timers, proofFailures, completed), controllers, plan, audit)
    }

    constructor (world: World, accepted: seq<byte>, rejected: seq<byte>, controllers: map<Id, Controller>)
      ensures Begun(Now()) && this.world == world && this.accepted == accepted && this.rejected == rejected
    {
      this.world, this.accepted, this.rejected, this.controllers := world, accepted, rejected, controllers;
      phase, secure, window, peer, pending := Disconnected, false, None, NO_PEER, NO_PENDING;
      timers, proofFailures, completed, plan := Timers(0, 0, false, None, 0), 0, None, [];
      audit := Audit(0, [], [], []);
    }

    method Query() returns (reply: Reply)
      modifies this`plan
      ensures (Now(), reply) == Ask(old(Now()))
    {
      if plan == [] { return Reply(false, []); }
      reply := plan[0];
      plan := plan[1..];
    }

    // ----- endings -----

    method ClearSecrets()
      modifies this`peer, this`pending
      ensures Now() == WithRam(old(Now()), Wiped(old(Now()).r))
    {
      pending := NO_PENDING;
      peer := NO_PEER;
    }

    /** `failAndClose`. */
    method CloseWith(now: u32, cause: Cause)
      modifies this`peer, this`pending, this`timers, this`phase
      ensures Now() == WithRam(old(Now()), FailAndClose(old(Now()).r, now, cause))
    {
      ClearSecrets();
      if timers.cause == None { timers := timers.(cause := Some(cause)); }
      phase := Closing;
      timers := timers.(closeAt := (now + CLOSE_DELAY_MS) % TWO_32, closeAfterTransmit := false);
    }

    /** `failProof`. */
    method RefuseProof(now: u32)
      modifies this
      ensures Now() == FailProof(old(Now()), now)
    {
      hide Answer;
      ClearSecrets();
      if proofFailures < 255 { proofFailures := proofFailures + 1; } else { proofFailures := 255; }
      var sent := Query();
      if proofFailures >= PROOF_FAILURES {
        phase := Closing;
        timers := timers.(backoffUntil := (now + BACKOFF_MS) % TWO_32, closeAt := (now + CLOSE_DELAY_MS) % TWO_32,
                          closeAfterTransmit := false, cause := Some(AuthenticationFailed));
      } else {
        phase := AwaitingHello;
      }
    }

    // ----- link, window, timer -----

    /** `onSecureLinkEstablished`. */
    method OnSecureLink(link: bool, now: u32)
      modifies this
      ensures Now() == LinkUp(old(Now()), link, now)
    {
      secure := link;
      audit := audit.(link := audit.link + 1);
      if !link {
        CloseWith(now, SecureLinkRejected);
        return;
      }
      if timers.backoffUntil != 0 && !Reached32(now, timers.backoffUntil) {
        phase := Backoff;
        return;
      }
      ClearSecrets();
      phase := AwaitingHello;
      timers := Timers((now + HANDSHAKE_TIMEOUT_MS) % TWO_32, 0, false, None, 0);
    }

    method CloseExpiredWindow(now: u32)
      modifies this`window
      ensures Now() == WithRam(old(Now()), ExpireWindow(old(Now()).r, now))
    {
      if window.Some? && Reached32(now, window.value.deadline) { window := None; }
    }

    /** `onLinkClosed`. */
    method OnLinkClosed(now: u32)
      modifies this
      ensures Now() == LinkDown(old(Now()), now)
    {
      ClearSecrets();
      secure := false;
      CloseExpiredWindow(now);
      timers := Timers(0, 0, false, None, timers.backoffUntil);
      phase := if timers.backoffUntil == 0 then Disconnected else Backoff;
    }

    /** `setPairingWindow`. */
    method SetPairingWindow(open: bool, remaining: u32, now: u32, role: Role)
      modifies this
      ensures Now() == OpenWindow(old(Now()), open, remaining, now, role)
    {
      if phase == PairingPhysical || phase == PairingCommit {
        pending := NO_PENDING;
        phase := AwaitingHello;
      }
      window := if open && 0 < remaining <= WINDOW_MAX_MS then Some(Window(role, (now + remaining) % TWO_32)) else None;
      completed := None;
    }

    /** `cancelPendingPairing`. */
    method Cancel()
      modifies this`pending, this`phase
      ensures Now() == CancelPairing(old(Now()))
    {
      pending := NO_PENDING;
      if phase == PairingPhysical || phase == PairingCommit { phase := AwaitingHello; }
    }

    /** `loop`. */
    method RunLoop(now: u32, idle: bool)
      modifies this
      ensures Now() == Loop(old(Now()), now, idle)
    {
      hide Answer;
      CloseExpiredWindow(now);
      if phase in {AwaitingHello, AwaitingClientAuth, PairingPhysical, PairingCommit} && timers.state != 0
         && Reached32(now, timers.state) {
        var sent := Query();
        CloseWith(now, if phase == PairingPhysical || phase == PairingCommit then PairingTimeout else HandshakeTimeout);
      }
      if phase == Closing && ((timers.closeAfterTransmit && idle) || (timers.closeAt != 0 && Reached32(now, timers.closeAt))) {
        timers := timers.(closeAt := 0, closeAfterTransmit := false);
      } else if phase == Backoff && timers.backoffUntil != 0 && Reached32(now, timers.backoffUntil) {
        timers := timers.(backoffUntil := 0);
        phase := Disconnected;
      }
    }

    // ----- handshake -----

    /** `handleClientHello`. */
    method ClientHello(id: Id, nonce: seq<byte>) returns (ok: bool)
      modifies this
      ensures (Now(), ok) == HandleHello(world, old(Now()), id, nonce)
    {
      hide Answer;
      peer := peer.(id := id, clientNonce := nonce);
      if AllZero(id) { return false; }
      peer := peer.(known := id in controllers, role := if id in controllers then Some(controllers[id].role) else None);
      var root := Reply(true, if id in controllers then controllers[id].root else []);
      if !peer.known { root := Query(); }
      if !root.ok { return false; }
      var deviceNonce := Query();
      peer := peer.(root := root.bytes, deviceNonce := deviceNonce.bytes);
      if !deviceNonce.ok || world.handshake(peer.root, DeviceProof, id, nonce, peer.deviceNonce) == None { return false; }
      var sent := Query();
      if !sent.ok { return false; }
      phase := AwaitingClientAuth;
      ok := true;
    }

    /** `handleClientAuth`. */
    method ClientAuth(proof: seq<byte>) returns (ok: bool)
      modifies this
      ensures (Now(), ok) == HandleAuth(world, old(Now()), proof)
    {
      hide Answer;
      if !AuthAccepted(world, peer, proof) { return false; }
      var keys := world.keys(peer.root, peer.clientNonce, peer.deviceNonce).value;
      var sent := Query();
      if sent.ok { sent := Query(); }
      if !sent.ok { return false; }
      peer := peer.(incoming := keys.0, outgoing := keys.1, root := [], expected := 1, next := 1);
      proofFailures := 0;
      timers := timers.(state := 0);
      phase := Authenticated;
      audit := audit.(sessions := audit.sessions + [Log([], [])]);
      ok := true;
    }

    // ----- pairing -----

    /** `handlePairRequest`. */
    method RequestPairing(version: nat, nonce: seq<byte>, now: u32) returns (ok: bool)
      modifies this
      ensures (Now(), ok) == HandlePairRequest(old(Now()), version, nonce, now)
    {
      hide Answer;
      pending := pending.(clientNonce := nonce);
      if window == None || Reached32(now, window.value.deadline) {
        pending := NO_PENDING;
        var sent := Query();
        return true;
      }
      if version != VersionFor(window.value.role) { return false; }
      if |controllers| >= CONTROLLERS {
        pending := NO_PENDING;
        var sent := Query();
        return true;
      }
      var deviceNonce := Query();
      if !deviceNonce.ok { return false; }
      pending := pending.(deviceNonce := deviceNonce.bytes, version := version, role := Some(window.value.role));
      completed := None;
      var sent := Query();
      if !sent.ok { return false; }
      phase := PairingPhysical;
      timers := timers.(state := window.value.deadline);
      ok := true;
    }

    /** The attempts of `confirmPendingPairing` at an unused controller id. */
    method DrawId() returns (id: Option<Id>)
      modifies this`plan
      ensures (Now(), id) == FreshId(old(Now()), 8)
    {
      hide Answer;
      var tries := 8;
      while tries > 0
        invariant 0 <= tries <= 8 && Now() == old(Now()).(plan := plan)
        invariant FreshId(old(Now()), 8) == FreshId(Now(), tries)
      {
        var drawn := Query();
        if drawn.ok && !AllZero(drawn.bytes) && drawn.bytes !in controllers { return Some(drawn.bytes); }
        tries := tries - 1;
      }
      id := None;
    }

    method GrantPairing(now: u32) returns (ok: bool)
      requires pending.role.Some?
      modifies this
      ensures (Now(), ok) == SendGrant(world, old(Now()), now)
    {
      hide Answer;
      if world.pairing(pending.version, pending.root, DeviceProof, pending.id, pending.clientNonce, pending.deviceNonce) == None {
        CloseWith(now, PairingFailed);
        return false;
      }
      var grant := Grant(audit.link, pending.role.value, pending.id);
      var sent := Query();
      if !sent.ok {
        CloseWith(now, ResponseSendFailed);
        return false;
      }
      phase := PairingCommit;
      audit := audit.(grants := audit.grants + [grant]);
      ok := true;
    }

    /** `confirmPendingPairing`. */
    method ConfirmPairing(now: u32) returns (ok: bool)
      modifies this
      ensures (Now(), ok) == Confirm(world, old(Now()), now)
    {
      hide Answer, FreshId, SendGrant;
      if !(phase == PairingPhysical && window.Some? && !Reached32(now, timers.state) && secure
           && pending.role == Some(window.value.role) && pending.version == VersionFor(window.value.role)) {
        return false;
      }
      var root := Query();
      if !root.ok {
        pending := NO_PENDING;
        var sent := Query();
        return false;
      }
      var id := DrawId();
      if id == None {
        CloseWith(now, PairingFailed);
        return false;
      }
      pending := pending.(root := root.bytes, id := id.value);
      ok := GrantPairing(now);
    }

    /** `handlePairCommit`. */
    method CommitPairing(version: nat, proof: seq<byte>, now: u32) returns (ok: bool)
      modifies this
      ensures (Now(), ok) == HandleCommit(world, old(Now()), version, proof, now)
    {
      hide Answer;
      if !CommitVerified(world, pending, version, proof) { return false; }
      var stored := Reply(false, []);
      if pending.id in controllers || |controllers| < CONTROLLERS { stored := Query(); }
      if !stored.ok {
        pending := NO_PENDING;
        var sent := Query();
        return false;
      }
      controllers := controllers[pending.id := Controller(pending.root, pending.role.value)];
      audit := audit.(commits := audit.commits + [Stored(|audit.grants| - 1, audit.link, pending.role.value, pending.id)]);
      var sent := Query();
      completed := pending.role;
      pending := NO_PENDING;
      phase := AwaitingHello;
      if !sent.ok { CloseWith(now, ResponseSendFailed); }
      ok := sent.ok;
    }

    // ----- authenticated traffic -----

    /** `sendAuthenticated`. */
    method SendAuthenticated(channel: nat, requestId: seq<byte>, operation: seq<byte>, payload: seq<byte>) returns (ok: bool)
      requires channel <= 2
      modifies this
      ensures (Now(), ok) == SendEnvelope(world, old(Now()), channel, requestId, operation, payload)
    {
      hide Answer, EnvelopeCodec.Encode;
      if phase != Authenticated || peer.next >= SEQUENCE_MAX || |requestId| != 16 { return false; }
      var nonce := Query();
      if !nonce.ok || |nonce.bytes| != 16 { return false; }
      var message := EnvelopeCodec.Message(channel, peer.next, nonce.bytes, requestId, operation, payload);
      if EnvelopeCodec.Encode(world.crypto, message, peer.outgoing, E.FRAME_MAXIMUM).Failed? { return false; }
      var sent := Query();
      if !sent.ok { return false; }
      var log := LastLog(audit);
      audit := SetLastLog(audit, log.(sent := log.sent + [Sent(channel, peer.next)]));
      peer := peer.(next := peer.next + 1);
      ok := true;
    }

    method ForgetController(m: EnvelopeCodec.Message, now: u32) returns (ok: bool)
      modifies this
      ensures (Now(), ok) == HandleForget(world, old(Now()), m, accepted, rejected, now)
    {
      hide Answer, SendEnvelope;
      var self := peer.id;
      var revoked := Reply(false, []);
      if m.payload == [123, 125] {
        revoked := Query();
        if revoked.ok || revoked.bytes != [] { controllers := controllers - {self}; }
      }
      var stillAuthorized := self in controllers;
      var sent := SendAuthenticated(RESPONSE, m.requestId, m.operation, if revoked.ok then accepted else rejected);
      if !sent {
        CloseWith(now, ResponseSendFailed);
        return false;
      }
      if revoked.ok || !stillAuthorized {
        peer := NO_PEER;
        phase := Closing;
        timers := timers.(closeAfterTransmit := true, closeAt := (now + DRAIN_TIMEOUT_MS) % TWO_32, cause := Some(ControllerForget));
      }
      ok := true;
    }

    method ExecuteOperation(m: EnvelopeCodec.Message, now: u32) returns (ok: bool)
      requires peer.role.Some?
      modifies this
      ensures (Now(), ok) == HandleOperation(world, old(Now()), m, now)
    {
      hide SendEnvelope;
      var answer := world.handle(peer.role.value, m);
      var payload := REJECTED;
      if answer.Some? && 0 < |answer.value| <= E.PAYLOAD_MAXIMUM { payload := answer.value; }
      var sent := SendAuthenticated(RESPONSE, m.requestId, m.operation, payload);
      if !sent {
        CloseWith(now, ResponseSendFailed);
        return false;
      }
      peer := peer.(barrier := true);
      ok := true;
    }

    /** `handleAuthenticatedEnvelope`. */
    method AuthenticatedEnvelope(json: seq<byte>, now: u32) returns (ok: bool)
      modifies this
      ensures (Now(), ok) == HandleEnvelope(world, old(Now()), json, accepted, rejected, now)
    {
      hide Accepted, HandleForget, HandleOperation;
      var request := Accepted(world, peer, json);
      if request == None || peer.role == None {
        timers := timers.(backoffUntil := (now + BACKOFF_MS) % TWO_32);
        CloseWith(now, SessionProtocolViolation);
        return false;
      }
      var log := LastLog(audit);
      audit := SetLastLog(audit, log.(dispatched := log.dispatched + [peer.expected]));
      peer := peer.(expected := peer.expected + 1);
      if request.value.operation == FORGET {
        ok := ForgetController(request.value, now);
      } else {
        ok := ExecuteOperation(request.value, now);
      }
    }

    /** `sendEvent`. */
    method EmitEvent(operation: seq<byte>, payload: seq<byte>) returns (ok: bool)
      modifies this
      ensures (Now(), ok) == SendEvent(world, old(Now()), operation, payload)
    {
      hide Answer, SendEnvelope;
      if !peer.barrier { return false; }
      var requestId := Query();
      if !requestId.ok { return false; }
      ok := SendAuthenticated(EVENT, requestId.bytes, operation, payload);
    }

    /** `onFrame`. */
    method ReceiveFrame(json: seq<byte>, now: u32)
      modifies this
      ensures Now() == OnFrame(world, old(Now()), json, accepted, rejected, now)
    {
      hide Answer, FailProof, HandleHello, HandleAuth, HandlePairRequest, HandleCommit, HandleEnvelope;
      if json == [] || !secure {
        CloseWith(now, if secure then SessionProtocolViolation else SecureLinkRejected);
        return;
      }
      if (phase == AwaitingHello || phase == AwaitingClientAuth) && Reached32(now, timers.state) {
        var sent := Query();
        CloseWith(now, HandshakeTimeout);
        return;
      }
      var handled := false;
      var control := world.parse(json);
      if phase == AwaitingHello && control.Hello? {
        handled := ClientHello(control.id, control.nonce);
      } else if phase == AwaitingHello && control.PairRequest? {
        handled := RequestPairing(control.version, control.nonce, now);
      } else if phase == AwaitingClientAuth && control.Auth? {
        handled := ClientAuth(control.proof);
      } else if phase == Authenticated {
        handled := AuthenticatedEnvelope(json, now);
      } else if phase == PairingCommit && control.Commit? {
        handled := CommitPairing(control.version, control.proof, now);
      }
      if !handled && phase != Closing { RefuseProof(now); }
    }
  }
}
