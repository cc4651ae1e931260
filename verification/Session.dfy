/** The application session above an encrypted, bonded link: handshake, physically confirmed pairing and numbered
    envelopes.  Proofs, key derivation and control-frame syntax are uninterpreted; randomness, sending and storage
    answer from a plan. */
module Session {
  import opened Bytes
  import EnvelopeCodec
  import E = Envelope

  const HANDSHAKE_TIMEOUT_MS: nat := 10000
  const BACKOFF_MS: nat := 30000
  const PROOF_FAILURES: nat := 3
  const CLOSE_DELAY_MS: nat := 250
  const DRAIN_TIMEOUT_MS: nat := 2000
  const WINDOW_MAX_MS: nat := 60000
  const CONTROLLERS: nat := 4
  const SEQUENCE_MAX: nat := TWO_64 - 1

  const REQUEST: nat := 0
  const RESPONSE: nat := 1
  const EVENT: nat := 2

  type Id = seq<byte>
  type Secret = seq<byte>

  datatype Role = Owner | Caretaker

  datatype Phase =
    | Disconnected | AwaitingHello | AwaitingClientAuth | Authenticated | PairingPhysical | PairingCommit | Closing | Backoff

  datatype Cause =
    | SecureLinkRejected | HandshakeTimeout | AuthenticationFailed | SessionProtocolViolation | ResponseSendFailed
    | PairingFailed | PairingTimeout | ControllerForget | ApplicationRequest

  /** A control frame, as far as its syntax and schema are right. */
  datatype Control =
    | Hello(id: Id, nonce: seq<byte>) | Auth(proof: seq<byte>) | PairRequest(version: nat, nonce: seq<byte>)
    | Commit(version: nat, proof: seq<byte>) | NoControl

  datatype Tag = DeviceProof | ClientProof | OkProof

  /** What one call of the environment answers. */
  datatype Reply = Reply(ok: bool, bytes: seq<byte>)

  /** The uninterpreted world: control syntax, proofs, keys, permissions and operations. */
  datatype World = World(
    parse: seq<byte> -> Control,
    handshake: (Secret, Tag, Id, seq<byte>, seq<byte>) -> Option<seq<byte>>,
    pairing: (nat, Secret, Tag, Id, seq<byte>, seq<byte>) -> Option<seq<byte>>,
    keys: (Secret, seq<byte>, seq<byte>) -> Option<(Secret, Secret)>,
    crypto: EnvelopeCodec.Crypto,
    allowed: (Role, seq<byte>, seq<byte>) -> bool,
    handle: (Role, EnvelopeCodec.Message) -> Option<seq<byte>>)

  datatype Controller = Controller(root: Secret, role: Role)

  /** The controller of a session, its keys and its counters. */
  datatype Peer = Peer(known: bool, role: Option<Role>, id: Id, root: Secret, clientNonce: seq<byte>, deviceNonce: seq<byte>,
                       incoming: Secret, outgoing: Secret, barrier: bool, expected: nat, next: nat)

  const NO_PEER: Peer := Peer(false, None, [], [], [], [], [], [], false, 1, 1)

  datatype Pending = Pending(id: Id, root: Secret, clientNonce: seq<byte>, deviceNonce: seq<byte>, role: Option<Role>, version: nat)

  const NO_PENDING: Pending := Pending([], [], [], [], None, 0)

  datatype Window = Window(role: Role, deadline: u32)

  datatype Timers = Timers(state: u32, closeAt: u32, closeAfterTransmit: bool, cause: Option<Cause>, backoffUntil: u32)

  datatype Ram = Ram(phase: Phase, secure: bool, window: Option<Window>, peer: Peer, pending: Pending, timers: Timers,
                     proofFailures: nat, completed: Option<Role>)

  /** History the proofs speak of. */
  datatype Sent = Sent(channel: nat, sequence: nat)
  datatype Log = Log(dispatched: seq<nat>, sent: seq<Sent>)
  datatype Grant = Grant(link: nat, role: Role, id: Id)
  datatype Stored = Stored(confirmation: int, link: nat, role: Role, id: Id)
  datatype Audit = Audit(link: nat, sessions: seq<Log>, grants: seq<Grant>, commits: seq<Stored>)

  datatype State = State(r: Ram, controllers: map<Id, Controller>, plan: seq<Reply>, a: Audit)

  // ----- the environment -----

  /** The next answer of a plan; an exhausted plan refuses. */
  function Answer(plan: seq<Reply>): (o: (seq<Reply>, Reply)) {
    if plan == [] then (plan, Reply(false, [])) else (plan[1..], plan[0])
  }

  function Ask(s: State): (o: (State, Reply))
    ensures o.0 == s.(plan := o.0.plan)
  {
    hide Answer;
    var (plan, reply) := Answer(s.plan);
    (s.(plan := plan), reply)
  }

  predicate AllZero(x: seq<byte>) {
    forall i :: 0 <= i < |x| ==> x[i] == 0
  }

  function WithRam(s: State, r: Ram): State { s.(r := r) }

  // ----- endings -----

  /** `clearPendingPairing`, `clearSessionSecrets`. */
  function Wiped(r: Ram): Ram { r.(pending := NO_PENDING, peer := NO_PEER) }

  /** `failAndClose`. */
  function FailAndClose(r: Ram, now: u32, cause: Cause): Ram {
    Wiped(r).(phase := Closing,
              timers := r.timers.(cause := if r.timers.cause == None then Some(cause) else r.timers.cause,
                                  closeAt := (now + CLOSE_DELAY_MS) % TWO_32, closeAfterTransmit := false))
  }

  /** `failProof`. */
  function FailProof(s: State, now: u32): State {
    var failures := if s.r.proofFailures < 255 then s.r.proofFailures + 1 else 255;
    var r := Wiped(s.r).(proofFailures := failures);
    var (s1, _) := Ask(s.(r := r));
    if failures >= PROOF_FAILURES
    then WithRam(s1, r.(phase := Closing,
                        timers := r.timers.(backoffUntil := (now + BACKOFF_MS) % TWO_32,
                                            closeAt := (now + CLOSE_DELAY_MS) % TWO_32, closeAfterTransmit := false,
                                            cause := Some(AuthenticationFailed))))
    else WithRam(s1, r.(phase := AwaitingHello))
  }

  // ----- link events -----

  /** `resetForSecureLink`. */
  function FreshLink(r: Ram, now: u32): Ram {
    Wiped(r).(phase := AwaitingHello,
              timers := Timers((now + HANDSHAKE_TIMEOUT_MS) % TWO_32, 0, false, None, 0))
  }

  predicate BackingOff(r: Ram, now: u32) {
    r.timers.backoffUntil != 0 && !Reached32(now, r.timers.backoffUntil)
  }

  /** `onSecureLinkEstablished`. */
  function LinkUp(s: State, secure: bool, now: u32): State {
    var s1 := s.(r := s.r.(secure := secure), a := s.a.(link := s.a.link + 1));
    if !secure then WithRam(s1, FailAndClose(s1.r, now, SecureLinkRejected))
    else if BackingOff(s1.r, now) then WithRam(s1, s1.r.(phase := Backoff))
    else WithRam(s1, FreshLink(s1.r, now))
  }

  function ExpireWindow(r: Ram, now: u32): Ram {
    if r.window.Some? && Reached32(now, r.window.value.deadline) then r.(window := None) else r
  }

  /** `onLinkClosed`. */
  function LinkDown(s: State, now: u32): State {
    var r := ExpireWindow(Wiped(s.r), now);
    WithRam(s, r.(secure := false, timers := Timers(0, 0, false, None, r.timers.backoffUntil),
                  phase := if r.timers.backoffUntil == 0 then Disconnected else Backoff))
  }

  /** `setPairingWindow`. */
  function OpenWindow(s: State, open: bool, remaining: u32, now: u32, role: Role): State {
    var wanted := open && 0 < remaining <= WINDOW_MAX_MS;
    var r := if s.r.phase == PairingPhysical || s.r.phase == PairingCommit
             then s.r.(pending := NO_PENDING, phase := AwaitingHello) else s.r;
    WithRam(s, r.(window := if wanted then Some(Window(role, (now + remaining) % TWO_32)) else None, completed := None))
  }

  /** `cancelPendingPairing`. */
  function CancelPairing(s: State): State {
    WithRam(s, s.r.(pending := NO_PENDING,
                    phase := if s.r.phase == PairingPhysical || s.r.phase == PairingCommit then AwaitingHello else s.r.phase))
  }

  /** `loop`. */
  function Loop(s: State, now: u32, idle: bool): State {
    var r := ExpireWindow(s.r, now);
    var waiting := r.phase in {AwaitingHello, AwaitingClientAuth, PairingPhysical, PairingCommit};
    var late := waiting && r.timers.state != 0 && Reached32(now, r.timers.state);
    var s1 := if late then Ask(s.(r := r)).0 else s.(r := r);
    var r1 := if late then FailAndClose(r, now, if r.phase == PairingPhysical || r.phase == PairingCommit then PairingTimeout
                                                else HandshakeTimeout) else r;
    WithRam(s1, LoopTimers(r1, now, idle))
  }

  /** The session closes its link in this pass of `loop`. */
  predicate Disconnects(r: Ram, now: u32, idle: bool) {
    r.phase == Closing
    && ((r.timers.closeAfterTransmit && idle) || (r.timers.closeAt != 0 && Reached32(now, r.timers.closeAt)))
  }

  function LoopTimers(r: Ram, now: u32, idle: bool): Ram {
    if Disconnects(r, now, idle) then r.(timers := r.timers.(closeAt := 0, closeAfterTransmit := false))
    else if r.phase == Backoff && r.timers.backoffUntil != 0 && Reached32(now, r.timers.backoffUntil)
    then r.(timers := r.timers.(backoffUntil := 0), phase := Disconnected)
    else r
  }

  // ----- handshake -----

  /** `handleClientHello`. */
  function HandleHello(w: World, s: State, id: Id, nonce: seq<byte>): (o: (State, bool)) {
    hide Answer;
    var p := s.r.peer.(id := id, clientNonce := nonce);
    if AllZero(id) then (s.(r := s.r.(peer := p)), false)
    else
      var known := id in s.controllers;
      var (s1, root) := if known then (s, Reply(true, s.controllers[id].root)) else Ask(s);
      var p1 := p.(known := known, role := if known then Some(s.controllers[id].role) else None);
      if !root.ok then (s1.(r := s.r.(peer := p1)), false)
      else
        var (s2, nonce2) := Ask(s1);
        var p2 := p1.(root := root.bytes, deviceNonce := nonce2.bytes);
        if !nonce2.ok || w.handshake(p2.root, DeviceProof, id, nonce, p2.deviceNonce) == None then (s2.(r := s.r.(peer := p2)), false)
        else
          var (s3, sent) := Ask(s2);
          if !sent.ok then (s3.(r := s.r.(peer := p2)), false)
          else (s3.(r := s.r.(peer := p2, phase := AwaitingClientAuth)), true)
  }

  /** The client's proof is right and everything for the session can be derived. */
  predicate AuthAccepted(w: World, p: Peer, proof: seq<byte>) {
    && p.known && w.handshake(p.root, ClientProof, p.id, p.clientNonce, p.deviceNonce) == Some(proof)
    && w.keys(p.root, p.clientNonce, p.deviceNonce).Some?
    && w.handshake(p.root, OkProof, p.id, p.clientNonce, p.deviceNonce).Some?
  }

  /** `handleClientAuth`. */
  function HandleAuth(w: World, s: State, proof: seq<byte>): (o: (State, bool)) {
    hide Answer;
    var p := s.r.peer;
    if !AuthAccepted(w, p, proof) then (s, false)
    else
      var keys := w.keys(p.root, p.clientNonce, p.deviceNonce).value;
      var (s1, raised) := Ask(s);
      var (s2, sent) := if raised.ok then Ask(s1) else (s1, raised);
      if !sent.ok then (s2, false)
      else
        (s2.(r := s.r.(phase := Authenticated, proofFailures := 0, timers := s.r.timers.(state := 0),
                       peer := p.(incoming := keys.0, outgoing := keys.1, root := [], expected := 1, next := 1)),
             a := s.a.(sessions := s.a.sessions + [Log([], [])])),
         true)
  }

  // ----- pairing -----

  function VersionFor(role: Role): nat { if role == Owner then 1 else 2 }

  /** `handlePairRequest`; requests outside a window are answered, not counted as failed proofs. */
  function HandlePairRequest(s: State, version: nat, nonce: seq<byte>, now: u32): (o: (State, bool)) {
    hide Answer;
    var pending := s.r.pending.(clientNonce := nonce);
    if s.r.window == None || Reached32(now, s.r.window.value.deadline)
    then (Ask(s).0.(r := s.r.(pending := NO_PENDING)), true)
    else if version != VersionFor(s.r.window.value.role) then (s.(r := s.r.(pending := pending)), false)
    else if |s.controllers| >= CONTROLLERS then (Ask(s).0.(r := s.r.(pending := NO_PENDING)), true)
    else
      var (s1, nonce2) := Ask(s);
      var p1 := pending.(deviceNonce := nonce2.bytes, version := version, role := Some(s.r.window.value.role));
      if !nonce2.ok then (s1.(r := s.r.(pending := pending)), false)
      else
        var (s2, sent) := Ask(s1);
        var r := s.r.(pending := p1, completed := None);
        if !sent.ok then (s2.(r := r), false)
        else (s2.(r := r.(phase := PairingPhysical, timers := r.timers.(state := s.r.window.value.deadline))), true)
  }

  /** Up to `tries` random controller ids; the first usable one. */
  function FreshId(s: State, tries: nat): (o: (State, Option<Id>))
    ensures o.0 == s.(plan := o.0.plan)
    ensures o.1.Some? ==> !AllZero(o.1.value) && o.1.value !in s.controllers
    decreases tries
  {
    hide Answer;
    if tries == 0 then (s, None)
    else
      var (s1, id) := Ask(s);
      if id.ok && !AllZero(id.bytes) && id.bytes !in s.controllers then (s1, Some(id.bytes)) else FreshId(s1, tries - 1)
  }

  /** What `confirmPendingPairing` demands before it asks for anything. */
  predicate Confirmable(r: Ram, now: u32) {
    && r.phase == PairingPhysical && r.window.Some? && !Reached32(now, r.timers.state) && r.secure
    && r.pending.role == Some(r.window.value.role) && r.pending.version == VersionFor(r.window.value.role)
  }

  /** The grant of a confirmed pairing: proof, then the frame. */
  function SendGrant(w: World, s: State, now: u32): (o: (State, bool))
    requires s.r.pending.role.Some?
  {
    hide Answer;
    var p := s.r.pending;
    if w.pairing(p.version, p.root, DeviceProof, p.id, p.clientNonce, p.deviceNonce) == None
    then (WithRam(s, FailAndClose(s.r, now, PairingFailed)), false)
    else
      var (s1, sent) := Ask(s);
      if !sent.ok then (WithRam(s1, FailAndClose(s1.r, now, ResponseSendFailed)), false)
      else (s1.(r := s1.r.(phase := PairingCommit), a := s1.a.(grants := s1.a.grants + [Grant(s.a.link, p.role.value, p.id)])), true)
  }

  /** `confirmPendingPairing`. */
  function Confirm(w: World, s: State, now: u32): (o: (State, bool)) {
    hide Answer, FreshId, SendGrant;
    if !Confirmable(s.r, now) then (s, false)
    else
      var (s1, root) := Ask(s);
      if !root.ok then (Ask(s1).0.(r := s.r.(pending := NO_PENDING)), false)
      else
        var (s2, id) := FreshId(s1, 8);
        if id == None then (WithRam(s2, FailAndClose(s.r, now, PairingFailed)), false)
        else SendGrant(w, WithRam(s2, s.r.(pending := s.r.pending.(root := root.bytes, id := id.value))), now)
  }

  /** The commit frame has the form and the proof that its pending pairing demands. */
  predicate CommitVerified(w: World, p: Pending, version: nat, proof: seq<byte>) {
    && p.role.Some? && p.version == VersionFor(p.role.value) && version == p.version
    && w.pairing(p.version, p.root, ClientProof, p.id, p.clientNonce, p.deviceNonce) == Some(proof)
    && w.pairing(p.version, p.root, OkProof, p.id, p.clientNonce, p.deviceNonce).Some?
  }

  /** `handlePairCommit`. */
  function HandleCommit(w: World, s: State, version: nat, proof: seq<byte>, now: u32): (o: (State, bool)) {
    hide Answer;
    var p := s.r.pending;
    if !CommitVerified(w, p, version, proof) then (s, false)
    else
      var full := p.id !in s.controllers && |s.controllers| >= CONTROLLERS;
      var (s1, stored) := if full then (s, Reply(false, [])) else Ask(s);
      if !stored.ok then (Ask(s1).0.(r := s.r.(pending := NO_PENDING)), false)
      else
        var (s2, sent) := Ask(s1);
        var r := s.r.(completed := p.role, pending := NO_PENDING, phase := AwaitingHello);
        (s2.(r := if sent.ok then r else FailAndClose(r, now, ResponseSendFailed),
             controllers := s.controllers[p.id := Controller(p.root, p.role.value)],
             a := s.a.(commits := s.a.commits + [Stored(|s.a.grants| - 1, s.a.link, p.role.value, p.id)])),
         sent.ok)
  }

  // ----- authenticated traffic -----

  function LastLog(a: Audit): Log {
    if a.sessions == [] then Log([], []) else a.sessions[|a.sessions| - 1]
  }

  function SetLastLog(a: Audit, log: Log): Audit {
    if a.sessions == [] then a else a.(sessions := a.sessions[|a.sessions| - 1 := log])
  }

  /** `sendAuthenticated`. */
  function SendEnvelope(w: World, s: State, channel: nat, requestId: seq<byte>, operation: seq<byte>, payload: seq<byte>): (o: (State, bool))
    requires channel <= 2
  {
    hide Answer, EnvelopeCodec.Encode;
    var p := s.r.peer;
    if s.r.phase != Authenticated || p.next >= SEQUENCE_MAX || |requestId| != 16 then (s, false)
    else
      var (s1, nonce) := Ask(s);
      if !nonce.ok || |nonce.bytes| != 16 then (s1, false)
      else
        var m := EnvelopeCodec.Message(channel, p.next, nonce.bytes, requestId, operation, payload);
        if EnvelopeCodec.Encode(w.crypto, m, p.outgoing, E.FRAME_MAXIMUM).Failed? then (s1, false)
        else
          var (s2, sent) := Ask(s1);
          if !sent.ok then (s2, false)
          else
            var log := LastLog(s.a);
            (s2.(r := s.r.(peer := p.(next := p.next + 1)),
                 a := SetLastLog(s.a, log.(sent := log.sent + [Sent(channel, p.next)]))),
             true)
  }

  /** A request that decodes under the expected number and is permitted. */
  function Accepted(w: World, p: Peer, json: seq<byte>): Option<EnvelopeCodec.Message> {
    hide EnvelopeCodec.Decode;
    var m := EnvelopeCodec.Decode(w.crypto, json, p.incoming, REQUEST, p.expected, E.PAYLOAD_MAXIMUM);
    if m.Ok? && p.role.Some? && w.allowed(p.role.value, m.value.operation, m.value.payload) && p.expected < SEQUENCE_MAX
    then Some(m.value) else None
  }

  /** Counts the request before it is executed. */
  function CountRequest(s: State): State {
    var p, log := s.r.peer, LastLog(s.a);
    s.(r := s.r.(peer := p.(expected := p.expected + 1)),
       a := SetLastLog(s.a, log.(dispatched := log.dispatched + [p.expected])))
  }

  const FORGET: seq<byte> := [
    99, 111, 110, 116, 114, 111, 108, 108, 101, 114, 46, 102, 111, 114, 103, 101, 116]

  const REJECTED: seq<byte> := [
    123, 34, 111, 107, 34, 58, 102, 97, 108, 115, 101, 44, 34, 101, 114, 114, 111, 114, 34, 58, 34, 114, 101, 113, 117,
    101, 115, 116, 95, 114, 101, 106, 101, 99, 116, 101, 100, 34, 125]

  /** The revocation of the session's own controller.  A failed one may still have removed it from the table in use. */
  function RevokeSelf(s: State, wanted: bool): (o: (State, bool)) {
    hide Answer;
    if !wanted then (s, false)
    else
      var (s1, revoked) := Ask(s);
      (if revoked.ok || revoked.bytes != [] then s1.(controllers := s.controllers - {s.r.peer.id}) else s1, revoked.ok)
  }

  /** `controller.forget`. */
  function HandleForget(w: World, s: State, m: EnvelopeCodec.Message, accepted: seq<byte>, rejected: seq<byte>, now: u32): (o: (State, bool)) {
    hide SendEnvelope, RevokeSelf;
    var (s1, revoked) := RevokeSelf(s, m.payload == [123, 125]);
    var (s2, sent) := SendEnvelope(w, s1, RESPONSE, m.requestId, m.operation, if revoked then accepted else rejected);
    if !sent then (WithRam(s2, FailAndClose(s2.r, now, ResponseSendFailed)), false)
    else if revoked || s.r.peer.id !in s1.controllers then
      (WithRam(s2, s2.r.(peer := NO_PEER, phase := Closing,
                         timers := s2.r.timers.(closeAfterTransmit := true, closeAt := (now + DRAIN_TIMEOUT_MS) % TWO_32,
                                                cause := Some(ControllerForget)))),
       true)
    else (s2, true)
  }

  /** Any other request: execute, answer, and only then open the way for events. */
  function HandleOperation(w: World, s: State, m: EnvelopeCodec.Message, now: u32): (o: (State, bool))
    requires s.r.peer.role.Some?
  {
    hide SendEnvelope;
    var answer := w.handle(s.r.peer.role.value, m);
    var payload := if answer.Some? && 0 < |answer.value| <= E.PAYLOAD_MAXIMUM then answer.value else REJECTED;
    var (s1, sent) := SendEnvelope(w, s, RESPONSE, m.requestId, m.operation, payload);
    if !sent then (WithRam(s1, FailAndClose(s1.r, now, ResponseSendFailed)), false)
    else (WithRam(s1, s1.r.(peer := s1.r.peer.(barrier := true))), true)
  }

  /** `handleAuthenticatedEnvelope`; the two receipts of `controller.forget` are parameters. */
  function HandleEnvelope(w: World, s: State, json: seq<byte>, accepted: seq<byte>, rejected: seq<byte>, now: u32): (o: (State, bool)) {
    hide Accepted, CountRequest, HandleForget, HandleOperation;
    var m := Accepted(w, s.r.peer, json);
    if m == None || s.r.peer.role == None then
      var r := s.r.(timers := s.r.timers.(backoffUntil := (now + BACKOFF_MS) % TWO_32));
      (WithRam(s, FailAndClose(r, now, SessionProtocolViolation)), false)
    else
      var s1 := CountRequest(s);
      if m.value.operation == FORGET then HandleForget(w, s1, m.value, accepted, rejected, now)
      else
        CountKeepsRole(s);
        HandleOperation(w, s1, m.value, now)
  }

  lemma CountKeepsRole(s: State)
    ensures CountRequest(s).r == s.r.(peer := s.r.peer.(expected := s.r.peer.expected + 1))
  {
  }

  /** `sendEvent`. */
  function SendEvent(w: World, s: State, operation: seq<byte>, payload: seq<byte>): (o: (State, bool)) {
    hide Answer, SendEnvelope;
    if !s.r.peer.barrier then (s, false)
    else
      var (s1, id) := Ask(s);
      if !id.ok then (s1, false) else SendEnvelope(w, s1, EVENT, id.bytes, operation, payload)
  }

  // ----- frames -----

  /** What `onFrame` does in each phase. */
  function Dispatch(w: World, s: State, json: seq<byte>, accepted: seq<byte>, rejected: seq<byte>, now: u32): (o: (State, bool)) {
    hide HandleHello, HandleAuth, HandlePairRequest, HandleCommit, HandleEnvelope;
    var c := w.parse(json);
    if s.r.phase == AwaitingHello && c.Hello? then HandleHello(w, s, c.id, c.nonce)
    else if s.r.phase == AwaitingHello && c.PairRequest? then HandlePairRequest(s, c.version, c.nonce, now)
    else if s.r.phase == AwaitingClientAuth && c.Auth? then HandleAuth(w, s, c.proof)
    else if s.r.phase == Authenticated then HandleEnvelope(w, s, json, accepted, rejected, now)
    else if s.r.phase == PairingCommit && c.Commit? then HandleCommit(w, s, c.version, c.proof, now)
    else (s, false)
  }

  /** `onFrame`. */
  function OnFrame(w: World, s: State, json: seq<byte>, accepted: seq<byte>, rejected: seq<byte>, now: u32): State {
    hide Answer, Dispatch, FailProof;
    if json == [] || !s.r.secure
    then WithRam(s, FailAndClose(s.r, now, if s.r.secure then SessionProtocolViolation else SecureLinkRejected))
    else if (s.r.phase == AwaitingHello || s.r.phase == AwaitingClientAuth) && Reached32(now, s.r.timers.state)
    then WithRam(Ask(s).0, FailAndClose(s.r, now, HandshakeTimeout))
    else
      var (s1, handled) := Dispatch(w, s, json, accepted, rejected, now);
      if !handled && s1.r.phase != Closing then FailProof(s1, now) else s1
  }

  datatype Event =
    | Up(secure: bool, now: u32)
    | Down(now: u32)
    | Pairing(open: bool, remaining: u32, now: u32, role: Role)
    | Frame(json: seq<byte>, now: u32)
    | Confirmed(now: u32)
    | Cancelled
    | Emit(operation: seq<byte>, payload: seq<byte>)
    | Tick(now: u32, idle: bool)
    | Supply(plan: seq<Reply>)

  /** One event in the life of a begun session object; `Supply` renews the environment's answers. */
  function Step(w: World, accepted: seq<byte>, rejected: seq<byte>, s: State, e: Event): State {
    hide LinkUp, LinkDown, OpenWindow, OnFrame, Confirm, CancelPairing, SendEvent, Loop;
    match e
    case Up(secure, now) => LinkUp(s, secure, now)
    case Down(now) => LinkDown(s, now)
    case Pairing(open, remaining, now, role) => OpenWindow(s, open, remaining, now, role)
    case Frame(json, now) => OnFrame(w, s, json, accepted, rejected, now)
    case Confirmed(now) => Confirm(w, s, now).0
    case Cancelled => CancelPairing(s)
    case Emit(operation, payload) => SendEvent(w, s, operation, payload).0
    case Tick(now, idle) => Loop(s, now, idle)
    case Supply(plan) => s.(plan := plan)
  }

  function Run(w: World, accepted: seq<byte>, rejected: seq<byte>, s: State, events: seq<Event>): State
    decreases |events|
  {
    if events == [] then s
    else Step(w, accepted, rejected, Run(w, accepted, rejected, s, events[..|events| - 1]), events[|events| - 1])
  }

  /** A session object after `begin`. */
  ghost predicate Begun(s: State) {
    && s.r == Ram(Disconnected, false, None, NO_PEER, NO_PENDING, Timers(0, 0, false, None, 0), 0, None)
    && s.a == Audit(0, [], [], [])
  }
}
