/** Printing, parsing and authenticating whole envelopes. */
module EnvelopeCodec {
  import opened Bytes
  import opened Envelope
  import Base64Url
  import Utf8

  type Key = seq<byte>
  type Mac32 = m: seq<byte> | |m| == MAC_BYTES witness Repeat<byte>(0, MAC_BYTES)

  /** HMAC-SHA-256 (which may fail) and the inner JSON validator. */
  datatype Crypto = Crypto(hmac: (Key, seq<byte>) -> Option<Mac32>, json: seq<byte> -> bool)

  datatype Message = Message(channel: nat, sequence: nat, nonce: seq<byte>, requestId: seq<byte>, operation: seq<byte>,
                             payload: seq<byte>)

  predicate OperationChar(c: byte) {
    97 <= c <= 122 || 65 <= c <= 90 || 48 <= c <= 57 || c == 46 || c == 95 || c == 45 || c == 47
  }

  /** `operationValid`. */
  predicate OperationValid(op: seq<byte>) {
    0 < |op| <= OPERATION_MAXIMUM && forall i :: 0 <= i < |op| ==> OperationChar(op[i])
  }

  // ----- what the MAC covers -----

  const DOMAIN: seq<byte> := [75, 73, 84, 83, 85, 45, 69, 78, 86, 45, 49, 0]

  predicate Fits(m: Message) {
    && m.channel < 256 && m.sequence < TWO_64 && |m.nonce| == NONCE_BYTES && |m.requestId| == NONCE_BYTES
    && |m.operation| < 0x1_0000 && |m.payload| < TWO_32
  }

  /** The length-prefixed transcript of `calculateEnvelopeMac`. */
  function Transcript(m: Message): seq<byte>
    requires Fits(m)
  {
    DOMAIN + [m.channel] + Be64(m.sequence) + m.nonce + m.requestId + Be16(|m.operation|) + m.operation
    + Be32(|m.payload|) + m.payload
  }

  /** No two messages share a transcript. */
  lemma TranscriptInjective(m: Message, n: Message)
    requires Fits(m) && Fits(n) && Transcript(m) == Transcript(n)
    ensures m == n
  {
    hide Be16, Be32, Be64;
    TranscriptParts(m);
    TranscriptParts(n);
    Be64Injective(m.sequence, n.sequence);
    Be16Injective(|m.operation|, |n.operation|);
    Be32Injective(|m.payload|, |n.payload|);
  }

  lemma TranscriptParts(m: Message)
    requires Fits(m)
    ensures var t, k := Transcript(m), 55 + |m.operation|;
      && |t| == k + 4 + |m.payload| && t[12] == m.channel && t[13..21] == Be64(m.sequence) && t[21..37] == m.nonce
      && t[37..53] == m.requestId && t[53..55] == Be16(|m.operation|) && t[55..k] == m.operation
      && t[k..k + 4] == Be32(|m.payload|) && t[k + 4..] == m.payload
  {
    hide Be16, Be32, Be64;
    var a := DOMAIN + [m.channel] + Be64(m.sequence) + m.nonce + m.requestId + Be16(|m.operation|);
    assert |DOMAIN| == 12 && |a| == 55;
    assert a[12] == m.channel && a[13..21] == Be64(m.sequence) && a[21..37] == m.nonce;
    assert a[37..53] == m.requestId && a[53..55] == Be16(|m.operation|);
    var t := Transcript(m);
    assert t == a + (m.operation + Be32(|m.payload|) + m.payload);
    assert t[..55] == a;
    Within(t, 55, 13, 21);
    Within(t, 55, 21, 37);
    Within(t, 55, 37, 53);
    Within(t, 55, 53, 55);
  }

  lemma Within(t: seq<byte>, n: nat, i: nat, j: nat)
    requires i <= j <= n <= |t|
    ensures t[i..j] == t[..n][i..j]
  {
  }

  function MacOf(c: Crypto, key: Key, m: Message): Option<Mac32>
    requires Fits(m)
  {
    c.hmac(key, Transcript(m))
  }

  // ----- encoding -----

  function Joint(field: nat): seq<byte> {
    [QUOTE, COMMA, QUOTE] + Name(field) + [QUOTE, COLON, QUOTE]
  }

  /** The text `encodeEnvelope` writes, literal by literal. */
  function Text(m: Message, mac: seq<byte>): seq<byte>
    requires m.channel <= 9
  {
    hide Ascii, Decimal, Base64Url.Encode;
    Ascii("{\"v\":1,\"channel\":") + [48 + m.channel] + Ascii(",\"seq\":\"") + Decimal(m.sequence)
    + Ascii("\",\"nonce_b64\":\"") + Base64Url.Encode(m.nonce) + Ascii("\",\"request_id_b64\":\"")
    + Base64Url.Encode(m.requestId) + Ascii("\",\"op\":\"") + m.operation + Ascii("\",\"payload_b64\":\"")
    + Base64Url.Encode(m.payload) + Ascii("\",\"mac_b64\":\"") + Base64Url.Encode(mac) + Ascii("\"}")
  }

  /** `encodeEnvelope`. */
  function Encode(c: Crypto, m: Message, key: Key, capacity: nat): Result<seq<byte>>
    requires |m.nonce| == NONCE_BYTES && |m.requestId| == NONCE_BYTES && m.sequence < TWO_64 && m.channel < 256
  {
    hide Text, Transcript, OperationValid, Utf8.Valid;
    if m.channel > 2 then Failed(InvalidChannel)
    else if m.sequence == 0 then Failed(InvalidSequence)
    else if !OperationValid(m.operation) then Failed(InvalidOperation)
    else if |m.payload| > PAYLOAD_MAXIMUM then Failed(PayloadTooLarge)
    else if !Utf8.Valid(m.payload) || !c.json(m.payload) then Failed(InvalidPayloadJson)
    else
      OperationFits(m.operation);
      var mac := MacOf(c, key, m);
      if mac == None then Failed(CryptoFailed)
      else if |Text(m, mac.value)| > capacity then Failed(OutputTooSmall)
      else Ok(Text(m, mac.value))
  }

  lemma OperationFits(op: seq<byte>)
    requires OperationValid(op)
    ensures 0 < |op| <= OPERATION_MAXIMUM
  {
  }

  /** Every envelope fits a frame: 16256 octets are the most there can be. */
  lemma EnvelopeFits(m: Message, mac: Mac32)
    requires m.channel <= 2 && m.sequence < TWO_64 && |m.nonce| == NONCE_BYTES && |m.requestId| == NONCE_BYTES
    requires |m.operation| <= OPERATION_MAXIMUM && |m.payload| <= PAYLOAD_MAXIMUM
    ensures |Text(m, mac)| <= 16256 < FRAME_MAXIMUM
    ensures |m.operation| == OPERATION_MAXIMUM && |m.payload| == PAYLOAD_MAXIMUM && |Decimal(m.sequence)| == 20 ==>
      |Text(m, mac)| == 16256
  {
    hide Decimal, Ascii, Base64Url.Encode;
    DecimalFits(m.sequence);
    assert Base64Url.EncodedBytes(16) == 22 && Base64Url.EncodedBytes(32) == 43 && Base64Url.EncodedBytes(12000) == 16000;
    assert Base64Url.EncodedBytes(|m.payload|) <= 16000;
  }

  // ----- decoding -----

  /** A base64url field of fixed length. */
  function Octets(text: seq<byte>, n: nat): Option<seq<byte>> {
    if |text| != Base64Url.EncodedBytes(n) then None
    else
      var x := Base64Url.Decode(text);
      if x.Some? && |x.value| == n then x else None
  }

  /** The checks before the payload: version, channel, sequence, nonce, request id, operation. */
  function DecodeHead(f: Members, channel: nat, sequence: nat): (r: Result<Message>)
    requires Complete(f)
    ensures r.Ok? ==> r.value.channel == channel && r.value.sequence == sequence && 0 < sequence < TWO_64
                      && |r.value.nonce| == NONCE_BYTES && |r.value.requestId| == NONCE_BYTES
                      && OperationValid(r.value.operation) && channel < 3
  {
    hide OperationValid, Octets, ParseDecimal;
    if f[VERSION] != [49] then Failed(UnsupportedVersion)
    else if |f[CHANNEL]| != 1 || f[CHANNEL][0] < 48 || f[CHANNEL][0] > 50 || f[CHANNEL][0] - 48 != channel then Failed(InvalidChannel)
    else if ParseDecimal(f[SEQUENCE]) == None then Failed(InvalidSequence)
    else if ParseDecimal(f[SEQUENCE]).value != sequence then Failed(UnexpectedSequence)
    else if Octets(f[NONCE], NONCE_BYTES) == None || Octets(f[REQUEST_ID], NONCE_BYTES) == None then Failed(InvalidBase64)
    else if !OperationValid(f[OPERATION]) then Failed(InvalidOperation)
    else
      OctetsLength(f[NONCE], NONCE_BYTES);
      OctetsLength(f[REQUEST_ID], NONCE_BYTES);
      Ok(Message(channel, sequence, Octets(f[NONCE], NONCE_BYTES).value, Octets(f[REQUEST_ID], NONCE_BYTES).value,
                 f[OPERATION], []))
  }

  lemma OctetsLength(text: seq<byte>, n: nat)
    ensures Octets(text, n).Some? ==> |Octets(text, n).value| == n
  {
  }

  /** Payload, MAC and the inner text. */
  function DecodeBody(c: Crypto, f: Members, head: Message, key: Key, capacity: nat): (r: Result<Message>)
    requires Complete(f) && head.channel < 256 && head.sequence < TWO_64 && OperationValid(head.operation)
    requires |head.nonce| == NONCE_BYTES && |head.requestId| == NONCE_BYTES
  {
    hide OperationValid, Octets, Transcript, Utf8.Valid, Base64Url.Decode, Base64Url.DecodedBytes;
    var n := Base64Url.DecodedBytes(|f[PAYLOAD]|);
    var payload := Base64Url.Decode(f[PAYLOAD]);
    if n > PAYLOAD_MAXIMUM || n > capacity then Failed(PayloadTooLarge)
    else if payload == None || Octets(f[MAC], MAC_BYTES) == None then Failed(InvalidBase64)
    else
      OperationFits(head.operation);
      var m := head.(payload := payload.value);
      var mac := MacOf(c, key, m);
      if mac == None then Failed(CryptoFailed)
      else if mac.value != Octets(f[MAC], MAC_BYTES).value then Failed(AuthenticationFailed)
      else if !Utf8.Valid(m.payload) then Failed(InvalidPayloadUtf8)
      else if !c.json(m.payload) then Failed(InvalidPayloadJson)
      else Ok(m)
  }

  /** `decodeAndVerifyEnvelope`. */
  function Decode(c: Crypto, t: seq<byte>, key: Key, channel: nat, sequence: nat, capacity: nat): Result<Message> {
    hide ParseObject, DecodeHead, DecodeBody;
    if t == [] then Failed(InvalidArgument)
    else if |t| > FRAME_MAXIMUM then Failed(PayloadTooLarge)
    else
      var fields := ParseObject(t);
      if fields.Failed? then Failed(fields.error)
      else
        var head := DecodeHead(fields.value, channel, sequence);
        if head.Failed? then head else DecodeBody(c, fields.value, head.value, key, capacity)
  }

  // ----- round trip -----

  /** The members of an envelope in printing order. */
  function Entries(m: Message, mac: seq<byte>): (es: seq<Entry>)
    requires m.channel <= 9
    ensures |es| == 8
  {
    [Entry(VERSION, [49]), Entry(CHANNEL, [48 + m.channel]), Entry(SEQUENCE, Decimal(m.sequence)),
     Entry(NONCE, Base64Url.Encode(m.nonce)), Entry(REQUEST_ID, Base64Url.Encode(m.requestId)),
     Entry(OPERATION, m.operation), Entry(PAYLOAD, Base64Url.Encode(m.payload)), Entry(MAC, Base64Url.Encode(mac))]
  }

  /** The members from a string member on, without its leading quote and name. */
  function StringsText(es: seq<Entry>): seq<byte>
    requires es != []
  {
    es[0].value + if |es| == 1 then [QUOTE, CLOSE] else Joint(es[1].field) + StringsText(es[1..])
  }

  lemma {:induction false} StringsAreMembers(es: seq<Entry>)
    requires es != [] && forall k :: 0 <= k < |es| ==> !Numeric(es[k].field)
    ensures MembersText(es, CLOSE) == [QUOTE] + Name(es[0].field) + [QUOTE, COLON, QUOTE] + StringsText(es)
  {
    hide Name;
    var lead := [QUOTE] + Name(es[0].field) + [QUOTE, COLON];
    var value := es[0].value;
    if |es| == 1 {
      ReflowLast(lead, value);
    } else {
      StringsAreMembers(es[1..]);
      var rest := StringsText(es[1..]);
      assert es[1..][0] == es[1];
      Reflow(lead, value, Name(es[1].field), rest);
    }
  }

  lemma ReflowLast(lead: seq<byte>, value: seq<byte>)
    ensures lead + ([QUOTE] + value + [QUOTE]) + [CLOSE] == lead + [QUOTE] + (value + [QUOTE, CLOSE])
  {
  }

  lemma Reflow(lead: seq<byte>, value: seq<byte>, name: seq<byte>, rest: seq<byte>)
    ensures lead + ([QUOTE] + value + [QUOTE]) + ([COMMA] + ([QUOTE] + name + [QUOTE, COLON, QUOTE] + rest))
         == lead + [QUOTE] + (value + (([QUOTE, COMMA, QUOTE] + name + [QUOTE, COLON, QUOTE]) + rest))
  {
  }

  lemma NonceLiteral()
    ensures Ascii("\",\"nonce_b64\":\"") == Joint(NONCE)
  {
  }

  lemma RequestLiteral()
    ensures Ascii("\",\"request_id_b64\":\"") == Joint(REQUEST_ID)
  {
  }

  lemma OperationLiteral()
    ensures Ascii("\",\"op\":\"") == Joint(OPERATION)
  {
  }

  lemma PayloadLiteral()
    ensures Ascii("\",\"payload_b64\":\"") == Joint(PAYLOAD)
  {
  }

  lemma MacLiteral()
    ensures Ascii("\",\"mac_b64\":\"") == Joint(MAC)
    ensures Ascii("\"}") == [QUOTE, CLOSE]
  {
  }

  lemma VersionLiteral()
    ensures Ascii("{\"v\":1,\"channel\":")
         == [OPEN, QUOTE] + Name(VERSION) + [QUOTE, COLON, 49, COMMA, QUOTE] + Name(CHANNEL) + [QUOTE, COLON]
  {
  }

  lemma SequenceLiteral()
    ensures Ascii(",\"seq\":\"") == [COMMA, QUOTE] + Name(SEQUENCE) + [QUOTE, COLON, QUOTE]
  {
  }

  /** A value and the literal behind it, in front of the rest of the text. */
  function Before(value: seq<byte>, joint: seq<byte>, rest: seq<byte>): seq<byte> {
    value + (joint + rest)
  }

  lemma StringsStep(es: seq<Entry>)
    requires |es| > 1
    ensures StringsText(es) == Before(es[0].value, Joint(es[1].field), StringsText(es[1..]))
  {
  }

  lemma StringsOfEnvelope(m: Message, mac: seq<byte>)
    requires m.channel <= 9
    ensures StringsText(Entries(m, mac)[2..])
         == Before(Decimal(m.sequence), Joint(NONCE), Before(Base64Url.Encode(m.nonce), Joint(REQUEST_ID),
            Before(Base64Url.Encode(m.requestId), Joint(OPERATION), Before(m.operation, Joint(PAYLOAD),
            Before(Base64Url.Encode(m.payload), Joint(MAC), Base64Url.Encode(mac) + [QUOTE, CLOSE])))))
  {
    hide Decimal, Base64Url.Encode, Joint, StringsText, Before;
    var es := Entries(m, mac)[2..];
    assert es[1..][1..] == es[2..] && es[2..][1..] == es[3..] && es[3..][1..] == es[4..] && es[4..][1..] == es[5..];
    StringsStep(es);
    StringsStep(es[1..]);
    StringsStep(es[2..]);
    StringsStep(es[3..]);
    StringsStep(es[4..]);
    LastString(es[5..]);
  }

  lemma LastString(es: seq<Entry>)
    requires |es| == 1
    ensures StringsText(es) == es[0].value + [QUOTE, CLOSE]
  {
  }

  lemma Regroup(x: seq<byte>, value: seq<byte>, joint: seq<byte>, rest: seq<byte>)
    ensures x + value + joint + rest == x + Before(value, joint, rest)
  {
  }

  /** The literals and values in the order they are written, grouped from the right. */
  lemma RegroupAll(x: seq<byte>, d: seq<byte>, j1: seq<byte>, n: seq<byte>, j2: seq<byte>, r: seq<byte>, j3: seq<byte>,
                   o: seq<byte>, j4: seq<byte>, p: seq<byte>, j5: seq<byte>, mac: seq<byte>, q: seq<byte>)
    ensures x + d + j1 + n + j2 + r + j3 + o + j4 + p + j5 + mac + q
         == x + Before(d, j1, Before(n, j2, Before(r, j3, Before(o, j4, Before(p, j5, mac + q)))))
  {
    hide Before;
    var x1 := x + d + j1;
    var x2 := x1 + n + j2;
    var x3 := x2 + r + j3;
    var x4 := x3 + o + j4;
    var s5 := mac + q;
    assert x4 + p + j5 + mac + q == x4 + p + j5 + s5;
    Regroup(x4, p, j5, s5);
    var s4 := Before(p, j5, s5);
    Regroup(x3, o, j4, s4);
    var s3 := Before(o, j4, s4);
    Regroup(x2, r, j3, s3);
    var s2 := Before(r, j3, s3);
    Regroup(x1, n, j2, s2);
    Regroup(x, d, j1, Before(n, j2, s2));
  }

  /** The first three members around their names. */
  lemma RegroupHead(v: seq<byte>, c: seq<byte>, s: seq<byte>, channel: byte, rest: seq<byte>)
    ensures ([OPEN, QUOTE] + v + [QUOTE, COLON, 49, COMMA, QUOTE] + c + [QUOTE, COLON]) + [channel]
            + ([COMMA, QUOTE] + s + [QUOTE, COLON, QUOTE]) + rest
         == [OPEN] + (([QUOTE] + v + [QUOTE, COLON] + [49]) + ([COMMA] + (([QUOTE] + c + [QUOTE, COLON] + [channel])
            + ([COMMA] + ([QUOTE] + s + [QUOTE, COLON, QUOTE] + rest)))))
  {
  }

  lemma HeadMembers(m: Message, mac: seq<byte>)
    requires m.channel <= 9
    ensures var es := Entries(m, mac);
      ObjectText(es) == [OPEN] + (([QUOTE] + Name(VERSION) + [QUOTE, COLON] + [49])
        + ([COMMA] + (([QUOTE] + Name(CHANNEL) + [QUOTE, COLON] + [48 + m.channel]) + ([COMMA] + MembersText(es[2..], CLOSE)))))
  {
    hide Decimal, Base64Url.Encode, Name;
    var es := Entries(m, mac);
    assert es[1..][1..] == es[2..] && es[1..][0] == es[1];
    assert MembersText(es[1..], CLOSE) == MemberText(CHANNEL, [48 + m.channel]) + ([COMMA] + MembersText(es[2..], CLOSE));
  }

  function HeadText(m: Message): seq<byte>
    requires m.channel <= 9
  {
    Ascii("{\"v\":1,\"channel\":") + [48 + m.channel] + Ascii(",\"seq\":\"")
  }

  lemma TextGrouped(m: Message, mac: seq<byte>)
    requires m.channel <= 9
    ensures Text(m, mac) == HeadText(m) + StringsText(Entries(m, mac)[2..])
  {
    hide Decimal, Base64Url.Encode, Joint, Name, Ascii, StringsText, Before;
    NonceLiteral();
    RequestLiteral();
    OperationLiteral();
    PayloadLiteral();
    MacLiteral();
    StringsOfEnvelope(m, mac);
    RegroupAll(HeadText(m), Decimal(m.sequence), Joint(NONCE), Base64Url.Encode(m.nonce), Joint(REQUEST_ID),
               Base64Url.Encode(m.requestId), Joint(OPERATION), m.operation, Joint(PAYLOAD), Base64Url.Encode(m.payload),
               Joint(MAC), Base64Url.Encode(mac), [QUOTE, CLOSE]);
  }

  /** What the printer writes is an object with the envelope's members. */
  lemma TextIsObject(m: Message, mac: seq<byte>)
    requires m.channel <= 9
    ensures Text(m, mac) == ObjectText(Entries(m, mac))
  {
    hide Text, Decimal, Base64Url.Encode, Name, Ascii, StringsText, MembersText, ObjectText;
    var es := Entries(m, mac);
    TextGrouped(m, mac);
    VersionLiteral();
    SequenceLiteral();
    assert forall k :: 0 <= k < 6 ==> es[2..][k].field == k + 2;
    StringsAreMembers(es[2..]);
    HeadMembers(m, mac);
    RegroupHead(Name(VERSION), Name(CHANNEL), Name(SEQUENCE), 48 + m.channel, StringsText(es[2..]));
  }

  lemma {:induction false} Base64IsSimple(x: seq<byte>)
    ensures forall i :: 0 <= i < |Base64Url.Encode(x)| ==> Simple(Base64Url.Encode(x)[i])
  {
    LettersAreSimple();
    if |x| >= 3 {
      Base64IsSimple(x[3..]);
      hide Base64Url.Letter;
      var q := Base64Url.Quad(x[0], x[1], x[2]);
      assert Base64Url.Encode(x) == q + Base64Url.Encode(x[3..]);
    }
  }

  lemma LettersAreSimple()
    ensures forall v: Base64Url.sextet :: Simple(Base64Url.Letter(v))
  {
  }

  lemma DigitsAreSimple(t: seq<byte>)
    requires forall i :: 0 <= i < |t| ==> Digit(t[i])
    ensures forall i :: 0 <= i < |t| ==> Simple(t[i])
  {
  }

  lemma OperationIsSimple(op: seq<byte>)
    requires OperationValid(op)
    ensures forall i :: 0 <= i < |op| ==> Simple(op[i])
  {
    forall i | 0 <= i < |op| ensures Simple(op[i]) { assert OperationChar(op[i]); }
  }

  lemma EntriesPrint(m: Message, mac: seq<byte>)
    requires m.channel <= 2 && OperationValid(m.operation)
    ensures Distinct(Entries(m, mac))
  {
    hide Base64Url.Encode, Decimal;
    DigitsAreSimple(Decimal(m.sequence));
    OperationIsSimple(m.operation);
    Base64IsSimple(m.nonce);
    Base64IsSimple(m.requestId);
    Base64IsSimple(m.payload);
    Base64IsSimple(mac);
    var es := Entries(m, mac);
    assert forall k :: 0 <= k < 8 ==> es[k].field == k;
    assert Printable(VERSION, es[0].value) && Printable(CHANNEL, es[1].value) && Printable(SEQUENCE, es[2].value);
    assert Printable(NONCE, es[3].value) && Printable(REQUEST_ID, es[4].value) && Printable(OPERATION, es[5].value);
    assert Printable(PAYLOAD, es[6].value) && Printable(MAC, es[7].value);
  }

  /** Distinct members are all collected. */
  lemma {:induction false} CollectedHolds(es: seq<Entry>, members: Members)
    requires Distinct(es) && forall k :: 0 <= k < |es| ==> es[k].field !in members
    ensures forall k :: 0 <= k < |es| ==> es[k].field in Collected(es, members) && Collected(es, members)[es[k].field] == es[k].value
    ensures forall f :: f in members ==> f in Collected(es, members) && Collected(es, members)[f] == members[f]
  {
    hide Printable;
    if es != [] {
      CollectedHolds(es[1..], members[es[0].field := es[0].value]);
      forall k | 0 <= k < |es|
        ensures es[k].field in Collected(es, members) && Collected(es, members)[es[k].field] == es[k].value
      {
        if k > 0 { assert es[k] == es[1..][k - 1]; }
      }
    }
  }

  lemma EntriesCollect(m: Message, mac: seq<byte>)
    requires m.channel <= 2 && OperationValid(m.operation)
    ensures var f := Collected(Entries(m, mac), map[]);
      && Complete(f)
      && f[VERSION] == [49] && f[CHANNEL] == [48 + m.channel] && f[SEQUENCE] == Decimal(m.sequence)
      && f[NONCE] == Base64Url.Encode(m.nonce) && f[REQUEST_ID] == Base64Url.Encode(m.requestId)
      && f[OPERATION] == m.operation && f[PAYLOAD] == Base64Url.Encode(m.payload) && f[MAC] == Base64Url.Encode(mac)
  {
    hide Base64Url.Encode, Decimal, OperationValid, Collected;
    EntriesPrint(m, mac);
    CollectedHolds(Entries(m, mac), map[]);
    var es := Entries(m, mac);
    assert es[0].field == VERSION && es[1].field == CHANNEL && es[2].field == SEQUENCE && es[3].field == NONCE;
    assert es[4].field == REQUEST_ID && es[5].field == OPERATION && es[6].field == PAYLOAD && es[7].field == MAC;
  }

  lemma OctetsBack(x: seq<byte>)
    ensures Octets(Base64Url.Encode(x), |x|) == Some(x)
  {
    Base64Url.DecodeEncode(x);
  }

  /** Decoding what was encoded, under the same key, channel and sequence, gives the same message. */
  lemma DecodeEncoded(c: Crypto, m: Message, key: Key, capacity: nat, payloadCapacity: nat)
    requires |m.nonce| == NONCE_BYTES && |m.requestId| == NONCE_BYTES && m.sequence < TWO_64 && m.channel < 256
    requires Encode(c, m, key, capacity).Ok? && |m.payload| <= payloadCapacity
    ensures Decode(c, Encode(c, m, key, capacity).value, key, m.channel, m.sequence, payloadCapacity) == Ok(m)
  {
    hide Text, ParseObject, DecodeHead, DecodeBody, OperationValid, Transcript, Utf8.Valid, Collected, MembersText, Entries, Complete,
         Distinct, Base64Url.Encode, Decimal;
    OperationFits(m.operation);
    var mac := MacOf(c, key, m).value;
    var t := Text(m, mac);
    EnvelopeFits(m, mac);
    TextIsObject(m, mac);
    EntriesPrint(m, mac);
    ObjectBack(Entries(m, mac));
    EntriesCollect(m, mac);
    var f := Collected(Entries(m, mac), map[]);
    assert ParseObject(t) == Ok(f);
    HeadBack(m, f);
    BodyBack(c, m, f, mac, key, payloadCapacity);
  }

  lemma HeadBack(m: Message, f: Members)
    requires m.channel <= 2 && 0 < m.sequence < TWO_64 && |m.nonce| == NONCE_BYTES && |m.requestId| == NONCE_BYTES
    requires OperationValid(m.operation) && Complete(f)
    requires f[VERSION] == [49] && f[CHANNEL] == [48 + m.channel] && f[SEQUENCE] == Decimal(m.sequence)
    requires f[NONCE] == Base64Url.Encode(m.nonce) && f[REQUEST_ID] == Base64Url.Encode(m.requestId) && f[OPERATION] == m.operation
    ensures DecodeHead(f, m.channel, m.sequence) == Ok(m.(payload := []))
  {
    hide OperationValid, Octets, ParseDecimal, Decimal, Base64Url.Encode;
    ParseFormat(m.sequence);
    OctetsBack(m.nonce);
    OctetsBack(m.requestId);
  }

  lemma BodyBack(c: Crypto, m: Message, f: Members, mac: Mac32, key: Key, capacity: nat)
    requires m.channel <= 2 && 0 < m.sequence < TWO_64 && |m.nonce| == NONCE_BYTES && |m.requestId| == NONCE_BYTES
    requires OperationValid(m.operation) && Complete(f) && |m.payload| <= PAYLOAD_MAXIMUM && |m.payload| <= capacity
    requires 0 < |m.operation| <= OPERATION_MAXIMUM && MacOf(c, key, m) == Some(mac) && Utf8.Valid(m.payload) && c.json(m.payload)
    requires f[PAYLOAD] == Base64Url.Encode(m.payload) && f[MAC] == Base64Url.Encode(mac)
    ensures DecodeBody(c, f, m.(payload := []), key, capacity) == Ok(m)
  {
    hide OperationValid, Octets, Transcript, Utf8.Valid, Base64Url.Encode, Base64Url.Decode;
    Base64Url.DecodeEncode(m.payload);
    OctetsBack(mac);
    assert m.(payload := []).(payload := m.payload) == m;
  }

  /** An accepted envelope is for the expected channel and sequence, is well formed inside, and carries a MAC over exactly
      the message it yields. */
  lemma AcceptedIsAuthentic(c: Crypto, t: seq<byte>, key: Key, channel: nat, sequence: nat, capacity: nat)
    requires Decode(c, t, key, channel, sequence, capacity).Ok?
    ensures var m := Decode(c, t, key, channel, sequence, capacity).value;
      && Fits(m) && m.channel == channel && m.sequence == sequence && |m.payload| <= PAYLOAD_MAXIMUM && |m.payload| <= capacity
      && OperationValid(m.operation) && Utf8.Valid(m.payload) && c.json(m.payload)
      && ParseObject(t).Ok? && Octets(ParseObject(t).value[MAC], MAC_BYTES) == MacOf(c, key, m)
  {
    hide ParseObject, OperationValid, Octets, Transcript, Utf8.Valid, Base64Url.Decode, Base64Url.DecodedBytes;
    var f := ParseObject(t).value;
    var head := DecodeHead(f, channel, sequence).value;
    OperationFits(head.operation);
    OctetsLength(f[MAC], MAC_BYTES);
  }
}
