/** The envelope code in its own form: cursor loops over the text and a writer over a bounded buffer. */
module EnvelopeIo {
  import opened Bytes
  import opened Envelope
  import opened EnvelopeCodec
  import Base64Url
  import Utf8

  // ----- decimals -----

  lemma DecimalStep(n: nat)
    ensures Decimal(n) == if n < 10 then [48 + n] else Decimal(n / 10) + [48 + n % 10]
  {
  }

  function Reversed(t: seq<byte>): (r: seq<byte>)
    ensures |r| == |t|
  {
    if t == [] then [] else [t[|t| - 1]] + Reversed(t[..|t| - 1])
  }

  lemma {:induction false} ReversedAt(t: seq<byte>, k: nat)
    requires k < |t|
    ensures Reversed(t)[k] == t[|t| - 1 - k]
  {
    if k > 0 { ReversedAt(t[..|t| - 1], k - 1); }
  }

  lemma ReversedSnoc(t: seq<byte>, c: byte)
    ensures Reversed(t + [c]) == [c] + Reversed(t)
  {
    assert (t + [c])[..|t|] == t;
  }

  /** The first `bytes` octets of a buffer, last one first. */
  method CopyReversed(reverse: array<byte>, bytes: nat) returns (text: seq<byte>)
    requires bytes <= reverse.Length
    ensures text == Reversed(reverse[..bytes])
  {
    ghost var digits := reverse[..bytes];
    var output := new byte[bytes](_ => 0);
    var i := 0;
    while i < bytes
      invariant 0 <= i <= bytes && reverse[..bytes] == digits
      invariant forall k :: 0 <= k < i ==> output[k] == digits[bytes - k - 1]
    {
      output[i] := reverse[bytes - i - 1];
      i := i + 1;
    }
    text := output[..];
    forall k | 0 <= k < bytes ensures text[k] == Reversed(digits)[k] { ReversedAt(digits, k); }
    assert text == Reversed(digits);
  }

  /** The digits still to come, none for zero. */
  function Leading(n: nat): seq<byte> {
    if n == 0 then [] else Decimal(n)
  }

  lemma PushDigit(rest: nat, digits: seq<byte>)
    ensures Decimal(rest) + Reversed(digits) == Leading(rest / 10) + Reversed(digits + [48 + rest % 10])
  {
    hide Reversed;
    DecimalStep(rest);
    ReversedSnoc(digits, 48 + rest % 10);
    if rest >= 10 {
      assert Decimal(rest / 10) + [48 + rest % 10] + Reversed(digits) == Decimal(rest / 10) + ([48 + rest % 10] + Reversed(digits));
    }
  }

  /** `formatDecimal`: digits go into a buffer from the last to the first and come out the other way. */
  method FormatDecimal(value: nat) returns (text: seq<byte>)
    requires value < TWO_64
    ensures text == Decimal(value)
  {
    hide Decimal, Reversed, Leading;
    DecimalFits(value);
    var reverse := new byte[20](_ => 0);
    var rest: nat, bytes: nat := value / 10, 1;
    ghost var digits: seq<byte> := [48 + value % 10];
    StartDigits(value);
    reverse[0] := 48 + value % 10;
    while rest != 0 && bytes < 20
      invariant 1 <= bytes <= 20 && reverse[..bytes] == digits
      invariant Decimal(value) == Leading(rest) + Reversed(digits)
      decreases rest
    {
      LeadingIs(rest);
      PushDigit(rest, digits);
      reverse[bytes] := 48 + rest % 10;
      digits := digits + [48 + rest % 10];
      bytes, rest := bytes + 1, rest / 10;
    }
    LeadingIs(rest);
    text := CopyReversed(reverse, bytes);
    assert [] + Reversed(digits) == Reversed(digits);
  }

  lemma StartDigits(value: nat)
    ensures Decimal(value) == Leading(value / 10) + Reversed([48 + value % 10])
  {
    hide Decimal;
    PushDigit(value, []);
    assert Decimal(value) + Reversed([]) == Decimal(value);
    assert [] + [48 + value % 10] == [48 + value % 10];
  }

  lemma LeadingIs(n: nat)
    ensures n == 0 ==> Leading(n) == []
    ensures n > 0 ==> Leading(n) == Decimal(n) && |Leading(n)| > 0
  {
    hide Decimal;
  }

  lemma {:induction false} ValueGrows(t: seq<byte>, n: nat)
    requires n <= |t| && forall i :: 0 <= i < |t| ==> Digit(t[i])
    ensures DecimalValue(t[..n]) <= DecimalValue(t)
    decreases |t|
  {
    if n < |t| {
      assert t[..|t| - 1][..n] == t[..n];
      ValueGrows(t[..|t| - 1], n);
    } else {
      assert t[..n] == t;
    }
  }

  /** `parseDecimal`, with its check that the next digit does not overflow 64 bits. */
  method ReadDecimal(input: seq<byte>) returns (value: Option<nat>)
    ensures value == ParseDecimal(input)
  {
    hide DecimalValue;
    if |input| == 0 || |input| > 20 || (|input| > 1 && input[0] == 48) { return None; }
    var i, sum := 0, 0;
    assert DecimalValue(input[..0]) == 0 by { EmptyValue(); }
    while i < |input|
      invariant 0 <= i <= |input| && forall k :: 0 <= k < i ==> Digit(input[k])
      invariant sum == DecimalValue(input[..i]) < TWO_64
    {
      if !Digit(input[i]) { return None; }
      var digit := DigitValue(input[i]);
      ValueStep(input[..i + 1]);
      assert input[..i + 1][..i] == input[..i];
      if sum > (TWO_64 - 1 - digit) / 10 {
        if forall k :: 0 <= k < |input| ==> Digit(input[k]) { ValueGrows(input, i + 1); }
        return None;
      }
      sum, i := sum * 10 + digit, i + 1;
    }
    assert input[..|input|] == input;
    value := if sum == 0 then None else Some(sum);
  }

  lemma EmptyValue()
    ensures DecimalValue([]) == 0
  {
  }

  lemma ValueStep(t: seq<byte>)
    requires t != [] && forall i :: 0 <= i < |t| ==> Digit(t[i])
    ensures DecimalValue(t) == DecimalValue(t[..|t| - 1]) * 10 + DigitValue(t[|t| - 1])
  {
  }

  // ----- the outer object -----

  /** `skipWhitespace`. */
  method SkipWhitespace(json: seq<byte>, start: nat) returns (cursor: nat)
    requires start <= |json|
    ensures cursor == Skip(json, start)
  {
    cursor := start;
    while cursor < |json| && Space(json[cursor])
      invariant start <= cursor <= |json| && Skip(json, start) == Skip(json, cursor)
    {
      cursor := cursor + 1;
    }
  }

  /** `parseSimpleString`. */
  method ReadSimpleString(json: seq<byte>, start: nat) returns (piece: Option<Piece>)
    ensures piece == SimpleString(json, start)
  {
    if start >= |json| || json[start] != QUOTE { return None; }
    var cursor := start + 1;
    while cursor < |json| && json[cursor] != QUOTE
      invariant start + 1 <= cursor <= |json| && SimpleEnd(json, start + 1) == SimpleEnd(json, cursor)
    {
      if json[cursor] < 32 || json[cursor] == BACKSLASH { return None; }
      cursor := cursor + 1;
    }
    if cursor >= |json| { return None; }
    piece := Some(Piece(json[start + 1..cursor], cursor + 1));
  }

  /** `parseUnsignedToken`. */
  method ReadUnsignedToken(json: seq<byte>, start: nat) returns (piece: Option<Piece>)
    requires start <= |json|
    ensures piece == UnsignedToken(json, start)
  {
    var cursor := start;
    while cursor < |json| && Digit(json[cursor])
      invariant start <= cursor <= |json| && DigitsEnd(json, start) == DigitsEnd(json, cursor)
    {
      cursor := cursor + 1;
    }
    if cursor == start || (cursor - start > 1 && json[start] == 48) { return None; }
    piece := Some(Piece(json[start..cursor], cursor));
  }

  /** One turn of the member loop. */
  method ReadMember(json: seq<byte>, start: nat, members: Members) returns (turn: Turn)
    requires start < |json|
    ensures turn == Member(json, start, members)
  {
    hide Skip, SimpleString, UnsignedToken, FieldIndex;
    var key := ReadSimpleString(json, start);
    if key == None { return Stop(MalformedJson); }
    var field := FieldIndex(key.value.text, 0);
    if field == FIELDS { return Stop(UnknownField); }
    if field in members { return Stop(DuplicateField); }
    var cursor := SkipWhitespace(json, key.value.next);
    if cursor >= |json| || json[cursor] != COLON { return Stop(MalformedJson); }
    cursor := SkipWhitespace(json, cursor + 1);
    var value;
    if Numeric(field) {
      value := ReadUnsignedToken(json, cursor);
    } else {
      value := ReadSimpleString(json, cursor);
    }
    if value == None { return Stop(MalformedJson); }
    var seen := members[field := value.value.text];
    cursor := SkipWhitespace(json, value.value.next);
    if cursor >= |json| { return Stop(MalformedJson); }
    if json[cursor] == CLOSE { return End(cursor + 1, seen); }
    if json[cursor] != COMMA { return Stop(MalformedJson); }
    cursor := SkipWhitespace(json, cursor + 1);
    turn := More(cursor, seen);
  }

  /** `parseOuterObject`. */
  method ReadObject(json: seq<byte>) returns (result: Result<Members>)
    ensures result == ParseObject(json)
  {
    hide Skip, Member, Loop;
    var cursor := SkipWhitespace(json, 0);
    if cursor >= |json| || json[cursor] != OPEN { return Failed(MalformedJson); }
    cursor := SkipWhitespace(json, cursor + 1);
    if cursor < |json| && json[cursor] == CLOSE { return Failed(MissingField); }
    var members: Members := map[];
    while cursor < |json|
      invariant 0 <= cursor <= |json| && ParseObject(json) == Loop(json, cursor, members)
      decreases |json| - cursor
    {
      LoopStep(json, cursor, members);
      var turn := ReadMember(json, cursor, members);
      match turn
      case Stop(e) => return Failed(e);
      case More(next, more) => cursor, members := next, more;
      case End(next, all) =>
        result := FinishObject(json, next, all);
        return;
    }
    LoopStep(json, cursor, members);
    result := FinishObject(json, cursor, members);
  }

  method FinishObject(json: seq<byte>, start: nat, members: Members) returns (result: Result<Members>)
    requires start <= |json|
    ensures result == Finish(json, start, members)
  {
    var cursor := SkipWhitespace(json, start);
    if cursor != |json| { return Failed(MalformedJson); }
    if !Complete(members) { return Failed(MissingField); }
    result := Ok(members);
  }

  /** What the loop does after a turn. */
  function Continue(t: seq<byte>, turn: Turn): Result<Members>
    requires !turn.Stop? ==> turn.next <= |t|
  {
    match turn
    case Stop(e) => Failed(e)
    case More(next, more) => Loop(t, next, more)
    case End(next, all) => Finish(t, next, all)
  }

  lemma LoopStep(t: seq<byte>, i: nat, members: Members)
    requires i <= |t|
    ensures i == |t| ==> Loop(t, i, members) == Finish(t, i, members)
    ensures i < |t| ==> Loop(t, i, members) == Continue(t, Member(t, i, members))
  {
    hide Member, Finish;
  }

  // ----- the writer -----

  /** Appends to a buffer as long as the text fits. */
  class OutputWriter {
    const output: array<byte>
    var cursor: nat

    ghost predicate Valid()
      reads this
    {
      cursor <= output.Length
    }

    ghost function Written(): seq<byte>
      requires Valid()
      reads this, output
    {
      output[..cursor]
    }

    constructor (output: array<byte>)
      ensures Valid() && this.output == output && Written() == []
    {
      this.output, cursor := output, 0;
    }

    method Append(text: seq<byte>) returns (ok: bool)
      requires Valid()
      modifies this, output
      ensures Valid() && ok == (old(cursor) + |text| <= output.Length)
      ensures Written() == if ok then old(Written()) + text else old(Written())
      ensures !ok ==> cursor == old(cursor)
    {
      if cursor + |text| > output.Length { return false; }
      Base64Url.Store(output, cursor, text);
      cursor := cursor + |text|;
      ok := true;
    }

    method AppendBase64(input: seq<byte>) returns (ok: bool)
      requires Valid()
      modifies this, output
      ensures Valid() && ok == (old(cursor) + |Base64Url.Encode(input)| <= output.Length)
      ensures Written() == if ok then old(Written()) + Base64Url.Encode(input) else old(Written())
      ensures !ok ==> cursor == old(cursor)
    {
      hide Base64Url.Encode;
      var encoded := new byte[Base64Url.EncodedBytes(|input|)](_ => 0);
      var fits, written := Base64Url.EncodeInto(input, encoded);
      assert encoded[..] == encoded[..written];
      ok := Append(encoded[..]);
    }

    /** A literal and the value behind it; nothing more is written once something did not fit. */
    method AppendField(literal: seq<byte>, value: seq<byte>) returns (ok: bool)
      requires Valid()
      modifies this, output
      ensures Valid() && ok == (old(cursor) + |literal| + |value| <= output.Length)
      ensures ok ==> Written() == old(Written()) + literal + value
    {
      ok := Append(literal);
      if ok { ok := Append(value); }
    }

    method AppendBase64Field(literal: seq<byte>, input: seq<byte>) returns (ok: bool)
      requires Valid()
      modifies this, output
      ensures Valid() && ok == (old(cursor) + |literal| + |Base64Url.Encode(input)| <= output.Length)
      ensures ok ==> Written() == old(Written()) + literal + Base64Url.Encode(input)
    {
      hide Base64Url.Encode;
      ok := Append(literal);
      if ok { ok := AppendBase64(input); }
    }
  }

  function NumbersPart(m: Message): seq<byte>
    requires m.channel <= 9
  {
    hide Ascii, Decimal;
    Ascii("{\"v\":1,\"channel\":") + [48 + m.channel] + Ascii(",\"seq\":\"") + Decimal(m.sequence)
  }

  function HeadPart(m: Message): seq<byte>
    requires m.channel <= 9
  {
    hide Ascii, Base64Url.Encode;
    NumbersPart(m) + Ascii("\",\"nonce_b64\":\"") + Base64Url.Encode(m.nonce) + Ascii("\",\"request_id_b64\":\"")
    + Base64Url.Encode(m.requestId)
  }

  /** Version, channel and sequence. */
  method WriteNumbers(w: OutputWriter, m: Message) returns (ok: bool)
    requires w.Valid() && w.cursor == 0 && m.channel <= 2 && m.sequence < TWO_64
    modifies w, w.output
    ensures w.Valid()
    ensures ok == (|NumbersPart(m)| <= w.output.Length) && (ok ==> w.Written() == NumbersPart(m))
  {
    hide Ascii, Decimal;
    assert w.Written() == [];
    var sequenceText := FormatDecimal(m.sequence);
    ok := w.AppendField(Ascii("{\"v\":1,\"channel\":"), [48 + m.channel]);
    if ok { ok := w.AppendField(Ascii(",\"seq\":\""), sequenceText); }
  }

  /** Nonce and request id. */
  method WriteIds(w: OutputWriter, m: Message) returns (ok: bool)
    requires w.Valid() && m.channel <= 2 && w.Written() == NumbersPart(m)
    modifies w, w.output
    ensures w.Valid()
    ensures ok == (|HeadPart(m)| <= w.output.Length) && (ok ==> w.Written() == HeadPart(m))
  {
    hide Ascii, Base64Url.Encode, NumbersPart;
    ok := w.AppendBase64Field(Ascii("\",\"nonce_b64\":\""), m.nonce);
    if ok { ok := w.AppendBase64Field(Ascii("\",\"request_id_b64\":\""), m.requestId); }
  }

  /** Operation, payload and MAC. */
  method WriteTail(w: OutputWriter, m: Message, mac: seq<byte>) returns (ok: bool)
    requires w.Valid() && m.channel <= 2 && w.Written() == HeadPart(m)
    modifies w, w.output
    ensures w.Valid()
    ensures ok == (|Text(m, mac)| <= w.output.Length) && (ok ==> w.Written() == Text(m, mac))
  {
    hide Ascii, Decimal, Base64Url.Encode;
    ok := w.AppendField(Ascii("\",\"op\":\""), m.operation);
    if ok { ok := w.AppendBase64Field(Ascii("\",\"payload_b64\":\""), m.payload); }
    if ok { ok := w.AppendBase64Field(Ascii("\",\"mac_b64\":\""), mac); }
    if ok { ok := w.Append(Ascii("\"}")); }
  }

  /** `encodeEnvelope`: the number of octets written, or why not. */
  method EncodeEnvelope(c: Crypto, m: Message, key: Key, outputJson: array<byte>) returns (result: Result<nat>)
    requires |m.nonce| == NONCE_BYTES && |m.requestId| == NONCE_BYTES && m.sequence < TWO_64 && m.channel < 256
    modifies outputJson
    ensures result.Failed? <==> Encode(c, m, key, outputJson.Length).Failed?
    ensures result.Failed? ==> result.error == Encode(c, m, key, outputJson.Length).error
    ensures result.Ok? ==> result.value <= outputJson.Length
                           && outputJson[..result.value] == Encode(c, m, key, outputJson.Length).value
  {
    hide Text, HeadPart, NumbersPart, Transcript, OperationValid, Utf8.Valid;
    if m.channel > 2 { return Failed(InvalidChannel); }
    if m.sequence == 0 { return Failed(InvalidSequence); }
    if !OperationValid(m.operation) { return Failed(InvalidOperation); }
    if |m.payload| > PAYLOAD_MAXIMUM { return Failed(PayloadTooLarge); }
    var utf8 := Utf8.CheckUtf8(m.payload);
    if !utf8 || !c.json(m.payload) { return Failed(InvalidPayloadJson); }
    OperationFits(m.operation);
    var mac := MacOf(c, key, m);
    if mac == None { return Failed(CryptoFailed); }
    HeadIsShorter(m, mac.value);
    var writer := new OutputWriter(outputJson);
    var written := WriteNumbers(writer, m);
    if written { written := WriteIds(writer, m); }
    if written { written := WriteTail(writer, m, mac.value); }
    if !written { return Failed(OutputTooSmall); }
    result := Ok(writer.cursor);
  }

  lemma HeadIsShorter(m: Message, mac: seq<byte>)
    requires m.channel <= 9
    ensures |NumbersPart(m)| <= |HeadPart(m)| <= |Text(m, mac)|
  {
    hide Ascii, Decimal, Base64Url.Encode;
  }
}
