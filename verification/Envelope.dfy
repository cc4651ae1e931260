/** The authenticated JSON envelope: decimal sequence numbers, the strict outer parser, the printer, and the transcript
    the MAC covers.  HMAC and the validator of the inner JSON stay uninterpreted. */
module Envelope {
  import opened Bytes
  import Base64Url
  import Utf8

  const NONCE_BYTES: nat := 16
  const MAC_BYTES: nat := 32
  const OPERATION_MAXIMUM: nat := 48
  const PAYLOAD_MAXIMUM: nat := 12000
  const FRAME_MAXIMUM: nat := 16384

  datatype Error =
    | InvalidArgument | OutputTooSmall | MalformedJson | DuplicateField | UnknownField | MissingField | UnsupportedVersion
    | InvalidChannel | InvalidSequence | UnexpectedSequence | InvalidBase64 | InvalidOperation | PayloadTooLarge
    | AuthenticationFailed | InvalidPayloadUtf8 | InvalidPayloadJson | CryptoFailed

  datatype Result<T> = Ok(value: T) | Failed(error: Error)

  /** ASCII text as octets. */
  function Ascii(s: string): (t: seq<byte>)
    ensures |t| == |s| && forall i :: 0 <= i < |s| && s[i] < 128 as char ==> t[i] == s[i] as int
  {
    seq(|s|, i requires 0 <= i < |s| => if s[i] < 128 as char then s[i] as int else 63)
  }

  // ----- decimals -----

  predicate Digit(c: byte) { 48 <= c <= 57 }

  /** `formatDecimal`. */
  function Decimal(n: nat): (t: seq<byte>)
    ensures |t| > 0 && (forall i :: 0 <= i < |t| ==> Digit(t[i])) && (t[0] == 48 ==> n == 0)
  {
    if n < 10 then [48 + n] else Decimal(n / 10) + [48 + n % 10]
  }

  function DigitValue(c: byte): (d: nat)
    requires Digit(c)
    ensures d < 10
  {
    c - 48
  }

  function DecimalValue(t: seq<byte>): nat
    requires forall i :: 0 <= i < |t| ==> Digit(t[i])
  {
    if t == [] then 0 else DecimalValue(t[..|t| - 1]) * 10 + DigitValue(t[|t| - 1])
  }

  /** `parseDecimal`: no empty, over-long, zero-led, zero or overflowing text. */
  function ParseDecimal(t: seq<byte>): (n: Option<nat>)
    ensures n.Some? ==> 0 < n.value < TWO_64
  {
    if |t| == 0 || |t| > 20 || (|t| > 1 && t[0] == 48) || (exists i :: 0 <= i < |t| && !Digit(t[i])) then None
    else if DecimalValue(t) >= TWO_64 || DecimalValue(t) == 0 then None else Some(DecimalValue(t))
  }

  lemma {:induction false} DecimalBack(n: nat)
    ensures DecimalValue(Decimal(n)) == n
  {
    if n >= 10 {
      DecimalBack(n / 10);
      assert Decimal(n)[..|Decimal(n)| - 1] == Decimal(n / 10);
    }
  }

  function Pow10(k: nat): nat { if k == 0 then 1 else 10 * Pow10(k - 1) }

  lemma {:induction false} DecimalShort(n: nat, k: nat)
    requires n < Pow10(k) && k > 0
    ensures |Decimal(n)| <= k
  {
    if n >= 10 { DecimalShort(n / 10, k - 1); }
  }

  /** Twenty digits are enough for every 64-bit number. */
  lemma DecimalFits(n: nat)
    requires n < TWO_64
    ensures |Decimal(n)| <= 20
  {
    assert Pow10(10) == 10_000_000_000;
    assert Pow10(20) == 100_000_000_000_000_000_000;
    DecimalShort(n, 20);
  }

  /** Parsing what was printed, and printing what was parsed. */
  lemma ParseFormat(n: nat)
    requires 0 < n < TWO_64
    ensures ParseDecimal(Decimal(n)) == Some(n)
  {
    DecimalBack(n);
    DecimalFits(n);
  }

  lemma {:induction false} FormatValue(t: seq<byte>)
    requires |t| > 0 && (forall i :: 0 <= i < |t| ==> Digit(t[i])) && (|t| == 1 || t[0] != 48)
    ensures Decimal(DecimalValue(t)) == t && (t[0] != 48 ==> DecimalValue(t) > 0)
  {
    var front := t[..|t| - 1];
    assert t == front + [t[|t| - 1]];
    if |t| == 1 {
      assert front == [];
    } else {
      FormatValue(front);
    }
  }

  lemma FormatParse(t: seq<byte>)
    requires ParseDecimal(t).Some?
    ensures Decimal(ParseDecimal(t).value) == t
  {
    FormatValue(t);
  }

  // ----- the outer object -----

  const QUOTE: byte := 34
  const BACKSLASH: byte := 92
  const COMMA: byte := 44
  const COLON: byte := 58
  const OPEN: byte := 123
  const CLOSE: byte := 125

  const VERSION: nat := 0
  const CHANNEL: nat := 1
  const SEQUENCE: nat := 2
  const NONCE: nat := 3
  const REQUEST_ID: nat := 4
  const OPERATION: nat := 5
  const PAYLOAD: nat := 6
  const MAC: nat := 7
  const FIELDS: nat := 8

  function Name(field: nat): seq<byte> {
    if field == VERSION then Ascii("v") else if field == CHANNEL then Ascii("channel")
    else if field == SEQUENCE then Ascii("seq") else if field == NONCE then Ascii("nonce_b64")
    else if field == REQUEST_ID then Ascii("request_id_b64") else if field == OPERATION then Ascii("op")
    else if field == PAYLOAD then Ascii("payload_b64") else Ascii("mac_b64")
  }

  /** `fieldIndex`, from `field` on; 8 if there is none. */
  function FieldIndex(key: seq<byte>, field: nat): (k: nat)
    requires field <= FIELDS
    ensures field <= k <= FIELDS && (k < FIELDS ==> key == Name(k))
    ensures forall j :: field <= j < k ==> key != Name(j)
    decreases FIELDS - field
  {
    if field == FIELDS || key == Name(field) then field else FieldIndex(key, field + 1)
  }

  predicate Numeric(field: nat) { field == VERSION || field == CHANNEL }

  predicate Space(c: byte) { c == 32 || c == 9 || c == 13 || c == 10 }

  /** `skipWhitespace`. */
  function Skip(t: seq<byte>, i: nat): (j: nat)
    requires i <= |t|
    ensures i <= j <= |t|
    ensures (j < |t| ==> !Space(t[j])) && forall k :: i <= k < j ==> Space(t[k])
    decreases |t| - i
  {
    if i < |t| && Space(t[i]) then Skip(t, i + 1) else i
  }

  /** A piece of text and where it stopped. */
  datatype Piece = Piece(text: seq<byte>, next: nat)

  /** A character a simple string may contain. */
  predicate Simple(c: byte) { c >= 32 && c != QUOTE && c != BACKSLASH }

  /** End of the run of simple characters from `i`. */
  function SimpleEnd(t: seq<byte>, i: nat): (j: nat)
    requires i <= |t|
    ensures i <= j <= |t| && (j < |t| ==> !Simple(t[j])) && forall k :: i <= k < j ==> Simple(t[k])
    decreases |t| - i
  {
    if i < |t| && Simple(t[i]) then SimpleEnd(t, i + 1) else i
  }

  /** `parseSimpleString`. */
  function SimpleString(t: seq<byte>, i: nat): (p: Option<Piece>)
    ensures p.Some? ==> i < p.value.next <= |t|
  {
    if i >= |t| || t[i] != QUOTE then None
    else
      var j := SimpleEnd(t, i + 1);
      if j < |t| && t[j] == QUOTE then Some(Piece(t[i + 1..j], j + 1)) else None
  }

  function DigitsEnd(t: seq<byte>, i: nat): (j: nat)
    requires i <= |t|
    ensures i <= j <= |t| && (j < |t| ==> !Digit(t[j])) && forall k :: i <= k < j ==> Digit(t[k])
    decreases |t| - i
  {
    if i < |t| && Digit(t[i]) then DigitsEnd(t, i + 1) else i
  }

  /** `parseUnsignedToken`. */
  function UnsignedToken(t: seq<byte>, i: nat): (p: Option<Piece>)
    requires i <= |t|
    ensures p.Some? ==> i < p.value.next <= |t|
  {
    var j := DigitsEnd(t, i);
    if j == i || (j - i > 1 && t[i] == 48) then None else Some(Piece(t[i..j], j))
  }

  type Members = map<nat, seq<byte>>

  /** One member: an error, or where the next one starts, or the end of the object. */
  datatype Turn = Stop(error: Error) | More(next: nat, members: Members) | End(next: nat, members: Members)

  /** What follows a member's value. */
  function AfterValue(t: seq<byte>, i: nat, members: Members): (r: Turn)
    requires i <= |t|
    ensures !r.Stop? ==> i < r.next <= |t|
  {
    var k := Skip(t, i);
    if k >= |t| then Stop(MalformedJson)
    else if t[k] == CLOSE then End(k + 1, members)
    else if t[k] == COMMA then More(Skip(t, k + 1), members)
    else Stop(MalformedJson)
  }

  /** From the end of a member's key. */
  function AfterKey(t: seq<byte>, i: nat, field: nat, members: Members): (r: Turn)
    requires i <= |t|
    ensures !r.Stop? ==> i < r.next <= |t|
  {
    var k := Skip(t, i);
    if k >= |t| || t[k] != COLON then Stop(MalformedJson)
    else
      var v := Skip(t, k + 1);
      var value := if Numeric(field) then UnsignedToken(t, v) else SimpleString(t, v);
      if value == None then Stop(MalformedJson) else AfterValue(t, value.value.next, members[field := value.value.text])
  }

  /** One turn of the member loop. */
  function Member(t: seq<byte>, i: nat, members: Members): (r: Turn)
    requires i < |t|
    ensures !r.Stop? ==> i < r.next <= |t|
  {
    hide AfterKey;
    var key := SimpleString(t, i);
    if key == None then Stop(MalformedJson)
    else
      var field := FieldIndex(key.value.text, 0);
      if field == FIELDS then Stop(UnknownField)
      else if field in members then Stop(DuplicateField)
      else AfterKey(t, key.value.next, field, members)
  }

  /** Every field has been seen. */
  predicate Complete(members: Members) {
    forall f :: 0 <= f < FIELDS ==> f in members
  }

  function Finish(t: seq<byte>, i: nat, members: Members): Result<Members>
    requires i <= |t|
  {
    if Skip(t, i) != |t| then Failed(MalformedJson) else if !Complete(members) then Failed(MissingField) else Ok(members)
  }

  function Loop(t: seq<byte>, i: nat, members: Members): (r: Result<Members>)
    requires i <= |t|
    ensures r.Ok? ==> Complete(r.value)
    decreases |t| - i
  {
    hide Member;
    if i == |t| then Finish(t, i, members)
    else
      match Member(t, i, members)
      case Stop(e) => Failed(e)
      case More(next, more) => Loop(t, next, more)
      case End(next, all) => Finish(t, next, all)
  }

  /** `parseOuterObject`. */
  function ParseObject(t: seq<byte>): (r: Result<Members>)
    ensures r.Ok? ==> Complete(r.value)
  {
    hide Loop;
    var i := Skip(t, 0);
    if i >= |t| || t[i] != OPEN then Failed(MalformedJson)
    else
      var j := Skip(t, i + 1);
      if j < |t| && t[j] == CLOSE then Failed(MissingField) else Loop(t, j, map[])
  }

  // ----- printing and parsing objects -----

  /** A value the printer may emit for a field. */
  predicate Printable(field: nat, value: seq<byte>) {
    if Numeric(field) then |value| == 1 && Digit(value[0]) else forall i :: 0 <= i < |value| ==> Simple(value[i])
  }

  function Value(field: nat, value: seq<byte>): seq<byte> {
    if Numeric(field) then value else [QUOTE] + value + [QUOTE]
  }

  /** `"name":value`. */
  function MemberText(field: nat, value: seq<byte>): seq<byte> {
    [QUOTE] + Name(field) + [QUOTE, COLON] + Value(field, value)
  }

  datatype Entry = Entry(field: nat, value: seq<byte>)

  /** The members from `es` on, separated by commas and followed by `last`. */
  function MembersText(es: seq<Entry>, last: byte): seq<byte>
    requires es != []
  {
    MemberText(es[0].field, es[0].value) + if |es| == 1 then [last] else [COMMA] + MembersText(es[1..], last)
  }

  function ObjectText(es: seq<Entry>): seq<byte>
    requires es != []
  {
    [OPEN] + MembersText(es, CLOSE)
  }

  lemma NamesAreSimple(field: nat)
    requires field < FIELDS
    ensures forall i :: 0 <= i < |Name(field)| ==> Simple(Name(field)[i])
    ensures |Name(field)| > 0
  {
  }

  lemma NamesDiffer(f: nat, g: nat)
    requires f < g < FIELDS
    ensures Name(f) != Name(g)
  {
    var a, b := Name(f), Name(g);
    if |a| == |b| { assert f == CHANNEL && g == MAC; assert a[0] != b[0]; }
  }

  lemma IndexOfName(field: nat)
    requires field < FIELDS
    ensures FieldIndex(Name(field), 0) == field
  {
    hide Name;
    var k := FieldIndex(Name(field), 0);
    if k < field { NamesDiffer(k, field); }
  }

  lemma {:induction false} SimpleRun(t: seq<byte>, i: nat, j: nat)
    requires i <= j < |t| && t[j] == QUOTE && forall k :: i <= k < j ==> Simple(t[k])
    ensures SimpleEnd(t, i) == j
    decreases j - i
  {
    if i < j { SimpleRun(t, i + 1, j); }
  }

  /** A quoted run of simple characters is read back. */
  lemma SimpleBack(t: seq<byte>, i: nat, v: seq<byte>)
    requires i + |v| + 2 <= |t| && t[i..i + |v| + 2] == [QUOTE] + v + [QUOTE]
    requires forall k :: 0 <= k < |v| ==> Simple(v[k])
    ensures SimpleString(t, i) == Some(Piece(v, i + |v| + 2))
  {
    var u := t[i..i + |v| + 2];
    assert t[i] == u[0] && t[i + |v| + 1] == u[|v| + 1];
    forall k | i + 1 <= k < i + 1 + |v| ensures t[k] == v[k - i - 1] { assert t[k] == u[k - i]; }
    SimpleRun(t, i + 1, i + 1 + |v|);
    assert t[i + 1..i + 1 + |v|] == v;
  }

  lemma DigitBack(t: seq<byte>, i: nat, c: byte)
    requires i + 1 < |t| && t[i] == c && Digit(c) && !Digit(t[i + 1])
    ensures UnsignedToken(t, i) == Some(Piece([c], i + 1))
  {
    assert DigitsEnd(t, i + 1) == i + 1;
    assert t[i..i + 1] == [c];
  }

  lemma NothingToSkip(t: seq<byte>, i: nat)
    requires i < |t| && !Space(t[i])
    ensures Skip(t, i) == i
  {
  }

  ghost predicate StartsAt(t: seq<byte>, i: nat, text: seq<byte>) {
    i + |text| <= |t| && t[i..i + |text|] == text
  }

  lemma StartsSplit(t: seq<byte>, i: nat, a: seq<byte>, b: seq<byte>)
    requires StartsAt(t, i, a + b)
    ensures StartsAt(t, i, a) && StartsAt(t, i + |a|, b)
  {
    var u := t[i..i + |a| + |b|];
    assert t[i..i + |a|] == u[..|a|] && t[i + |a|..i + |a| + |b|] == u[|a|..];
  }

  lemma StartsWith(t: seq<byte>, i: nat, text: seq<byte>)
    requires StartsAt(t, i, text) && text != []
    ensures i < |t| && t[i] == text[0]
  {
    assert t[i] == t[i..i + |text|][0];
  }

  predicate Separator(t: seq<byte>, i: nat) {
    i < |t| && (t[i] == COMMA || t[i] == CLOSE)
  }

  /** A printed value, whatever follows its separator, is read back. */
  lemma ValueBack(t: seq<byte>, i: nat, e: Entry, members: Members)
    requires Printable(e.field, e.value) && StartsAt(t, i, [COLON] + Value(e.field, e.value))
    requires Separator(t, i + 1 + |Value(e.field, e.value)|)
    ensures i <= |t| && AfterKey(t, i, e.field, members)
                        == AfterValue(t, i + 1 + |Value(e.field, e.value)|, members[e.field := e.value])
  {
    hide AfterValue, UnsignedToken, SimpleString, Skip, StartsAt;
    var text := Value(e.field, e.value);
    StartsSplit(t, i, [COLON], text);
    StartsWith(t, i, [COLON]);
    StartsWith(t, i + 1, text);
    NothingToSkip(t, i);
    NothingToSkip(t, i + 1);
    if Numeric(e.field) {
      DigitBack(t, i + 1, e.value[0]);
      assert e.value == [e.value[0]];
    } else {
      assert i + 1 + |text| <= |t| && t[i + 1..i + 1 + |text|] == text by { ShowStarts(t, i + 1, text); }
      SimpleBack(t, i + 1, e.value);
    }
  }

  lemma ShowStarts(t: seq<byte>, i: nat, text: seq<byte>)
    requires StartsAt(t, i, text)
    ensures i + |text| <= |t| && t[i..i + |text|] == text
  {
  }

  /** A printed member, whatever follows its separator, is read back. */
  lemma MemberBack(t: seq<byte>, i: nat, e: Entry, members: Members)
    requires e.field < FIELDS && e.field !in members && Printable(e.field, e.value)
    requires StartsAt(t, i, MemberText(e.field, e.value)) && Separator(t, i + |MemberText(e.field, e.value)|)
    ensures i < |t| && Member(t, i, members) == AfterValue(t, i + |MemberText(e.field, e.value)|, members[e.field := e.value])
  {
    hide Name, FieldIndex, AfterValue, Value, AfterKey, SimpleString, Printable, StartsAt, Simple;
    var name, value := Name(e.field), Value(e.field, e.value);
    NamesAreSimple(e.field);
    IndexOfName(e.field);
    assert MemberText(e.field, e.value) == ([QUOTE] + name + [QUOTE]) + ([COLON] + value);
    StartsSplit(t, i, [QUOTE] + name + [QUOTE], [COLON] + value);
    ShowStarts(t, i, [QUOTE] + name + [QUOTE]);
    StartsWith(t, i, [QUOTE] + name + [QUOTE]);
    SimpleBack(t, i, name);
    ValueBack(t, i + |name| + 2, e, members);
  }

  ghost predicate Distinct(es: seq<Entry>) {
    && (forall i :: 0 <= i < |es| ==> es[i].field < FIELDS && Printable(es[i].field, es[i].value))
    && (forall i, j :: 0 <= i < j < |es| ==> es[i].field != es[j].field)
  }

  function Collected(es: seq<Entry>, members: Members): Members {
    if es == [] then members else Collected(es[1..], members[es[0].field := es[0].value])
  }

  /** One turn over a printed member and its separator. */
  lemma OneTurn(t: seq<byte>, i: nat, e: Entry, members: Members)
    requires e.field < FIELDS && e.field !in members && Printable(e.field, e.value)
    requires StartsAt(t, i, MemberText(e.field, e.value)) && Separator(t, i + |MemberText(e.field, e.value)|)
    ensures var n, more := i + |MemberText(e.field, e.value)|, members[e.field := e.value];
      && (t[n] == CLOSE ==> i <= |t| && Loop(t, i, members) == Finish(t, n + 1, more))
      && (t[n] == COMMA ==> i <= |t| && Loop(t, i, members) == Loop(t, Skip(t, n + 1), more))
  {
    hide MemberText, Member, Finish, Printable, StartsAt;
    MemberBack(t, i, e, members);
    NothingToSkip(t, i + |MemberText(e.field, e.value)|);
  }

  /** The text of members in front of the rest. */
  lemma MembersSplit(t: seq<byte>, i: nat, es: seq<Entry>, last: byte)
    requires es != [] && i <= |t| && t[i..] == MembersText(es, last) && (last == CLOSE || last == COMMA)
    ensures var text := MemberText(es[0].field, es[0].value); var n := i + |text|;
      && StartsAt(t, i, text) && Separator(t, n)
      && (if |es| == 1 then t[n] == last && n + 1 == |t|
          else t[n] == COMMA && n + 1 < |t| && t[n + 1..] == MembersText(es[1..], last) && Skip(t, n + 1) == n + 1)
  {
    hide MemberText;
    var n := |MemberText(es[0].field, es[0].value)|;
    var u := t[i..];
    assert t[i..i + n] == u[..n] && t[i + n] == u[n];
    assert t[i + n + 1..] == u[n + 1..];
    if |es| > 1 {
      FirstIsQuote(es[1..], last);
      assert t[i + n + 1] == u[n + 1..][0];
      NothingToSkip(t, i + n + 1);
    }
  }

  lemma {:induction false} LoopBack(t: seq<byte>, i: nat, es: seq<Entry>, members: Members, last: byte)
    requires es != [] && Distinct(es) && (forall k :: 0 <= k < |es| ==> es[k].field !in members)
    requires i <= |t| && t[i..] == MembersText(es, last) && (last == CLOSE || last == COMMA)
    ensures Loop(t, i, members) == Finish(t, |t|, Collected(es, members))
    decreases |es|
  {
    hide MemberText, Finish, Printable, Skip, Loop, StartsAt, Separator, MembersText;
    MembersSplit(t, i, es, last);
    OneTurn(t, i, es[0], members);
    var members1 := members[es[0].field := es[0].value];
    var n := i + |MemberText(es[0].field, es[0].value)|;
    if |es| == 1 {
      assert Collected(es[1..], members1) == members1;
      AtTheEnd(t, members1);
    } else {
      LoopBack(t, n + 1, es[1..], members1, last);
    }
  }

  lemma AtTheEnd(t: seq<byte>, members: Members)
    ensures Skip(t, |t|) == |t| && Loop(t, |t|, members) == Finish(t, |t|, members)
  {
  }

  lemma FirstIsQuote(es: seq<Entry>, last: byte)
    requires es != []
    ensures MembersText(es, last) != [] && MembersText(es, last)[0] == QUOTE
  {
    hide Name, Value;
  }

  /** Any order of distinct members is parsed to the same fields. */
  lemma ObjectBack(es: seq<Entry>)
    requires es != [] && Distinct(es)
    ensures ParseObject(ObjectText(es)) == if Complete(Collected(es, map[])) then Ok(Collected(es, map[])) else Failed(MissingField)
  {
    hide MembersText, Loop, Printable;
    var t := ObjectText(es);
    NothingToSkip(t, 0);
    assert t[1..] == MembersText(es, CLOSE);
    FirstIsQuote(es, CLOSE);
    NothingToSkip(t, 1);
    LoopBack(t, 1, es, map[], CLOSE);
  }

  /** The parser is not quite strict: a complete object that ends in a comma instead of its brace is accepted too. */
  lemma UnclosedObject(es: seq<Entry>)
    requires es != [] && Distinct(es) && Complete(Collected(es, map[]))
    ensures ParseObject([OPEN] + MembersText(es, COMMA)) == Ok(Collected(es, map[]))
  {
    hide MembersText, Loop, Printable;
    var t := [OPEN] + MembersText(es, COMMA);
    NothingToSkip(t, 0);
    assert t[1..] == MembersText(es, COMMA);
    FirstIsQuote(es, COMMA);
    NothingToSkip(t, 1);
    LoopBack(t, 1, es, map[], COMMA);
  }
}
