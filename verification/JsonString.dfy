/** JSON strings in action commands (section 7 of RFC 8259): the scanner that delimits a string, the length of its
    text, and its decoding. */
module JsonString {
  import opened Bytes
  import opened Utf8

  const QUOTE: byte := 34
  const BACKSLASH: byte := 92
  const LETTER_U: byte := 117

  /** The characters of a string body: an octet as it stands, a one-letter escape, a `\u` escape, a surrogate pair. */
  datatype Token = Raw(octet: byte) | Short(letter: byte) | Unit(hex: seq<byte>) | Pair(high: seq<byte>, low: seq<byte>)

  function HexDigit(c: byte): (v: int)
    ensures -1 <= v < 16
  {
    if 48 <= c <= 57 then c - 48 else if 97 <= c <= 102 then c - 87 else if 65 <= c <= 70 then c - 55 else -1
  }

  predicate IsHex4(h: seq<byte>) {
    |h| == 4 && HexDigit(h[0]) >= 0 && HexDigit(h[1]) >= 0 && HexDigit(h[2]) >= 0 && HexDigit(h[3]) >= 0
  }

  /** `hex4`. */
  function Hex4(h: seq<byte>): (v: nat)
    requires IsHex4(h)
    ensures v < 0x1_0000
  {
    ((HexDigit(h[0]) * 16 + HexDigit(h[1])) * 16 + HexDigit(h[2])) * 16 + HexDigit(h[3])
  }

  predicate High(v: nat) { 0xD800 <= v <= 0xDBFF }
  predicate Low(v: nat) { 0xDC00 <= v <= 0xDFFF }

  /** The octet a one-letter escape stands for, 0 if there is none. */
  function EscapeValue(letter: byte): (v: byte)
    ensures v <= 0x7F
  {
    if letter == QUOTE || letter == BACKSLASH || letter == 47 then letter
    else if letter == 98 then 8 else if letter == 102 then 12 else if letter == 110 then 10
    else if letter == 114 then 13 else if letter == 116 then 9 else 0
  }

  predicate WellFormed(k: Token) {
    match k
    case Raw(c) => c != QUOTE && c != BACKSLASH && c >= 0x20
    case Short(e) => EscapeValue(e) != 0
    case Unit(h) => IsHex4(h) && !Surrogate(Hex4(h))
    case Pair(h, l) => IsHex4(h) && IsHex4(l) && High(Hex4(h)) && Low(Hex4(l))
  }

  type token = k: Token | WellFormed(k) witness Raw(65)

  /** How a character is written. */
  function Spelling(k: Token): (t: seq<byte>) {
    match k
    case Raw(c) => [c]
    case Short(e) => [BACKSLASH, e]
    case Unit(h) => [BACKSLASH, LETTER_U] + h
    case Pair(h, l) => [BACKSLASH, LETTER_U] + h + [BACKSLASH, LETTER_U] + l
  }

  function Spellings(ks: seq<token>): seq<byte> {
    if ks == [] then [] else Spelling(ks[0]) + Spellings(ks[1..])
  }

  /** The scalar value of an escape. */
  function ScalarOf(k: token): (s: scalar)
    requires !k.Raw?
  {
    match k
    case Short(e) => EscapeValue(e)
    case Unit(h) => Hex4(h)
    case Pair(h, l) => 0x1_0000 + (Hex4(h) - 0xD800) * 1024 + (Hex4(l) - 0xDC00)
  }

  /** What a character means: octets as they stand, escapes as UTF-8. */
  function Meaning(k: token): (t: seq<byte>)
    ensures 1 <= |t| <= 4
  {
    if k.Raw? then [k.octet] else Encoded(ScalarOf(k))
  }

  function Meanings(ks: seq<token>): seq<byte> {
    if ks == [] then [] else Meaning(ks[0]) + Meanings(ks[1..])
  }

  predicate Zero(k: token) {
    !k.Raw? && ScalarOf(k) == 0
  }

  /** The character that starts at `i`. */
  function TokenAt(t: seq<byte>, i: nat): (k: Option<token>)
    requires i < |t|
    ensures k.Some? ==> i + |Spelling(k.value)| <= |t| && t[i..i + |Spelling(k.value)|] == Spelling(k.value)
  {
    hide Hex4, HexDigit, EscapeValue;
    var c := t[i];
    if c != BACKSLASH then (if c == QUOTE || c < 0x20 then None else Some(Raw(c)))
    else if i + 1 >= |t| then None
    else if t[i + 1] != LETTER_U then (if EscapeValue(t[i + 1]) == 0 then None else Some(Short(t[i + 1])))
    else if i + 6 > |t| || !IsHex4(t[i + 2..i + 6]) || Low(Hex4(t[i + 2..i + 6])) then None
    else if !High(Hex4(t[i + 2..i + 6])) then
      assert t[i..i + 6] == [BACKSLASH, LETTER_U] + t[i + 2..i + 6];
      Some(Unit(t[i + 2..i + 6]))
    else if i + 12 > |t| || t[i + 6] != BACKSLASH || t[i + 7] != LETTER_U || !IsHex4(t[i + 8..i + 12])
            || !Low(Hex4(t[i + 8..i + 12])) then None
    else
      assert t[i..i + 12] == [BACKSLASH, LETTER_U] + t[i + 2..i + 6] + [BACKSLASH, LETTER_U] + t[i + 8..i + 12];
      Some(Pair(t[i + 2..i + 6], t[i + 8..i + 12]))
  }

  lemma SpellingLength(k: token)
    ensures |Spelling(k)| == if k.Raw? then 1 else if k.Short? then 2 else if k.Unit? then 6 else 12
  {
  }

  /** A spelled character is read back as itself, whatever follows. */
  lemma TokenBack(k: token, t: seq<byte>, i: nat)
    requires i + |Spelling(k)| <= |t| && t[i..i + |Spelling(k)|] == Spelling(k)
    ensures TokenAt(t, i) == Some(k)
  {
    hide Hex4, IsHex4;
    SpellingLength(k);
    var n := |Spelling(k)|;
    var u := t[i..i + n];
    assert t[i] == u[0];
    if !k.Raw? { assert t[i + 1] == u[1]; }
    if k.Unit? || k.Pair? { assert t[i + 2..i + 6] == u[2..6]; }
    if k.Pair? {
      assert t[i + 6] == u[6] && t[i + 7] == u[7] && t[i + 8..i + 12] == u[8..12];
    }
    Distinct(k);
  }

  lemma Distinct(k: token)
    ensures k.Short? ==> k.letter != LETTER_U
    ensures k.Unit? ==> Spelling(k)[2..6] == k.hex && !High(Hex4(k.hex)) && !Low(Hex4(k.hex))
    ensures k.Pair? ==> Spelling(k)[2..6] == k.high && Spelling(k)[8..12] == k.low && Spelling(k)[6] == BACKSLASH
                        && Spelling(k)[7] == LETTER_U
  {
  }

  /** Characters of a body from `i` on, if it is one. */
  function Tokens(t: seq<byte>, i: nat): (ks: Option<seq<token>>)
    requires i <= |t|
    decreases |t| - i
  {
    hide TokenAt, Spelling;
    if i == |t| then Some([])
    else
      var k := TokenAt(t, i);
      if k == None || |Spelling(k.value)| == 0 then None
      else
        match Tokens(t, i + |Spelling(k.value)|)
        case None => None
        case Some(rest) => Some([k.value] + rest)
  }

  /** Reading and writing bodies are inverse to each other. */
  lemma {:induction false} TokensOfSpellings(done: seq<byte>, ks: seq<token>)
    ensures Tokens(done + Spellings(ks), |done|) == Some(ks)
    decreases |ks|
  {
    hide TokenAt, Spelling;
    if ks == [] {
      assert done + Spellings(ks) == done;
    } else {
      var t, u := done + Spellings(ks), Spelling(ks[0]);
      assert t == done + u + Spellings(ks[1..]);
      assert t[|done|..|done| + |u|] == u;
      SpellingLength(ks[0]);
      TokenBack(ks[0], t, |done|);
      TokensOfSpellings(done + u, ks[1..]);
      assert ks == [ks[0]] + ks[1..];
    }
  }

  lemma {:induction false} SpellingsOfTokens(t: seq<byte>, i: nat)
    requires i <= |t| && Tokens(t, i).Some?
    ensures Spellings(Tokens(t, i).value) == t[i..]
    decreases |t| - i
  {
    hide TokenAt, Spelling;
    if i < |t| {
      var k := TokenAt(t, i).value;
      var j := i + |Spelling(k)|;
      SpellingsOfTokens(t, j);
      assert Tokens(t, i).value[1..] == Tokens(t, j).value;
      assert t[i..j] + t[j..] == t[i..];
    }
  }

  // ----- the scanner -----

  /** Where the string whose body starts at `i` has its closing quote. */
  function Closing(t: seq<byte>, i: nat): (e: Option<nat>)
    requires i <= |t|
    ensures e.Some? ==> i <= e.value < |t| && t[e.value] == QUOTE
    decreases |t| - i
  {
    hide TokenAt, Spelling;
    if i == |t| then None
    else if t[i] == QUOTE then Some(i)
    else
      var k := TokenAt(t, i);
      if k == None || |Spelling(k.value)| == 0 then None else Closing(t, i + |Spelling(k.value)|)
  }

  /** What the scanner delimits is a string body; and a body followed by a quote is delimited there. */
  lemma {:induction false} ClosingIsBody(t: seq<byte>, i: nat)
    requires i <= |t| && Closing(t, i).Some?
    ensures Tokens(t[..Closing(t, i).value], i).Some?
    decreases |t| - i
  {
    hide TokenAt, Spelling;
    if t[i] != QUOTE {
      var k := TokenAt(t, i).value;
      var j := i + |Spelling(k)|;
      ClosingIsBody(t, j);
      var body := t[..Closing(t, i).value];
      assert body[i..j] == t[i..j];
      TokenBack(k, body, i);
    }
  }

  lemma {:induction false} BodyIsClosed(body: seq<byte>, rest: seq<byte>, i: nat)
    requires i <= |body| && Tokens(body, i).Some?
    ensures Closing(body + [QUOTE] + rest, i) == Some(|body|)
    decreases |body| - i
  {
    hide TokenAt, Spelling;
    var t := body + [QUOTE] + rest;
    if i < |body| {
      var k := TokenAt(body, i).value;
      var j := i + |Spelling(k)|;
      assert t[i..j] == body[i..j];
      TokenBack(k, t, i);
      NoQuote(k, t, i);
      BodyIsClosed(body, rest, j);
    }
  }

  lemma NoQuote(k: token, t: seq<byte>, i: nat)
    requires i < |t| && TokenAt(t, i) == Some(k)
    ensures t[i] != QUOTE
  {
  }

  /** `parseString`: on success `cursor` is behind the closing quote. */
  method ParseString(json: seq<byte>, start: nat) returns (ok: bool, cursor: nat)
    ensures ok <==> start < |json| && json[start] == QUOTE && Closing(json, start + 1).Some?
    ensures ok ==> cursor == Closing(json, start + 1).value + 1
  {
    hide IsHex4, Hex4, TokenAt, Closing;
    cursor := start;
    if start >= |json| || json[start] != QUOTE { return false, start; }
    cursor := start + 1;
    while cursor < |json|
      invariant start < cursor <= |json|
      invariant Closing(json, start + 1) == Closing(json, cursor)
      decreases |json| - cursor
    {
      ghost var from := cursor;
      ClosingStep(json, from);
      TokenCases(json, from);
      var c := json[cursor];
      cursor := cursor + 1;
      if c == QUOTE { return true, cursor; }
      if c < 0x20 { return false, cursor; }
      if c != BACKSLASH { continue; }
      if cursor >= |json| { return false, cursor; }
      var escape := json[cursor];
      cursor := cursor + 1;
      if escape != LETTER_U {
        if EscapeValue(escape) == 0 { return false, cursor; }
        continue;
      }
      if cursor + 4 > |json| || !IsHex4(json[cursor..cursor + 4]) { return false, cursor; }
      var first := Hex4(json[cursor..cursor + 4]);
      cursor := cursor + 4;
      if High(first) {
        if cursor + 6 > |json| || json[cursor] != BACKSLASH || json[cursor + 1] != LETTER_U
           || !IsHex4(json[cursor + 2..cursor + 6]) || !Low(Hex4(json[cursor + 2..cursor + 6])) {
          return false, cursor;
        }
        cursor := cursor + 6;
      } else if Low(first) {
        return false, cursor;
      }
    }
    ClosingStep(json, cursor);
    ok := false;
  }

  lemma ClosingStep(t: seq<byte>, i: nat)
    requires i <= |t|
    ensures i == |t| ==> Closing(t, i) == None
    ensures i < |t| && t[i] == QUOTE ==> Closing(t, i) == Some(i)
    ensures i < |t| && t[i] != QUOTE && TokenAt(t, i) == None ==> Closing(t, i) == None
    ensures i < |t| && t[i] != QUOTE && TokenAt(t, i).Some? ==>
      Closing(t, i) == Closing(t, i + |Spelling(TokenAt(t, i).value)|)
  {
    hide TokenAt;
    if i < |t| && TokenAt(t, i).Some? { SpellingLength(TokenAt(t, i).value); }
  }

  /** `TokenAt`, branch by branch. */
  lemma TokenCases(t: seq<byte>, i: nat)
    requires i < |t|
    ensures var c, k := t[i], TokenAt(t, i);
      if c != BACKSLASH then (if c == QUOTE || c < 0x20 then k == None else k == Some(Raw(c)) && |Spelling(k.value)| == 1)
      else if i + 1 >= |t| then k == None
      else if t[i + 1] != LETTER_U then
        (if EscapeValue(t[i + 1]) == 0 then k == None else k == Some(Short(t[i + 1])) && |Spelling(k.value)| == 2)
      else if i + 6 > |t| || !IsHex4(t[i + 2..i + 6]) || Low(Hex4(t[i + 2..i + 6])) then k == None
      else if !High(Hex4(t[i + 2..i + 6])) then k == Some(Unit(t[i + 2..i + 6])) && |Spelling(k.value)| == 6
      else if i + 12 > |t| || t[i + 6] != BACKSLASH || t[i + 7] != LETTER_U || !IsHex4(t[i + 8..i + 12])
              || !Low(Hex4(t[i + 8..i + 12])) then k == None
      else k == Some(Pair(t[i + 2..i + 6], t[i + 8..i + 12])) && |Spelling(k.value)| == 12
  {
    hide Hex4, HexDigit, EscapeValue, Spelling;
    var k := TokenAt(t, i);
    if k.Some? { SpellingLength(k.value); }
  }

  // ----- length and text of a scanned string -----

  lemma TokensStep(t: seq<byte>, i: nat)
    requires i < |t| && Tokens(t, i).Some?
    ensures TokenAt(t, i).Some? && Tokens(t, i + |Spelling(TokenAt(t, i).value)|).Some?
    ensures Tokens(t, i).value == [TokenAt(t, i).value] + Tokens(t, i + |Spelling(TokenAt(t, i).value)|).value
  {
    hide TokenAt, Spelling;
  }

  lemma {:induction false} MeaningsOf(a: seq<token>, b: seq<token>)
    ensures Meanings(a + b) == Meanings(a) + Meanings(b)
  {
    hide Meaning;
    if a == [] {
      assert a + b == b;
    } else {
      assert (a + b)[1..] == a[1..] + b;
      MeaningsOf(a[1..], b);
    }
  }

  function EncodedLength(s: nat): nat {
    if s <= 0x7F then 1 else if s <= 0x7FF then 2 else if s <= 0xFFFF then 3 else 4
  }

  lemma MeaningLength(k: token)
    ensures |Meaning(k)| == if k.Raw? || k.Short? then 1 else EncodedLength(ScalarOf(k))
  {
    hide Hex4;
  }

  /** `decodedStringBytes` of a scanned string. */
  method DecodedStringBytes(value: seq<byte>) returns (ok: bool, decoded: nat)
    requires Tokens(value, 0).Some?
    ensures ok && decoded == |Meanings(Tokens(value, 0).value)|
  {
    hide Hex4, IsHex4, Tokens, TokenAt, Meaning, Meanings, EncodedLength;
    var cursor := 0;
    decoded := 0;
    while cursor < |value|
      invariant 0 <= cursor <= |value| && Tokens(value, cursor).Some?
      invariant decoded + |Meanings(Tokens(value, cursor).value)| == |Meanings(Tokens(value, 0).value)|
      decreases |value| - cursor
    {
      TokensStep(value, cursor);
      TokenCases(value, cursor);
      ghost var k, rest := TokenAt(value, cursor).value, Tokens(value, cursor).value;
      MeaningLength(k);
      MeaningsStep(rest);
      if value[cursor] != BACKSLASH {
        decoded, cursor := decoded + 1, cursor + 1;
        continue;
      }
      cursor := cursor + 1;
      var escape := value[cursor];
      cursor := cursor + 1;
      if escape != LETTER_U {
        decoded := decoded + 1;
        continue;
      }
      var first := Hex4(value[cursor..cursor + 4]);
      cursor := cursor + 4;
      var code: nat := first;
      if High(first) {
        var second := Hex4(value[cursor + 2..cursor + 6]);
        cursor := cursor + 6;
        code := 0x1_0000 + (first - 0xD800) * 1024 + (second - 0xDC00);
      }
      decoded := decoded + EncodedLength(code);
    }
    assert Meanings(Tokens(value, |value|).value) == [] by { EmptyBody(value); }
    ok := true;
  }

  lemma EmptyBody(t: seq<byte>)
    ensures Tokens(t, |t|) == Some([]) && Meanings([]) == []
  {
  }

  lemma MeaningsStep(ks: seq<token>)
    requires ks != []
    ensures Meanings(ks) == Meaning(ks[0]) + Meanings(ks[1..])
  {
  }

  /** `appendUtf8`. */
  method AppendUtf8(s: scalar, output: array<byte>, written: nat) returns (ok: bool, after: nat)
    requires written <= output.Length
    modifies output
    ensures ok <==> s != 0 && written + |Encoded(s)| < output.Length
    ensures ok ==> after == written + |Encoded(s)| && output[..after] == old(output[..written]) + Encoded(s)
    ensures !ok ==> after == written
  {
    hide Encoded;
    var octets := Encoded(s);
    if s == 0 || written + |octets| >= output.Length { return false, written; }
    forall k | 0 <= k < |octets| { output[written + k] := octets[k]; }
    ok, after := true, written + |octets|;
  }

  ghost predicate NoZero(ks: seq<token>) {
    forall k :: 0 <= k < |ks| ==> !Zero(ks[k])
  }

  /** Whether a decoded string fits: room for a terminator, a length of one octet, no NUL, valid UTF-8. */
  ghost predicate Decodes(ks: seq<token>, capacity: nat) {
    NoZero(ks) && |Meanings(ks)| < capacity && |Meanings(ks)| <= 255 && Valid(Meanings(ks))
  }

  /** The scalar value of the escape at `cursor`, behind its backslash, and where the next character starts. */
  method ReadEscape(value: seq<byte>, start: nat) returns (s: scalar, cursor: nat)
    requires start < |value| && value[start] == BACKSLASH && TokenAt(value, start).Some?
    ensures s == ScalarOf(TokenAt(value, start).value) && cursor == start + |Spelling(TokenAt(value, start).value)|
  {
    hide Hex4, IsHex4, TokenAt;
    TokenCases(value, start);
    var escape := value[start + 1];
    cursor := start + 2;
    if escape != LETTER_U { return EscapeValue(escape), cursor; }
    var first := Hex4(value[cursor..cursor + 4]);
    cursor := cursor + 4;
    if !High(first) { return first, cursor; }
    var second := Hex4(value[cursor + 2..cursor + 6]);
    cursor := cursor + 6;
    s := 0x1_0000 + (first - 0xD800) * 1024 + (second - 0xDC00);
  }

  /** `decodeString`: the text of a scanned string, written in place with a terminator. */
  method DecodeString(value: seq<byte>, output: array<byte>) returns (ok: bool, outputBytes: nat)
    requires Tokens(value, 0).Some?
    modifies output
    ensures ok <==> Decodes(Tokens(value, 0).value, output.Length)
    ensures ok ==> outputBytes == |Meanings(Tokens(value, 0).value)| < output.Length
                   && output[..outputBytes] == Meanings(Tokens(value, 0).value) && output[outputBytes] == 0
  {
    hide Tokens, TokenAt, Meanings, ScalarOf, Encoded, Valid;
    ghost var ks, done := Tokens(value, 0).value, [];
    var cursor: nat, written: nat := 0, 0;
    if output.Length == 0 { return false, 0; }
    assert ks == [] + ks;
    assert Meanings([]) == [] by { EmptyBody([]); }
    while cursor < |value|
      invariant 0 <= cursor <= |value| && Tokens(value, cursor).Some?
      invariant ks == done + Tokens(value, cursor).value
      invariant written < output.Length && output[..written] == Meanings(done) && NoZero(done)
      decreases |value| - cursor
    {
      TokensStep(value, cursor);
      TokenCases(value, cursor);
      ghost var k, rest := TokenAt(value, cursor).value, Tokens(value, cursor).value;
      assert ks == done + [k] + rest[1..];
      MeaningsOf(done, [k]);
      MeaningsOf(done + [k], rest[1..]);
      MeaningsOfOne(k);
      var current := value[cursor];
      if current != BACKSLASH {
        if written + 1 >= output.Length { return false, 0; }
        output[written] := current;
        cursor, written := cursor + 1, written + 1;
      } else {
        var s;
        s, cursor := ReadEscape(value, cursor);
        var appended;
        appended, written := AppendUtf8(s, output, written);
        if !appended {
          assert s == 0 ==> Zero(k) && ks[|done|] == k;
          return false, 0;
        }
      }
      done := done + [k];
    }
    EmptyBody(value);
    assert done == ks;
    if written > 255 { return false, 0; }
    output[written] := 0;
    var text := output[..written];
    assert text == Meanings(ks);
    ok := CheckUtf8(text);
    outputBytes := written;
  }

  lemma MeaningsOfOne(k: token)
    ensures Meanings([k]) == Meaning(k)
  {
    hide Meaning;
    assert [k][1..] == [];
  }
}
