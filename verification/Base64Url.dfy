/** Unpadded base64url (sections 3.5 and 5 of RFC 4648): the codec of the companion protocol and the updater's own
    decoder.  Shifts and masks are written as multiplication, division and remainder. */
module Base64Url {
  import opened Bytes

  const MINUS: byte := 45
  const UNDERSCORE: byte := 95

  type sextet = n: int | 0 <= n < 64

  function Letter(v: sextet): byte {
    if v < 26 then 65 + v else if v < 52 then 71 + v else if v < 62 then v - 4 else if v == 62 then MINUS else UNDERSCORE
  }

  /** `base64Value`. */
  function Value(c: byte): (v: int)
    ensures -1 <= v < 64
  {
    if 65 <= c <= 90 then c - 65
    else if 97 <= c <= 122 then c - 71
    else if 48 <= c <= 57 then c + 4
    else if c == MINUS then 62
    else if c == UNDERSCORE then 63
    else -1
  }

  lemma AlphabetInverse(v: sextet, c: byte)
    ensures Value(Letter(v)) == v
    ensures Value(c) >= 0 ==> Letter(Value(c)) == c
  {
  }

  // ----- one group -----

  function Quad(a: byte, b: byte, c: byte): (q: seq<byte>)
    ensures |q| == 4
  {
    [Letter(a / 4), Letter(a % 4 * 16 + b / 16), Letter(b % 16 * 4 + c / 64), Letter(c % 64)]
  }

  /** The octets of up to four characters' values. */
  function First(a: sextet, b: sextet): byte { a * 4 + b / 16 }
  function Second(b: sextet, c: sextet): byte { b % 16 * 16 + c / 4 }
  function Third(c: sextet, d: sextet): byte { c % 4 * 64 + d }

  // ----- whole texts -----

  function Encode(x: seq<byte>): (t: seq<byte>)
    ensures |t| == EncodedBytes(|x|)
  {
    if |x| == 0 then []
    else if |x| == 1 then Quad(x[0], 0, 0)[..2]
    else if |x| == 2 then Quad(x[0], x[1], 0)[..3]
    else Quad(x[0], x[1], x[2]) + Encode(x[3..])
  }

  /** `base64UrlEncodedBytes`. */
  function EncodedBytes(n: nat): nat {
    n / 3 * 4 + if n % 3 == 0 then 0 else n % 3 + 1
  }

  function DecodedBytes(n: nat): nat {
    n / 4 * 3 + if n % 4 == 0 then 0 else n % 4 - 1
  }

  /** The octets of a canonical text: every character in the alphabet, no lone character, unused bits zero. */
  function Decode(t: seq<byte>): (x: Option<seq<byte>>)
    ensures x.Some? ==> |t| % 4 != 1 && |x.value| == DecodedBytes(|t|)
  {
    hide Value, First, Second, Third;
    if |t| == 0 then Some([])
    else if |t| == 1 || Value(t[0]) < 0 || Value(t[1]) < 0 then None
    else if |t| == 2 then
      if Value(t[1]) % 16 != 0 then None else Some([First(Value(t[0]), Value(t[1]))])
    else if Value(t[2]) < 0 then None
    else if |t| == 3 then
      if Value(t[2]) % 4 != 0 then None
      else Some([First(Value(t[0]), Value(t[1])), Second(Value(t[1]), Value(t[2]))])
    else if Value(t[3]) < 0 then None
    else
      match Decode(t[4..])
      case None => None
      case Some(rest) =>
        Some([First(Value(t[0]), Value(t[1])), Second(Value(t[1]), Value(t[2])), Third(Value(t[2]), Value(t[3]))] + rest)
  }

  lemma QuadValues(a: byte, b: byte, c: byte)
    ensures var q := Quad(a, b, c);
      && Value(q[0]) == a / 4 && Value(q[1]) == a % 4 * 16 + b / 16
      && Value(q[2]) == b % 16 * 4 + c / 64 && Value(q[3]) == c % 64
      && (c == 0 ==> Value(q[2]) % 4 == 0) && (b == 0 ==> Value(q[1]) % 16 == 0)
      && First(Value(q[0]), Value(q[1])) == a && Second(Value(q[1]), Value(q[2])) == b && Third(Value(q[2]), Value(q[3])) == c
  {
    AlphabetInverse(a / 4, 0);
    AlphabetInverse(a % 4 * 16 + b / 16, 0);
    AlphabetInverse(b % 16 * 4 + c / 64, 0);
    AlphabetInverse(c % 64, 0);
  }

  /** Decoding what was encoded gives it back. */
  lemma {:induction false} DecodeEncode(x: seq<byte>)
    ensures Decode(Encode(x)) == Some(x)
  {
    hide First, Second, Third, Value, Letter;
    if |x| == 1 {
      QuadValues(x[0], 0, 0);
      assert x == [x[0]];
    } else if |x| == 2 {
      QuadValues(x[0], x[1], 0);
      assert x == [x[0], x[1]];
    } else if |x| >= 3 {
      QuadValues(x[0], x[1], x[2]);
      DecodeEncode(x[3..]);
      assert Encode(x)[4..] == Encode(x[3..]);
      assert [x[0], x[1], x[2]] + x[3..] == x;
    }
  }

  lemma SextetsBack(a: sextet, b: sextet, c: sextet, d: sextet)
    ensures First(a, b) / 4 == a && First(a, b) % 4 * 16 + Second(b, c) / 16 == b
    ensures Second(b, c) % 16 * 4 + Third(c, d) / 64 == c && Third(c, d) % 64 == d
  {
    assert First(a, b) % 4 == b / 16;
    assert Second(b, c) / 16 == b % 16 && Second(b, c) % 16 == c / 4;
    assert Third(c, d) / 64 == c % 4;
  }

  /** The letters come back from the octets they stand for. */
  lemma LettersBack(t: seq<byte>)
    requires |t| == 4 && Value(t[0]) >= 0 && Value(t[1]) >= 0 && Value(t[2]) >= 0 && Value(t[3]) >= 0
    ensures Quad(First(Value(t[0]), Value(t[1])), Second(Value(t[1]), Value(t[2])), Third(Value(t[2]), Value(t[3]))) == t
  {
    hide Letter, Value, First, Second, Third;
    AlphabetInverse(0, t[0]);
    AlphabetInverse(0, t[1]);
    AlphabetInverse(0, t[2]);
    AlphabetInverse(0, t[3]);
    SextetsBack(Value(t[0]), Value(t[1]), Value(t[2]), Value(t[3]));
  }

  /** Every accepted text is the encoding of its octets: no two texts decode alike. */
  lemma {:induction false} EncodeDecode(t: seq<byte>)
    requires Decode(t).Some?
    ensures Encode(Decode(t).value) == t
  {
    hide Value, Letter, First, Second, Third;
    if |t| == 2 {
      PadValue();
      LettersBack(t + [65, 65]);
      TailSecond(t[1]);
    } else if |t| == 3 {
      PadValue();
      LettersBack(t + [65]);
      TailThird(t[2]);
    } else if |t| >= 4 {
      LettersBack(t[..4]);
      EncodeDecode(t[4..]);
      assert Decode(t).value[3..] == Decode(t[4..]).value;
      assert t[..4] + t[4..] == t;
    }
  }

  lemma PadValue()
    ensures Value(65) == 0 && forall c: sextet :: Third(c, 0) == c % 4 * 64
  {
  }

  lemma TailSecond(c: byte)
    requires Value(c) >= 0 && Value(c) % 16 == 0
    ensures Second(Value(c), 0) == 0 && Third(0, 0) == 0
  {
  }

  lemma TailThird(c: byte)
    requires Value(c) >= 0 && Value(c) % 4 == 0
    ensures Third(Value(c), 0) == 0
  {
  }

  // ----- the protocol's codec, in place -----

  lemma EncodeTriple(x: seq<byte>, read: nat)
    requires read + 3 <= |x|
    ensures Encode(x[read..]) == Quad(x[read], x[read + 1], x[read + 2]) + Encode(x[read + 3..])
  {
    hide Quad;
    assert x[read..][3..] == x[read + 3..];
  }

  lemma EncodeTail(x: seq<byte>)
    requires |x| < 3
    ensures |x| == 0 ==> Encode(x) == []
    ensures |x| == 1 ==> Encode(x) == Quad(x[0], 0, 0)[..2]
    ensures |x| == 2 ==> Encode(x) == Quad(x[0], x[1], 0)[..3]
  {
    hide Quad;
  }

  /** Writes a few octets behind the ones already written. */
  method Store(output: array<byte>, at: nat, octets: seq<byte>)
    requires at + |octets| <= output.Length
    modifies output
    ensures output[..at + |octets|] == old(output[..at]) + octets
    ensures output[at + |octets|..] == old(output[at + |octets|..])
  {
    forall k | 0 <= k < |octets| { output[at + k] := octets[k]; }
  }

  /** `encodeBase64Url`: writes into `output` when it is large enough. */
  method EncodeInto(input: seq<byte>, output: array<byte>) returns (ok: bool, written: nat)
    modifies output
    ensures ok <==> EncodedBytes(|input|) <= output.Length
    ensures ok ==> written == EncodedBytes(|input|) && output[..written] == Encode(input)
                   && output[written..] == old(output[written..])
    ensures !ok ==> written == 0 && output[..] == old(output[..])
  {
    hide Quad, Letter, Encode;
    written := 0;
    if EncodedBytes(|input|) > output.Length { return false, 0; }
    var read := 0;
    assert input[0..] == input;
    while read + 3 <= |input|
      invariant 0 <= read <= |input| && written + EncodedBytes(|input| - read) == EncodedBytes(|input|)
      invariant output[..written] + Encode(input[read..]) == Encode(input)
      invariant output[written..] == old(output[written..])
    {
      var q := Quad(input[read], input[read + 1], input[read + 2]);
      EncodeTriple(input, read);
      ghost var done := output[..written];
      Store(output, written, q);
      written, read := written + 4, read + 3;
      assert done + (q + Encode(input[read..])) == (done + q) + Encode(input[read..]);
    }
    var remaining := |input| - read;
    ghost var done := output[..written];
    EncodeTail(input[read..]);
    if remaining == 1 {
      Store(output, written, Quad(input[read], 0, 0)[..2]);
      written := written + 2;
    } else if remaining == 2 {
      Store(output, written, Quad(input[read], input[read + 1], 0)[..3]);
      written := written + 3;
    }
    assert done + [] == done;
    ok := true;
  }

  function Prepend(done: seq<byte>, rest: Option<seq<byte>>): Option<seq<byte>> {
    match rest case None => None case Some(x) => Some(done + x)
  }

  /** Four characters in front of a decoded rest. */
  function DecodeGroup(p: byte, q: byte, r: byte, s: byte, rest: Option<seq<byte>>): Option<seq<byte>> {
    var a, b, c, d := Value(p), Value(q), Value(r), Value(s);
    if a < 0 || b < 0 || c < 0 || d < 0 then None else Prepend([First(a, b), Second(b, c), Third(c, d)], rest)
  }

  lemma DecodeQuad(t: seq<byte>, read: nat)
    requires read + 4 <= |t|
    ensures Decode(t[read..]) == DecodeGroup(t[read], t[read + 1], t[read + 2], t[read + 3], Decode(t[read + 4..]))
  {
    hide Value, First, Second, Third;
    assert t[read..][4..] == t[read + 4..];
  }

  /** `decodeBase64Url` of the protocol. */
  method DecodeInto(input: seq<byte>, output: array<byte>) returns (ok: bool, written: nat)
    modifies output
    ensures ok <==> Decode(input).Some? && DecodedBytes(|input|) <= output.Length
    ensures ok ==> written == DecodedBytes(|input|) && Some(output[..written]) == Decode(input)
    ensures !ok ==> written == 0
  {
    hide Value, First, Second, Third, Decode;
    if |input| % 4 == 1 || DecodedBytes(|input|) > output.Length { return false, 0; }
    var read, write := 0, 0;
    assert input[0..] == input;
    PrependNothing(Decode(input));
    assert output[..0] == [];
    while read + 4 <= |input|
      invariant 0 <= read <= |input| && write + DecodedBytes(|input| - read) == DecodedBytes(|input|)
      invariant (|input| - read) % 4 == |input| % 4
      invariant Decode(input) == Prepend(output[..write], Decode(input[read..]))
    {
      var a, b, c, d := Value(input[read]), Value(input[read + 1]), Value(input[read + 2]), Value(input[read + 3]);
      DecodeQuad(input, read);
      if a < 0 || b < 0 || c < 0 || d < 0 { return false, 0; }
      ghost var done := output[..write];
      Store(output, write, [First(a, b), Second(b, c), Third(c, d)]);
      read, write := read + 4, write + 3;
      Reassociate(done, [First(a, b), Second(b, c), Third(c, d)], Decode(input[read..]));
    }
    var remaining := |input| - read;
    DecodeTail(input[read..]);
    ghost var done := output[..write];
    if remaining == 2 {
      var a, b := Value(input[read]), Value(input[read + 1]);
      if a < 0 || b < 0 || b % 16 != 0 { return false, 0; }
      Store(output, write, [First(a, b)]);
      write := write + 1;
    } else if remaining == 3 {
      var a, b, c := Value(input[read]), Value(input[read + 1]), Value(input[read + 2]);
      if a < 0 || b < 0 || c < 0 || c % 4 != 0 { return false, 0; }
      Store(output, write, [First(a, b), Second(b, c)]);
      write := write + 2;
    }
    assert done + [] == done;
    ok, written := true, write;
  }

  lemma PrependNothing(x: Option<seq<byte>>)
    ensures Prepend([], x) == x
  {
    if x.Some? { assert [] + x.value == x.value; }
  }

  lemma Reassociate(a: seq<byte>, b: seq<byte>, rest: Option<seq<byte>>)
    ensures Prepend(a, Prepend(b, rest)) == Prepend(a + b, rest)
  {
    if rest.Some? { assert a + (b + rest.value) == a + b + rest.value; }
  }

  lemma DecodeTail(v: seq<byte>)
    requires |v| < 4 && |v| != 1
    ensures |v| == 0 ==> Decode(v) == Some([])
    ensures |v| == 2 ==> Decode(v) == if Value(v[0]) < 0 || Value(v[1]) < 0 || Value(v[1]) % 16 != 0 then None
                                      else Some([First(Value(v[0]), Value(v[1]))])
    ensures |v| == 3 ==> Decode(v) == if Value(v[0]) < 0 || Value(v[1]) < 0 || Value(v[2]) < 0 || Value(v[2]) % 4 != 0 then None
                                      else Some([First(Value(v[0]), Value(v[1])), Second(Value(v[1]), Value(v[2]))])
  {
    hide Value, First, Second;
  }

  /** The updater's decoder: it refuses the empty text and counts what it has written as it goes, and otherwise accepts
      the same texts with the same octets. */
  method DecodeForUpdate(input: seq<byte>, output: array<byte>) returns (ok: bool, written: nat)
    modifies output
    ensures ok <==> input != [] && Decode(input).Some? && DecodedBytes(|input|) <= output.Length
    ensures written <= output.Length
    ensures ok ==> Some(output[..written]) == Decode(input)
  {
    hide Value, First, Second, Third, Decode;
    written := 0;
    if |input| == 0 || |input| % 4 == 1 || DecodedBytes(|input|) > output.Length { return false, 0; }
    var cursor := 0;
    assert input[0..] == input;
    PrependNothing(Decode(input));
    assert output[..0] == [];
    while cursor + 4 <= |input|
      invariant 0 <= cursor <= |input| && written + DecodedBytes(|input| - cursor) == DecodedBytes(|input|)
      invariant (|input| - cursor) % 4 == |input| % 4
      invariant Decode(input) == Prepend(output[..written], Decode(input[cursor..]))
    {
      var a, b, c, d := Value(input[cursor]), Value(input[cursor + 1]), Value(input[cursor + 2]), Value(input[cursor + 3]);
      DecodeQuad(input, cursor);
      if a < 0 || b < 0 || c < 0 || d < 0 { return false, written; }
      ghost var done := output[..written];
      Store(output, written, [First(a, b), Second(b, c), Third(c, d)]);
      written := written + 3;
      cursor := cursor + 4;
      Reassociate(done, [First(a, b), Second(b, c), Third(c, d)], Decode(input[cursor..]));
    }
    var tail := |input| - cursor;
    DecodeTail(input[cursor..]);
    ghost var done := output[..written];
    if tail == 2 {
      var a, b := Value(input[cursor]), Value(input[cursor + 1]);
      if a < 0 || b < 0 || b % 16 != 0 { return false, written; }
      Store(output, written, [First(a, b)]);
      written := written + 1;
    } else if tail == 3 {
      var a, b, c := Value(input[cursor]), Value(input[cursor + 1]), Value(input[cursor + 2]);
      if a < 0 || b < 0 || c < 0 || c % 4 != 0 { return false, written; }
      Store(output, written, [First(a, b), Second(b, c)]);
      written := written + 2;
    }
    assert done + [] == done;
    ok := true;
  }
}
