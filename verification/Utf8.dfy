/** UTF-8 (sections 3 and 4 of RFC 3629): the protocol's validator, the chat validator and the encoder of decoded escapes.
    Masks and shifts are written as division and remainder. */
module Utf8 {
  import opened Bytes

  predicate Surrogate(s: nat) { 0xD800 <= s <= 0xDFFF }

  type scalar = s: nat | s <= 0x10FFFF && !Surrogate(s)

  /** The octets of one scalar value. */
  function Encoded(s: scalar): (t: seq<byte>)
    ensures 1 <= |t| <= 4
  {
    if s <= 0x7F then [s]
    else if s <= 0x7FF then [0xC0 + s / 64, 0x80 + s % 64]
    else if s <= 0xFFFF then [0xE0 + s / 4096, 0x80 + s / 64 % 64, 0x80 + s % 64]
    else [0xF0 + s / 262144, 0x80 + s / 4096 % 64, 0x80 + s / 64 % 64, 0x80 + s % 64]
  }

  function Text(scalars: seq<scalar>): seq<byte> {
    if scalars == [] then [] else Encoded(scalars[0]) + Text(scalars[1..])
  }

  // ----- the validators' step -----

  /** Continuation octets a lead octet announces, 4 if it announces nothing valid. */
  function Continuations(first: byte): (n: nat)
    ensures n <= 4
  {
    if first <= 0x7F then 0 else if 0xC2 <= first <= 0xDF then 1 else if 0xE0 <= first <= 0xEF then 2
    else if 0xF0 <= first <= 0xF4 then 3 else 4
  }

  function LeadBits(first: byte): nat {
    if first <= 0x7F then first else if first <= 0xDF then first % 32 else if first <= 0xEF then first % 16 else first % 8
  }

  function Minimum(n: nat): nat {
    if n == 0 then 0 else if n == 1 then 0x80 else if n == 2 then 0x800 else 0x10000
  }

  predicate IsContinuation(b: byte) { b / 64 == 2 }

  /** The six bits a continuation octet carries. */
  function Low6(b: byte): (v: nat)
    ensures v < 64
  {
    b % 64
  }

  predicate Continued(t: seq<byte>, i: nat, k: nat)
    requires i + k < |t|
  {
    k == 0 || (Continued(t, i, k - 1) && IsContinuation(t[i + k]))
  }

  /** The code point accumulated after `k` continuation octets. */
  function Accumulated(t: seq<byte>, i: nat, k: nat): nat
    requires i + k < |t|
  {
    if k == 0 then LeadBits(t[i]) else Accumulated(t, i, k - 1) * 64 + Low6(t[i + k])
  }

  predicate InRange(code: nat, n: nat) {
    Minimum(n) <= code <= 0x10FFFF && !Surrogate(code)
  }

  /** The scalar value that starts at `i`, if one does. */
  function ScalarAt(t: seq<byte>, i: nat): (s: Option<scalar>)
    requires i < |t|
    ensures s.Some? ==> i + Continuations(t[i]) < |t|
  {
    var n := Continuations(t[i]);
    if n == 4 || i + n >= |t| || !Continued(t, i, n) || !InRange(Accumulated(t, i, n), n) then None
    else
      var s: scalar := Accumulated(t, i, n);
      Some(s)
  }

  predicate Control(s: nat) {
    s <= 0x1F || 0x7F <= s <= 0x9F
  }

  /** Both validators refuse something: zero in one, every control in the other. */
  function Refused(user: bool, s: nat): bool {
    if user then Control(s) else s == 0
  }

  predicate ValidFrom(t: seq<byte>, i: nat, user: bool)
    requires i <= |t|
    decreases |t| - i
  {
    i == |t| || (ScalarAt(t, i).Some? && !Refused(user, ScalarAt(t, i).value) && ValidFrom(t, i + Continuations(t[i]) + 1, user))
  }

  /** `validUtf8`. */
  predicate Valid(t: seq<byte>) { ValidFrom(t, 0, false) }

  /** `validUserUtf8`. */
  predicate ValidForUser(t: seq<byte>) { ValidFrom(t, 0, true) }

  // ----- one scalar value -----

  lemma Unrolled(t: seq<byte>, i: nat, n: nat)
    requires i + n < |t| && n <= 3
    ensures n == 0 ==> Accumulated(t, i, n) == LeadBits(t[i]) && Continued(t, i, n)
    ensures n == 1 ==> Accumulated(t, i, n) == LeadBits(t[i]) * 64 + Low6(t[i + 1])
    ensures n == 2 ==> Accumulated(t, i, n) == LeadBits(t[i]) * 4096 + Low6(t[i + 1]) * 64 + Low6(t[i + 2])
    ensures n == 3 ==>
      Accumulated(t, i, n) == LeadBits(t[i]) * 262144 + Low6(t[i + 1]) * 4096 + Low6(t[i + 2]) * 64 + Low6(t[i + 3])
    ensures Continued(t, i, n) <==> (n >= 1 ==> IsContinuation(t[i + 1])) && (n >= 2 ==> IsContinuation(t[i + 2]))
                                    && (n >= 3 ==> IsContinuation(t[i + 3]))
  {
    hide LeadBits, Low6, IsContinuation;
    if n >= 1 { assert Accumulated(t, i, 1) == Accumulated(t, i, 0) * 64 + Low6(t[i + 1]) && Continued(t, i, 0); }
    if n >= 2 { assert Accumulated(t, i, 2) == Accumulated(t, i, 1) * 64 + Low6(t[i + 2]); }
    if n >= 3 { assert Accumulated(t, i, 3) == Accumulated(t, i, 2) * 64 + Low6(t[i + 3]); }
  }

  /** Reading back an encoded scalar value. */
  lemma ReadsBack(s: scalar, t: seq<byte>, i: nat)
    requires i + |Encoded(s)| <= |t| && t[i..i + |Encoded(s)|] == Encoded(s)
    ensures ScalarAt(t, i) == Some(s) && Continuations(t[i]) + 1 == |Encoded(s)|
  {
    hide Encoded, LeadBits, Low6, IsContinuation, Continuations, InRange, Continued, Accumulated;
    var e := Encoded(s);
    var u := t[i..i + |e|];
    assert t[i] == u[0];
    if |e| >= 2 { assert t[i + 1] == u[1]; }
    if |e| >= 3 { assert t[i + 2] == u[2]; }
    if |e| >= 4 { assert t[i + 3] == u[3]; }
    Unrolled(t, i, |e| - 1);
    Digits(s);
    EncodedParts(s);
  }

  /** The base-64 digits of a scalar value. */
  lemma Digits(s: nat)
    ensures s == s / 64 * 64 + s % 64
    ensures s == s / 4096 * 4096 + s / 64 % 64 * 64 + s % 64
    ensures s == s / 262144 * 262144 + s / 4096 % 64 * 4096 + s / 64 % 64 * 64 + s % 64
  {
    assert s / 64 / 64 == s / 4096;
    assert s / 4096 / 64 == s / 262144;
  }

  lemma EncodedParts(s: scalar)
    ensures var e := Encoded(s);
      && Continuations(e[0]) == |e| - 1 && InRange(s, |e| - 1)
      && (|e| == 1 ==> LeadBits(e[0]) == s)
      && (|e| == 2 ==> LeadBits(e[0]) == s / 64)
      && (|e| == 3 ==> LeadBits(e[0]) == s / 4096)
      && (|e| == 4 ==> LeadBits(e[0]) == s / 262144)
      && (|e| >= 2 ==> Tail(e[|e| - 1], s % 64))
      && (|e| >= 3 ==> Tail(e[|e| - 2], s / 64 % 64))
      && (|e| == 4 ==> Tail(e[1], s / 4096 % 64))
  {
    hide Tail;
    TailOf(s % 64);
    TailOf(s / 64 % 64);
    TailOf(s / 4096 % 64);
  }

  predicate Tail(b: byte, bits: nat) {
    IsContinuation(b) && Low6(b) == bits
  }

  lemma TailOf(bits: nat)
    requires bits < 64
    ensures Tail(0x80 + bits, bits)
  {
  }

  /** What was read is the encoding of its value: no overlong or second spelling is accepted. */
  lemma OnlySpelling(t: seq<byte>, i: nat)
    requires i < |t| && ScalarAt(t, i).Some?
    ensures Encoded(ScalarAt(t, i).value) == t[i..i + Continuations(t[i]) + 1]
  {
    hide Encoded, Accumulated, Continued, LeadBits, Low6, IsContinuation;
    var n := Continuations(t[i]);
    Unrolled(t, i, n);
    SplitDigits(LeadBits(t[i]), if n >= 1 then Low6(t[i + 1]) else 0, if n >= 2 then Low6(t[i + 2]) else 0,
                if n >= 3 then Low6(t[i + 3]) else 0);
    Rebuilt(t[i..i + n + 1]);
  }

  lemma LeadIs(b: byte)
    ensures Continuations(b) == 0 ==> b == LeadBits(b) <= 0x7F
    ensures Continuations(b) == 1 ==> b == 0xC0 + LeadBits(b) && LeadBits(b) < 32
    ensures Continuations(b) == 2 ==> b == 0xE0 + LeadBits(b) && LeadBits(b) < 16
    ensures Continuations(b) == 3 ==> b == 0xF0 + LeadBits(b)
  {
  }

  lemma ContinuationIs(b: byte)
    requires IsContinuation(b)
    ensures b == 0x80 + Low6(b)
  {
  }

  /** Octets with a lead and continuation bits are rebuilt from the bits they carry. */
  lemma Rebuilt(e: seq<byte>)
    requires |e| > 0 && Continuations(e[0]) == |e| - 1 && forall k :: 1 <= k < |e| ==> IsContinuation(e[k])
    ensures |e| == 1 ==> InRange(LeadBits(e[0]), 0) ==> Encoded(LeadBits(e[0])) == e
    ensures |e| == 2 ==> var s := LeadBits(e[0]) * 64 + Low6(e[1]); InRange(s, 1) ==> Encoded(s) == e
    ensures |e| == 3 ==> var s := LeadBits(e[0]) * 4096 + Low6(e[1]) * 64 + Low6(e[2]); InRange(s, 2) ==> Encoded(s) == e
    ensures |e| == 4 ==>
      var s := LeadBits(e[0]) * 262144 + Low6(e[1]) * 4096 + Low6(e[2]) * 64 + Low6(e[3]); InRange(s, 3) ==> Encoded(s) == e
  {
    hide IsContinuation, LeadBits, Low6, Continuations;
    LeadIs(e[0]);
    if |e| >= 2 { ContinuationIs(e[1]); }
    if |e| >= 3 { ContinuationIs(e[2]); }
    if |e| >= 4 { ContinuationIs(e[3]); }
    SplitDigits(LeadBits(e[0]), if |e| >= 2 then Low6(e[1]) else 0, if |e| >= 3 then Low6(e[2]) else 0,
                if |e| >= 4 then Low6(e[3]) else 0);
  }

  lemma SplitDigits(a: nat, b: nat, c: nat, d: nat)
    requires b < 64 && c < 64 && d < 64
    ensures (a * 64 + b) / 64 == a && (a * 64 + b) % 64 == b
    ensures var s := a * 4096 + b * 64 + c; s / 4096 == a && s / 64 % 64 == b && s % 64 == c
    ensures var s := a * 262144 + b * 4096 + c * 64 + d;
      s / 262144 == a && s / 4096 % 64 == b && s / 64 % 64 == c && s % 64 == d
  {
    var s := a * 4096 + b * 64 + c;
    assert s / 64 == a * 64 + b;
    var u := a * 262144 + b * 4096 + c * 64 + d;
    assert u / 64 == a * 4096 + b * 64 + c;
    assert u / 4096 == a * 64 + b;
  }

  // ----- whole texts -----

  /** The scalar values of an accepted text. */
  function Scalars(t: seq<byte>, i: nat, user: bool): (ss: seq<scalar>)
    requires i <= |t| && ValidFrom(t, i, user)
    decreases |t| - i
  {
    if i == |t| then [] else [ScalarAt(t, i).value] + Scalars(t, i + Continuations(t[i]) + 1, user)
  }

  ghost predicate Allowed(ss: seq<scalar>, user: bool) {
    forall k :: 0 <= k < |ss| ==> !Refused(user, ss[k])
  }

  /** Accepted texts are concatenations of encoded allowed scalar values … */
  lemma {:induction false} ValidIsText(t: seq<byte>, i: nat, user: bool)
    requires i <= |t| && ValidFrom(t, i, user)
    ensures Text(Scalars(t, i, user)) == t[i..] && Allowed(Scalars(t, i, user), user)
    decreases |t| - i
  {
    hide ScalarAt, Encoded, Continuations, Refused;
    if i < |t| {
      var j := i + Continuations(t[i]) + 1;
      ValidIsText(t, j, user);
      OnlySpelling(t, i);
      assert t[i..j] + t[j..] == t[i..];
      assert Scalars(t, i, user)[1..] == Scalars(t, j, user);
    }
  }

  lemma OneMore(t: seq<byte>, i: nat, s: scalar, user: bool)
    requires i + |Encoded(s)| <= |t| && t[i..i + |Encoded(s)|] == Encoded(s) && !Refused(user, s)
    requires ValidFrom(t, i + |Encoded(s)|, user)
    ensures ValidFrom(t, i, user) && Scalars(t, i, user) == [s] + Scalars(t, i + |Encoded(s)|, user)
  {
    hide ScalarAt, Encoded, Continuations, Refused;
    ReadsBack(s, t, i);
  }

  lemma AtTheEnd(t: seq<byte>, user: bool)
    ensures ValidFrom(t, |t|, user) && Scalars(t, |t|, user) == []
  {
  }

  /** … all of them, and each only as itself. */
  lemma {:induction false} TextIsValid(done: seq<byte>, ss: seq<scalar>, user: bool)
    requires Allowed(ss, user)
    ensures ValidFrom(done + Text(ss), |done|, user) && Scalars(done + Text(ss), |done|, user) == ss
    decreases |ss|
  {
    hide Encoded, Refused, ValidFrom, Scalars;
    if ss == [] {
      assert done + Text(ss) == done;
      AtTheEnd(done, user);
    } else {
      var t := done + Text(ss);
      var e := Encoded(ss[0]);
      assert t == done + e + Text(ss[1..]);
      assert t[|done|..|done| + |e|] == e;
      TextIsValid(done + e, ss[1..], user);
      OneMore(t, |done|, ss[0], user);
      assert ss == [ss[0]] + ss[1..];
    }
  }

  /** `validUtf8` accepts exactly the encodings of sequences of non-zero scalar values; `validUserUtf8` exactly those
      without C0, DEL and C1 controls. */
  lemma AcceptedTexts(t: seq<byte>)
    ensures Valid(t) <==> exists ss: seq<scalar> :: (forall k :: 0 <= k < |ss| ==> ss[k] != 0) && t == Text(ss)
    ensures ValidForUser(t) <==> exists ss: seq<scalar> :: (forall k :: 0 <= k < |ss| ==> !Control(ss[k])) && t == Text(ss)
  {
    hide ScalarAt, Encoded, Control;
    assert t[0..] == t;
    if Valid(t) { ValidIsText(t, 0, false); }
    if ValidForUser(t) { ValidIsText(t, 0, true); }
    forall ss: seq<scalar> | t == Text(ss)
      ensures (forall k :: 0 <= k < |ss| ==> ss[k] != 0) ==> Valid(t)
      ensures (forall k :: 0 <= k < |ss| ==> !Control(ss[k])) ==> ValidForUser(t)
    {
      assert [] + Text(ss) == t;
      if forall k :: 0 <= k < |ss| ==> ss[k] != 0 { TextIsValid([], ss, false); }
      if forall k :: 0 <= k < |ss| ==> !Control(ss[k]) { TextIsValid([], ss, true); }
    }
  }

  /** The chat validator is the other one plus a ban on controls. */
  lemma {:induction false} UserTextsAreValid(t: seq<byte>, i: nat)
    requires i <= |t|
    ensures ValidFrom(t, i, true) <==> ValidFrom(t, i, false) && forall s :: s in Scalars(t, i, false) ==> !Control(s)
    decreases |t| - i
  {
    hide ScalarAt, Continuations;
    if i < |t| && ScalarAt(t, i).Some? {
      var j := i + Continuations(t[i]) + 1;
      UserTextsAreValid(t, j);
      if ValidFrom(t, i, false) {
        assert Scalars(t, i, false)[0] == ScalarAt(t, i).value;
        assert Scalars(t, i, false)[1..] == Scalars(t, j, false);
      }
    }
  }

  // ----- the two loops -----

  /** `validUtf8`. */
  method CheckUtf8(input: seq<byte>) returns (ok: bool)
    ensures ok <==> Valid(input)
  {
    hide LeadBits, IsContinuation, Low6, Continuations;
    var i := 0;
    while i < |input|
      invariant 0 <= i <= |input|
      invariant Valid(input) <==> ValidFrom(input, i, false)
    {
      var first := input[i];
      var continuation := Continuations(first);
      if continuation == 4 || i + 1 + continuation > |input| { return false; }
      var codepoint := LeadBits(first);
      var j := 0;
      while j < continuation
        invariant 0 <= j <= continuation
        invariant codepoint == Accumulated(input, i, j) && Continued(input, i, j)
      {
        j := j + 1;
        if !IsContinuation(input[i + j]) {
          Broken(input, i, j, continuation);
          return false;
        }
        codepoint := codepoint * 64 + Low6(input[i + j]);
      }
      if !InRange(codepoint, continuation) || codepoint == 0 { return false; }
      i := i + 1 + continuation;
    }
    ok := true;
  }

  lemma {:induction false} Broken(t: seq<byte>, i: nat, j: nat, n: nat)
    requires i + n < |t| && j <= n && !Continued(t, i, j)
    ensures !Continued(t, i, n)
  {
    if j < n { Broken(t, i, j, n - 1); }
  }

  /** `validUserUtf8`. */
  method CheckUserUtf8(input: seq<byte>) returns (ok: bool)
    ensures ok <==> ValidForUser(input)
  {
    hide LeadBits, IsContinuation, Low6, Continuations;
    var i := 0;
    while i < |input|
      invariant 0 <= i <= |input|
      invariant ValidForUser(input) <==> ValidFrom(input, i, true)
    {
      var continuationCount := Continuations(input[i]);
      if continuationCount == 4 || i + continuationCount >= |input| { return false; }
      var codePoint := LeadBits(input[i]);
      var j := 1;
      while j <= continuationCount
        invariant 1 <= j <= continuationCount + 1
        invariant codePoint == Accumulated(input, i, j - 1) && Continued(input, i, j - 1)
      {
        if !IsContinuation(input[i + j]) {
          Broken(input, i, j, continuationCount);
          return false;
        }
        codePoint := codePoint * 64 + Low6(input[i + j]);
        j := j + 1;
      }
      if !InRange(codePoint, continuationCount) || Control(codePoint) { return false; }
      i := i + continuationCount + 1;
    }
    ok := true;
  }
}
