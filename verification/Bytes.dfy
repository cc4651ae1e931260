/** Octets and the fixed-width arithmetic every other module shares. */
module Bytes {

  type byte = b: int | 0 <= b < 256

  const TWO_32: nat := 0x1_0000_0000
  const TWO_64: nat := 0x1_0000_0000_0000_0000

  type u32 = n: int | 0 <= n < TWO_32

  datatype Option<+T> = None | Some(value: T)

  function Repeat<T>(x: T, n: nat): (s: seq<T>)
    ensures |s| == n && forall i :: 0 <= i < n ==> s[i] == x
  {
    seq(n, _ => x)
  }

  /** Unsigned 32-bit subtraction, wrapping as the hardware does. */
  function Sub32(a: int, b: int): (d: int)
    ensures 0 <= d < TWO_32
  {
    (a - b) % TWO_32
  }

  /** `static_cast<int32_t>(a - b) > 0`: serial-number comparison. */
  predicate After32(a: int, b: int) {
    0 < Sub32(a, b) < 0x8000_0000
  }

  /** `static_cast<int32_t>(now - deadline) >= 0`. */
  predicate Reached32(now: int, deadline: int) {
    Sub32(now, deadline) < 0x8000_0000
  }

  /** Big-endian encodings used on the wire and in authenticated transcripts. */
  function Be16(n: nat): (s: seq<byte>)
    requires n < 0x1_0000
    ensures |s| == 2
  {
    [n / 256, n % 256]
  }

  function Be32(n: nat): (s: seq<byte>)
    requires n < TWO_32
    ensures |s| == 4
  {
    Be16(n / 0x1_0000) + Be16(n % 0x1_0000)
  }

  function Be64(n: nat): (s: seq<byte>)
    requires n < TWO_64
    ensures |s| == 8
  {
    Be32(n / TWO_32) + Be32(n % TWO_32)
  }

  function FromBe32(s: seq<byte>): (n: nat)
    requires |s| == 4
    ensures n < TWO_32
  {
    var a: int, b: int, c: int, d: int := s[0], s[1], s[2], s[3];
    a * 0x100_0000 + b * 0x1_0000 + c * 0x100 + d
  }

  lemma Be16Injective(m: nat, n: nat)
    requires m < 0x1_0000 && n < 0x1_0000 && Be16(m) == Be16(n)
    ensures m == n
  {
    assert Be16(m)[0] == Be16(n)[0] && Be16(m)[1] == Be16(n)[1];
  }

  lemma Be32Inverse(n: nat)
    requires n < TWO_32
    ensures FromBe32(Be32(n)) == n
  {
    var hi, lo := n / 0x1_0000, n % 0x1_0000;
    assert Be32(n) == [hi / 256, hi % 256, lo / 256, lo % 256];
  }

  lemma Be32Injective(m: nat, n: nat)
    requires m < TWO_32 && n < TWO_32 && Be32(m) == Be32(n)
    ensures m == n
  {
    Be32Inverse(m);
    Be32Inverse(n);
  }

  lemma Be64Injective(m: nat, n: nat)
    requires m < TWO_64 && n < TWO_64 && Be64(m) == Be64(n)
    ensures m == n
  {
    assert Be64(m)[..4] == Be32(m / TWO_32) && Be64(n)[..4] == Be32(n / TWO_32);
    assert Be64(m)[4..] == Be32(m % TWO_32) && Be64(n)[4..] == Be32(n % TWO_32);
    Be32Injective(m / TWO_32, n / TWO_32);
    Be32Injective(m % TWO_32, n % TWO_32);
  }

  /** Concatenation of a list of pieces. */
  function Flatten<T>(pieces: seq<seq<T>>): seq<T> {
    if pieces == [] then [] else pieces[0] + Flatten(pieces[1..])
  }

  lemma {:induction false} FlattenSnoc<T>(pieces: seq<seq<T>>, last: seq<T>)
    ensures Flatten(pieces + [last]) == Flatten(pieces) + last
  {
    if pieces == [] {
      assert [] + [last] == [last];
      assert Flatten<T>([last]) == last + Flatten<T>([last][1..]);
    } else {
      assert (pieces + [last])[1..] == pieces[1..] + [last];
      FlattenSnoc(pieces[1..], last);
      assert pieces[0] + (Flatten(pieces[1..]) + last) == pieces[0] + Flatten(pieces[1..]) + last;
    }
  }
}
