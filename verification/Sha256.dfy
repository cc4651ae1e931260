/** The updater's software SHA-256 (sections 5.1.1, 5.2.1, 5.3.3 and 6.2.2 of FIPS 180-4).
    The functions define the hash of a whole message; `Sha256Context` is the streaming form. */
module Sha256 {
  import opened Bytes

  type word = bv32

  const K: seq<word> := [
    0x428a2f98, 0x71374491, 0xb5c0fbcf, 0xe9b5dba5, 0x3956c25b, 0x59f111f1, 0x923f82a4, 0xab1c5ed5,
    0xd807aa98, 0x12835b01, 0x243185be, 0x550c7dc3, 0x72be5d74, 0x80deb1fe, 0x9bdc06a7, 0xc19bf174,
    0xe49b69c1, 0xefbe4786, 0x0fc19dc6, 0x240ca1cc, 0x2de92c6f, 0x4a7484aa, 0x5cb0a9dc, 0x76f988da,
    0x983e5152, 0xa831c66d, 0xb00327c8, 0xbf597fc7, 0xc6e00bf3, 0xd5a79147, 0x06ca6351, 0x14292967,
    0x27b70a85, 0x2e1b2138, 0x4d2c6dfc, 0x53380d13, 0x650a7354, 0x766a0abb, 0x81c2c92e, 0x92722c85,
    0xa2bfe8a1, 0xa81a664b, 0xc24b8b70, 0xc76c51a3, 0xd192e819, 0xd6990624, 0xf40e3585, 0x106aa070,
    0x19a4c116, 0x1e376c08, 0x2748774c, 0x34b0bcb5, 0x391c0cb3, 0x4ed8aa4a, 0x5b9cca4f, 0x682e6ff3,
    0x748f82ee, 0x78a5636f, 0x84c87814, 0x8cc70208, 0x90befffa, 0xa4506ceb, 0xbef9a3f7, 0xc67178f2]

  function Constant(t: nat): word
    requires t < 64
  {
    K[t]
  }

  /** The eight 32-bit words of a chaining value or of the working variables. */
  datatype Words = Words(a: word, b: word, c: word, d: word, e: word, f: word, g: word, h: word)

  const IV: Words := Words(0x6a09e667, 0xbb67ae85, 0x3c6ef372, 0xa54ff53a,
                           0x510e527f, 0x9b05688c, 0x1f83d9ab, 0x5be0cd19)

  function Rotr(x: word, n: nat): word
    requires 0 < n < 32
  {
    (x >> n) | (x << (32 - n))
  }

  function LoadWord(block: seq<byte>, i: nat): word
    requires i + 4 <= |block|
  {
    ((block[i] as word) << 24) | ((block[i + 1] as word) << 16) | ((block[i + 2] as word) << 8) | (block[i + 3] as word)
  }

  function SmallSigma0(x: word): word { Rotr(x, 7) ^ Rotr(x, 18) ^ (x >> 3) }
  function SmallSigma1(x: word): word { Rotr(x, 17) ^ Rotr(x, 19) ^ (x >> 10) }
  function BigSigma0(x: word): word { Rotr(x, 2) ^ Rotr(x, 13) ^ Rotr(x, 22) }
  function BigSigma1(x: word): word { Rotr(x, 6) ^ Rotr(x, 11) ^ Rotr(x, 25) }
  function Choice(e: word, f: word, g: word): word { (e & f) ^ (!e & g) }
  function Majority(a: word, b: word, c: word): word { (a & b) ^ (a & c) ^ (b & c) }

  function ScheduleStep(w16: word, w15: word, w7: word, w2: word): word {
    w16 + SmallSigma0(w15) + w7 + SmallSigma1(w2)
  }

  /** Message schedule, step 1 of section 6.2.2. */
  function Schedule(block: seq<byte>, t: nat): word
    requires |block| == 64 && t < 64
  {
    if t < 16 then LoadWord(block, 4 * t)
    else ScheduleStep(Schedule(block, t - 16), Schedule(block, t - 15), Schedule(block, t - 7), Schedule(block, t - 2))
  }

  /** One iteration of step 3 of section 6.2.2. */
  function Temporary1(e: word, f: word, g: word, h: word, k: word, w: word): word {
    h + BigSigma1(e) + Choice(e, f, g) + k + w
  }

  function Temporary2(a: word, b: word, c: word): word {
    BigSigma0(a) + Majority(a, b, c)
  }

  function Plus(x: word, y: word): word { x + y }

  function Round(v: Words, k: word, w: word): Words {
    var t1 := Temporary1(v.e, v.f, v.g, v.h, k, w);
    var t2 := Temporary2(v.a, v.b, v.c);
    Words(Plus(t1, t2), v.a, v.b, v.c, Plus(v.d, t1), v.e, v.f, v.g)
  }

  function Rounds(v: Words, block: seq<byte>, t: nat): Words
    requires |block| == 64 && t <= 64
  {
    if t == 0 then v else Round(Rounds(v, block, t - 1), Constant(t - 1), Schedule(block, t - 1))
  }

  function Compress(h: Words, block: seq<byte>): Words
    requires |block| == 64
  {
    var r := Rounds(h, block, 64);
    Words(Plus(h.a, r.a), Plus(h.b, r.b), Plus(h.c, r.c), Plus(h.d, r.d),
          Plus(h.e, r.e), Plus(h.f, r.f), Plus(h.g, r.g), Plus(h.h, r.h))
  }

  /** Chaining value after absorbing whole blocks. */
  function Absorb(h: Words, m: seq<byte>): Words
    requires |m| % 64 == 0
    decreases |m|
  {
    if m == [] then h else Compress(Absorb(h, m[..|m| - 64]), m[|m| - 64..])
  }

  /** Number of zero bytes between the 0x80 marker and the length. */
  function ZeroBytes(n: nat): nat { (55 - n) % 64 }

  /** Section 5.1.1 padding; the length field wraps as the 64-bit counter does. */
  function Pad(m: seq<byte>): (p: seq<byte>)
    ensures |p| % 64 == 0
  {
    hide ZeroBytes, Be64;
    WholeBlocks(|m|);
    m + [0x80] + Repeat<byte>(0, ZeroBytes(|m|)) + Be64(8 * |m| % TWO_64)
  }

  lemma WholeBlocks(n: nat)
    ensures (n + 1 + ZeroBytes(n) + 8) % 64 == 0
  {
    var q := (55 - n) / 64;
    assert n + 1 + ZeroBytes(n) + 8 == 64 * (1 - q);
  }

  function StoreWord(w: word): (s: seq<byte>)
    ensures |s| == 4
  {
    [((w >> 24) as bv8) as byte, (((w >> 16) & 0xff) as bv8) as byte,
     (((w >> 8) & 0xff) as bv8) as byte, ((w & 0xff) as bv8) as byte]
  }

  function DigestBytes(h: Words): (d: seq<byte>)
    ensures |d| == 32
  {
    StoreWord(h.a) + StoreWord(h.b) + StoreWord(h.c) + StoreWord(h.d)
    + StoreWord(h.e) + StoreWord(h.f) + StoreWord(h.g) + StoreWord(h.h)
  }

  function Hash(m: seq<byte>): (d: seq<byte>)
    ensures |d| == 32
  {
    DigestBytes(Absorb(IV, Pad(m)))
  }

  /** Padding uses the fewest zero bytes that leave the length field at the end of a block. */
  lemma PaddingIsMinimal(n: nat, k: nat)
    ensures (n + 1 + ZeroBytes(n)) % 64 == 56
    ensures (n + 1 + k) % 64 == 56 ==> ZeroBytes(n) <= k
  {
    var z := ZeroBytes(n);
    assert n + 1 + z == 56 + 64 * ((n + 1 + z) / 64) by {
      assert (55 - n) == 64 * ((55 - n) / 64) + z;
      assert n + 1 + z == 56 + 64 * (-((55 - n) / 64));
    }
  }

  /** `pending` is the tail of `m` not yet folded into the chaining value `h`. */
  ghost predicate Buffered(m: seq<byte>, h: Words, pending: seq<byte>) {
    && |pending| <= |m|
    && (|m| - |pending|) % 64 == 0
    && m[|m| - |pending|..] == pending
    && h == Absorb(IV, m[..|m| - |pending|])
  }

  lemma StartsEmpty()
    ensures Buffered([], IV, [])
  {
  }

  lemma BufferMore(m: seq<byte>, h: Words, pending: seq<byte>, x: seq<byte>)
    requires Buffered(m, h, pending)
    ensures Buffered(m + x, h, pending + x)
  {
    var n := |m| - |pending|;
    assert (m + x)[..n] == m[..n];
    assert (m + x)[n..] == m[n..] + x;
  }

  lemma FoldBlock(m: seq<byte>, h: Words, pending: seq<byte>)
    requires Buffered(m, h, pending) && |pending| == 64
    ensures Buffered(m, Compress(h, pending), [])
  {
    var n := |m| - 64;
    assert m[..|m|] == m;
    assert Absorb(IV, m) == Compress(Absorb(IV, m[..n]), m[n..]);
  }

  /** Streaming context: `state`, a byte counter and a partly filled block. */
  class Sha256Context {
    const state: array<word>
    var totalBytes: nat
    const block: array<byte>
    var blockBytes: nat
    ghost var absorbed: seq<byte>

    ghost predicate Shape() {
      state.Length == 8 && block.Length == 64
    }

    ghost function Chain(): Words
      requires Shape()
      reads state
    {
      Words(state[0], state[1], state[2], state[3], state[4], state[5], state[6], state[7])
    }

    /** The full blocks are in the chaining value; the rest waits in `block`. */
    ghost predicate Streaming()
      reads this`blockBytes, this`absorbed, state, block
    {
      Shape() && blockBytes < 64 && Buffered(absorbed, Chain(), block[..blockBytes])
    }

    ghost predicate Valid()
      reads this, state, block
    {
      Streaming() && totalBytes == |absorbed| % TWO_64
    }

    constructor ()
      ensures Valid() && absorbed == [] && fresh(state) && fresh(block)
    {
      var s := new word[8];
      s[0], s[1], s[2], s[3] := IV.a, IV.b, IV.c, IV.d;
      s[4], s[5], s[6], s[7] := IV.e, IV.f, IV.g, IV.h;
      state := s;
      block := new byte[64](_ => 0);
      totalBytes, blockBytes, absorbed := 0, 0, [];
    }

    /** Starts over in place: initial chaining value, nothing buffered. */
    method Start()
      requires Shape()
      modifies this, state, block
      ensures Valid() && absorbed == []
    {
      hide Absorb;
      state[0], state[1], state[2], state[3] := IV.a, IV.b, IV.c, IV.d;
      state[4], state[5], state[6], state[7] := IV.e, IV.f, IV.g, IV.h;
      forall k | 0 <= k < 64 { block[k] := 0; }
      totalBytes, blockBytes, absorbed := 0, 0, [];
      StartsEmpty();
      assert block[..0] == [];
    }

    /** The 64-entry message schedule, computed in place. */
    method ExpandSchedule() returns (schedule: array<word>)
      requires Shape()
      ensures fresh(schedule) && schedule.Length == 64
      ensures forall t :: 0 <= t < 64 ==> schedule[t] == Schedule(block[..], t)
    {
      hide LoadWord, ScheduleStep;
      schedule := new word[64](_ => 0);
      var i := 0;
      while i < 16
        invariant 0 <= i <= 16
        invariant forall t :: 0 <= t < i ==> schedule[t] == Schedule(block[..], t)
      {
        schedule[i] := LoadWord(block[..], 4 * i);
        i := i + 1;
      }
      while i < 64
        invariant 16 <= i <= 64
        invariant forall t :: 0 <= t < i ==> schedule[t] == Schedule(block[..], t)
      {
        schedule[i] := ScheduleStep(schedule[i - 16], schedule[i - 15], schedule[i - 7], schedule[i - 2]);
        i := i + 1;
      }
    }

    /** Folds the filled block into the chaining value. */
    method Transform()
      requires Shape()
      modifies state
      ensures Chain() == Compress(old(Chain()), block[..])
    {
      hide Temporary1, Temporary2, Plus, Constant, Schedule;
      var schedule := ExpandSchedule();
      var a, b, c, d := state[0], state[1], state[2], state[3];
      var e, f, g, h := state[4], state[5], state[6], state[7];
      var i := 0;
      while i < 64
        invariant 0 <= i <= 64
        invariant Words(a, b, c, d, e, f, g, h) == Rounds(Chain(), block[..], i)
      {
        var temporary1 := Temporary1(e, f, g, h, Constant(i), schedule[i]);
        var temporary2 := Temporary2(a, b, c);
        h, g, f := g, f, e;
        e := Plus(d, temporary1);
        d, c, b := c, b, a;
        a := Plus(temporary1, temporary2);
        i := i + 1;
      }
      hide Rounds;
      state[0], state[1], state[2], state[3] := Plus(state[0], a), Plus(state[1], b), Plus(state[2], c), Plus(state[3], d);
      state[4], state[5], state[6], state[7] := Plus(state[4], e), Plus(state[5], f), Plus(state[6], g), Plus(state[7], h);
    }

    /** Copies `data` behind the bytes already waiting, folding the block when it is full. */
    method Fill(data: seq<byte>)
      requires Streaming() && 0 < |data| <= 64 - blockBytes
      modifies this`blockBytes, this`absorbed, state, block
      ensures Streaming() && absorbed == old(absorbed) + data
    {
      hide Absorb, Compress, Buffered;
      ghost var chain, pending := Chain(), block[..blockBytes];
      forall k | 0 <= k < |data| { block[blockBytes + k] := data[k]; }
      blockBytes := blockBytes + |data|;
      assert block[..blockBytes] == pending + data;
      BufferMore(absorbed, chain, pending, data);
      absorbed := absorbed + data;
      if blockBytes == 64 {
        ghost var full := block[..blockBytes];
        assert full == block[..];
        FoldBlock(absorbed, chain, full);
        assert Chain() == chain;
        Transform();
        blockBytes := 0;
        assert block[..0] == [];
      }
    }

    /** Absorbs `input`, transforming each block as it fills. */
    method Update(input: seq<byte>)
      requires Valid()
      modifies this`totalBytes, this`blockBytes, this`absorbed, state, block
      ensures Valid() && absorbed == old(absorbed) + input
    {
      hide Absorb, Compress, Buffered, Chain;
      totalBytes := (totalBytes + |input|) % TWO_64;
      var cursor := 0;
      assert input[..0] == [];
      while cursor < |input|
        invariant 0 <= cursor <= |input|
        invariant Streaming() && absorbed == old(absorbed) + input[..cursor]
        invariant totalBytes == (old(totalBytes) + |input|) % TWO_64
      {
        var available := 64 - blockBytes;
        var remaining := |input| - cursor;
        var copied := if remaining < available then remaining else available;
        Fill(input[cursor..cursor + copied]);
        assert input[..cursor + copied] == input[..cursor] + input[cursor..cursor + copied];
        cursor := cursor + copied;
      }
      assert input[..|input|] == input;
      CounterWraps(|old(absorbed)|, |input|);
    }

    /** Writes the zero fill and the length field behind `blockBytes` bytes and folds the block. */
    method Close(length: seq<byte>)
      requires Shape() && blockBytes <= 56 && |length| == 8
      modifies state, block
      ensures Chain() == Compress(old(Chain()), old(block[..blockBytes]) + Repeat<byte>(0, 56 - blockBytes) + length)
    {
      hide Compress;
      ghost var head := block[..blockBytes];
      forall k | blockBytes <= k < 56 { block[k] := 0; }
      forall k | 0 <= k < 8 { block[56 + k] := length[k]; }
      assert block[..] == head + Repeat<byte>(0, 56 - blockBytes) + length;
      assert Chain() == old(Chain());
      Transform();
    }

    /** Pads in place and returns the digest of everything absorbed. */
    method Finish() returns (output: seq<byte>)
      requires Valid()
      modifies this`blockBytes, state, block
      ensures Shape() && output == Hash(absorbed)
    {
      hide Absorb, Compress, Buffered, DigestBytes, Be64, ZeroBytes;
      ghost var pending, chain := block[..blockBytes], Chain();
      var length := Be64(8 * totalBytes % TWO_64);
      block[blockBytes] := 0x80;
      blockBytes := blockBytes + 1;
      assert block[..blockBytes] == pending + [0x80];
      assert Chain() == chain;
      if blockBytes > 56 {
        forall k | blockBytes <= k < 64 { block[k] := 0; }
        assert block[..] == pending + [0x80] + Repeat<byte>(0, 63 - |pending|);
        assert Chain() == chain;
        Transform();
        blockBytes := 0;
        assert block[..0] == [];
        Close(length);
        assert [] + Repeat<byte>(0, 56) == Repeat<byte>(0, 56);
        PaddedInTwoBlocks(absorbed, chain, pending);
      } else {
        Close(length);
        PaddedInOneBlock(absorbed, chain, pending);
      }
      output := DigestBytes(Words(state[0], state[1], state[2], state[3], state[4], state[5], state[6], state[7]));
    }
  }

  /** The 0x80 marker and the length still fit behind the waiting bytes. */
  lemma PaddedInOneBlock(m: seq<byte>, h: Words, pending: seq<byte>)
    requires Buffered(m, h, pending) && |pending| <= 55
    ensures Absorb(IV, Pad(m))
         == Compress(h, pending + [0x80] + Repeat<byte>(0, 55 - |pending|) + Be64(8 * (|m| % TWO_64) % TWO_64))
  {
    hide Absorb, Compress, Be64;
    var tail := [0x80] + Repeat<byte>(0, 55 - |pending|) + Be64(8 * |m| % TWO_64);
    LengthFieldWraps(|m|);
    ZeroFill(|m|, |pending|);
    assert Pad(m) == m + tail;
    BufferMore(m, h, pending, tail);
    FoldBlock(m + tail, h, pending + tail);
    assert pending + tail == pending + [0x80] + Repeat<byte>(0, 55 - |pending|) + Be64(8 * |m| % TWO_64);
    AllBuffered(m + tail, Compress(h, pending + tail));
  }

  /** Otherwise the marker closes one block and the length sits alone in the next. */
  lemma PaddedInTwoBlocks(m: seq<byte>, h: Words, pending: seq<byte>)
    requires Buffered(m, h, pending) && 56 <= |pending| <= 63
    ensures Absorb(IV, Pad(m))
         == Compress(Compress(h, pending + [0x80] + Repeat<byte>(0, 63 - |pending|)),
                     Repeat<byte>(0, 56) + Be64(8 * (|m| % TWO_64) % TWO_64))
  {
    hide Absorb, Compress, Be64;
    var one := [0x80] + Repeat<byte>(0, 63 - |pending|);
    var two := Repeat<byte>(0, 56) + Be64(8 * |m| % TWO_64);
    LengthFieldWraps(|m|);
    ZeroFill(|m|, |pending|);
    assert Repeat<byte>(0, ZeroBytes(|m|)) == Repeat<byte>(0, 63 - |pending|) + Repeat<byte>(0, 56);
    assert Pad(m) == m + one + two;
    BufferMore(m, h, pending, one);
    FoldBlock(m + one, h, pending + one);
    assert pending + one == pending + [0x80] + Repeat<byte>(0, 63 - |pending|);
    var h1 := Compress(h, pending + one);
    BufferMore(m + one, h1, [], two);
    assert [] + two == two;
    FoldBlock(m + one + two, h1, two);
    AllBuffered(m + one + two, Compress(h1, two));
  }

  lemma ZeroFill(n: nat, waiting: nat)
    requires waiting <= n && waiting < 64 && (n - waiting) % 64 == 0
    ensures ZeroBytes(n) == if waiting <= 55 then 55 - waiting else 119 - waiting
  {
    var q := (n - waiting) / 64;
    assert 55 - n == 55 - waiting - 64 * q;
  }

  lemma LengthFieldWraps(n: nat)
    ensures 8 * (n % TWO_64) % TWO_64 == 8 * n % TWO_64
  {
    var q := n / TWO_64;
    assert 8 * n == 8 * (n % TWO_64) + TWO_64 * (8 * q);
  }

  lemma CounterWraps(m: nat, n: nat)
    ensures (m % TWO_64 + n) % TWO_64 == (m + n) % TWO_64
  {
    assert m + n == m % TWO_64 + n + TWO_64 * (m / TWO_64);
  }

  lemma AllBuffered(m: seq<byte>, h: Words)
    requires Buffered(m, h, [])
    ensures |m| % 64 == 0 && h == Absorb(IV, m)
  {
    assert m[..|m|] == m;
  }

  /** However a message is cut into pieces, streaming it gives the digest of the whole. */
  method HashPieces(pieces: seq<seq<byte>>) returns (digest: seq<byte>)
    ensures digest == Hash(Flatten(pieces))
  {
    hide Hash;
    var context := new Sha256Context();
    var i := 0;
    while i < |pieces|
      invariant 0 <= i <= |pieces|
      invariant context.Valid() && fresh(context) && fresh(context.state) && fresh(context.block)
      invariant context.absorbed == Flatten(pieces[..i])
    {
      FlattenSnoc(pieces[..i], pieces[i]);
      assert pieces[..i + 1] == pieces[..i] + [pieces[i]];
      context.Update(pieces[i]);
      i := i + 1;
    }
    assert pieces[..|pieces|] == pieces;
    digest := context.Finish();
  }
}
