/** 32-bit words: arithmetic modulo 2^32 and the bitwise operators, bit by bit. */
module Words {
  import opened Checked

  const WORD: int := 0x1_0000_0000

  datatype BitOp = BitAnd | BitOr | BitXor

  function OnBit(op: BitOp, a: bool, b: bool): bool {
    match op
    case BitAnd => a && b
    case BitOr => a || b
    case BitXor => a != b
  }

  /** Applies `op` to the low `n` bits of `a` and `b`. */
  function Bitwise(op: BitOp, a: nat, b: nat, n: nat): (r: nat)
    ensures r < Pow2(n)
  {
    if n == 0 then 0
    else (if OnBit(op, a % 2 == 1, b % 2 == 1) then 1 else 0) + 2 * Bitwise(op, a / 2, b / 2, n - 1)
  }

  function On32(op: BitOp, a: u32, b: u32): u32 { Pow2At32(); Bitwise(op, a, b, 32) }
  function And(a: u32, b: u32): u32 { On32(BitAnd, a, b) }
  function Or(a: u32, b: u32): u32 { On32(BitOr, a, b) }
  function Xor(a: u32, b: u32): u32 { On32(BitXor, a, b) }
  function Not(a: u32): u32 { WORD - 1 - a }
  function Add(a: u32, b: u32): u32 { (a + b) % WORD }
  function Shl(a: u32, n: nat): u32 { a * Pow2(n) % WORD }
  function Shr(a: u32, n: nat): u32 { ShrBound(a, n); a / Pow2(n) }
  function Rotr(x: u32, n: nat): u32 requires n <= 32 { Or(Shr(x, n), Shl(x, 32 - n)) }

  lemma ShrBound(a: nat, n: nat)
    ensures 0 <= a / Pow2(n) <= a
  {
    QuotientFits(a, Pow2(n));
  }

  lemma AddSwap(a: u32, b: u32, c: u32, d: u32)
    ensures Add(Add(Add(a, b), c), d) == Add(Add(Add(d, c), b), a)
  {
    AddFlat(a, b, c, d);
    AddFlat(d, c, b, a);
  }

  lemma AddFlat(a: u32, b: u32, c: u32, d: u32)
    ensures Add(Add(Add(a, b), c), d) == (a + b + c + d) % WORD
  {
    Residue(a + b, c);
    Residue(a + b + c, d);
  }

  lemma Residue(x: nat, y: nat)
    ensures (x % WORD + y) % WORD == (x + y) % WORD
  {
  }

  function BigEndian32(b0: byte, b1: byte, b2: byte, b3: byte): u32 {
    var n0: int, n1: int, n2: int := b0, b1, b2;
    n0 * 0x1000000 + n1 * 0x10000 + n2 * 0x100 + b3
  }
}

/** The block structure shared by every hash of this family: a message is absorbed 64 octets at a time. */
module Chaining {
  import opened Checked

  type Block = b: seq<byte> | |b| == 64 witness seq(64, _ => 0)

  /** The value after absorbing the first `|m| / 64` blocks of `m`, starting from `h`. */
  function Chain<S>(compress: (S, Block) -> S, h: S, m: seq<byte>): S
    decreases |m|
  {
    if |m| < 64 then h else Chain(compress, compress(h, m[..64]), m[64..])
  }

  lemma {:induction false} ChainAppend<S>(f: (S, Block) -> S, h: S, m: seq<byte>, n: seq<byte>)
    requires |m| % 64 == 0
    ensures Chain(f, h, m + n) == Chain(f, Chain(f, h, m), n)
    decreases |m|
  {
    if |m| == 0 {
      assert m + n == n;
    } else {
      assert (m + n)[..64] == m[..64];
      assert (m + n)[64..] == m[64..] + n;
      ChainAppend(f, f(h, m[..64]), m[64..], n);
    }
  }

  /** A completed block extends the chain by exactly one compression. */
  lemma ChainPushBlock<S>(f: (S, Block) -> S, h: S, m: seq<byte>, b: Block)
    requires |m| % 64 == 0
    ensures Chain(f, h, m + b) == f(Chain(f, h, m), b)
  {
    ChainAppend(f, h, m, b);
    assert b[..64] == b;
    assert Chain(f, Chain(f, h, m), b) == Chain(f, f(Chain(f, h, m), b[..64]), b[64..]);
  }
}

/** FIPS 180-4 SHA-256, stated the way the standard states it. */
module Sha256Spec {
  import opened Checked
  import opened Endian
  import opened Words
  import opened Chaining

  datatype State = State(a: u32, b: u32, c: u32, d: u32, e: u32, f: u32, g: u32, h: u32)

  // Section 4.2.2.
  const K: seq<u32> := [
    0x428a2f98, 0x71374491, 0xb5c0fbcf, 0xe9b5dba5, 0x3956c25b, 0x59f111f1, 0x923f82a4, 0xab1c5ed5,
    0xd807aa98, 0x12835b01, 0x243185be, 0x550c7dc3, 0x72be5d74, 0x80deb1fe, 0x9bdc06a7, 0xc19bf174,
    0xe49b69c1, 0xefbe4786, 0x0fc19dc6, 0x240ca1cc, 0x2de92c6f, 0x4a7484aa, 0x5cb0a9dc, 0x76f988da,
    0x983e5152, 0xa831c66d, 0xb00327c8, 0xbf597fc7, 0xc6e00bf3, 0xd5a79147, 0x06ca6351, 0x14292967,
    0x27b70a85, 0x2e1b2138, 0x4d2c6dfc, 0x53380d13, 0x650a7354, 0x766a0abb, 0x81c2c92e, 0x92722c85,
    0xa2bfe8a1, 0xa81a664b, 0xc24b8b70, 0xc76c51a3, 0xd192e819, 0xd6990624, 0xf40e3585, 0x106aa070,
    0x19a4c116, 0x1e376c08, 0x2748774c, 0x34b0bcb5, 0x391c0cb3, 0x4ed8aa4a, 0x5b9cca4f, 0x682e6ff3,
    0x748f82ee, 0x78a5636f, 0x84c87814, 0x8cc70208, 0x90befffa, 0xa4506ceb, 0xbef9a3f7, 0xc67178f2
  ]

  // Section 5.3.3.
  const INITIAL := State(
    0x6a09e667, 0xbb67ae85, 0x3c6ef372, 0xa54ff53a, 0x510e527f, 0x9b05688c, 0x1f83d9ab, 0x5be0cd19)

  // Section 4.1.2: the logical functions.
  function Ch(x: u32, y: u32, z: u32): u32 { Xor(And(x, y), And(Not(x), z)) }
  function Maj(x: u32, y: u32, z: u32): u32 { Xor(Xor(And(x, y), And(x, z)), And(y, z)) }
  function BigSigma0(x: u32): u32 { Xor(Xor(Rotr(x, 2), Rotr(x, 13)), Rotr(x, 22)) }
  function BigSigma1(x: u32): u32 { Xor(Xor(Rotr(x, 6), Rotr(x, 11)), Rotr(x, 25)) }
  function SmallSigma0(x: u32): u32 { Xor(Xor(Rotr(x, 7), Rotr(x, 18)), Shr(x, 3)) }
  function SmallSigma1(x: u32): u32 { Xor(Xor(Rotr(x, 17), Rotr(x, 19)), Shr(x, 10)) }

  // Section 5.2.1: a block is sixteen big-endian words.
  function BigEndianWord(b: Block, t: nat): u32
    requires t < 16
  {
    BigEndian32(b[4 * t], b[4 * t + 1], b[4 * t + 2], b[4 * t + 3])
  }

  // Section 6.2.2, step 1: the message schedule.
  function Schedule(b: Block, t: nat): u32
    requires t < 64
  {
    if t < 16 then BigEndianWord(b, t)
    else Add(Add(Add(SmallSigma1(Schedule(b, t - 2)), Schedule(b, t - 7)), SmallSigma0(Schedule(b, t - 15))),
             Schedule(b, t - 16))
  }

  // Section 6.2.2, step 3: one round on the eight working variables.
  function Round(v: State, k: u32, w: u32): State {
    var t1 := Add(Add(Add(Add(v.h, BigSigma1(v.e)), Ch(v.e, v.f, v.g)), k), w);
    var t2 := Add(BigSigma0(v.a), Maj(v.a, v.b, v.c));
    State(Add(t1, t2), v.a, v.b, v.c, Add(v.d, t1), v.e, v.f, v.g)
  }

  function Rounds(h: State, b: Block, t: nat): State
    requires t <= 64
  {
    if t == 0 then h else Round(Rounds(h, b, t - 1), K[t - 1], Schedule(b, t - 1))
  }

  // Section 6.2.2, step 4: the intermediate hash value.
  function Compress(h: State, b: Block): State {
    var v := Rounds(h, b, 64);
    State(Add(h.a, v.a), Add(h.b, v.b), Add(h.c, v.c), Add(h.d, v.d),
          Add(h.e, v.e), Add(h.f, v.f), Add(h.g, v.g), Add(h.h, v.h))
  }

  // Section 5.1.1: append the bit 1, then the fewest zero bits that leave room for the length, then
  // the length in bits as a 64-bit big-endian number.
  function PaddingZeros(n: nat): (k: nat)
    ensures (n + k) % 64 == 56 && k < 64
  {
    if n % 64 <= 56 then 56 - n % 64 else 120 - n % 64
  }

  function BigEndian64(bits: nat): (s: seq<byte>)
    ensures |s| == 8
  {
    var low := Little(bits, 8);
    [low[7], low[6], low[5], low[4], low[3], low[2], low[1], low[0]]
  }

  /** The length field; the standard defines it for messages under 2^64 bits, a longer one wraps. */
  function LengthBits(n: nat): nat { 8 * n % U64_LIMIT }

  function Zeros(k: nat): (z: seq<byte>)
    ensures |z| == k
  {
    seq(k, _ => 0)
  }

  function Padded(m: seq<byte>): (p: seq<byte>)
    ensures |p| % 64 == 0
  {
    PaddedLength(|m| + 1);
    m + [0x80] + Zeros(PaddingZeros(|m| + 1)) + BigEndian64(LengthBits(|m|))
  }

  lemma PaddedLength(n: nat)
    ensures (n + PaddingZeros(n) + 8) % 64 == 0
  {
  }

  function OutputWord(x: u32): (d: seq<byte>)
    ensures |d| == 4
  {
    [x / 0x1000000 % 256, x / 0x10000 % 256, x / 0x100 % 256, x % 256]
  }

  function Output(h: State): (d: seq<byte>)
    ensures |d| == 32
  {
    OutputWord(h.a) + OutputWord(h.b) + OutputWord(h.c) + OutputWord(h.d)
    + OutputWord(h.e) + OutputWord(h.f) + OutputWord(h.g) + OutputWord(h.h)
  }

  function Hash(m: seq<byte>): (d: seq<byte>)
    ensures |d| == 32
  {
    Output(Chain(Compress, INITIAL, Padded(m)))
  }

  /** Below 2^61 bytes the length field is the exact bit count, and no two messages share a padded form. */
  lemma PaddingInjective(m: seq<byte>, n: seq<byte>)
    requires |m| < 0x2000_0000_0000_0000 && |n| < 0x2000_0000_0000_0000
    ensures FromLittle(Little(LengthBits(|m|), 8)) == 8 * |m|
    ensures Padded(m) == Padded(n) ==> m == n
  {
    hide Padded, Little, FromLittle;
    LengthExact(|m|);
    LengthExact(|n|);
    if Padded(m) == Padded(n) {
      LengthFieldRecovers(m);
      LengthFieldRecovers(n);
      PaddedExtends(m);
      PaddedExtends(n);
    }
  }

  lemma LengthExact(n: nat)
    requires n < 0x2000_0000_0000_0000
    ensures FromLittle(Little(LengthBits(n), 8)) == 8 * n
  {
    hide Little, FromLittle, Pow256;
    Widths();
    LittleRoundTrip(8 * n, 8);
  }

  lemma PaddedExtends(m: seq<byte>)
    ensures |m| <= |Padded(m)| && Padded(m)[..|m|] == m
  {
  }

  lemma LengthFieldRecovers(m: seq<byte>)
    ensures var p := Padded(m);
            Little(LengthBits(|m|), 8) == [p[|p| - 1], p[|p| - 2], p[|p| - 3], p[|p| - 4],
                                           p[|p| - 5], p[|p| - 6], p[|p| - 7], p[|p| - 8]]
  {
    var p := Padded(m);
    assert p[|p| - 8..] == BigEndian64(LengthBits(|m|));
  }
}

/** The incremental hasher (src/digest.cpp, class Sha256). */
module Digest {
  import opened Checked
  import opened Words
  import opened Chaining
  import opened Sha256Spec

  class Sha256 {
    var state: State
    const buffer: array<byte>
    var bitLength: u64
    var bufferLen: nat
    var finished: bool
    ghost var whole: seq<byte>   // the blocks already chained into the state

    ghost predicate Valid()
      reads this, buffer
    {
      && buffer.Length == 64
      && (!finished ==> Chained() && bitLength == LengthBits(|Message()|))
    }

    ghost predicate Chained()
      reads this
    {
      bufferLen < 64 && |whole| % 64 == 0 && state == Chain(Compress, INITIAL, whole)
    }

    /** Everything absorbed so far: the chained blocks, then what waits in the buffer. */
    ghost function Message(): seq<byte>
      requires bufferLen <= buffer.Length
      reads this, buffer
    {
      whole + buffer[..bufferLen]
    }

    constructor ()
      ensures Valid() && !finished && Message() == []
      ensures fresh(buffer)
    {
      state := INITIAL;
      buffer := new byte[64](_ => 0);
      bitLength, bufferLen, finished, whole := 0, 0, false, [];
    }

    /** Compresses one block into the chaining state. */
    method Transform(block: Block)
      modifies this`state
      ensures state == Compress(old(state), block)
    {
      var w := ExpandSchedule(block);
      var a, b, c, d := state.a, state.b, state.c, state.d;
      var e, f, g, h := state.e, state.f, state.g, state.h;
      for i := 0 to 64
        invariant State(a, b, c, d, e, f, g, h) == Rounds(state, block, i)
      {
        var temp1 := Add(Add(Add(Add(h, BigSigma1(e)), Ch(e, f, g)), K[i]), w[i]);
        var temp2 := Add(BigSigma0(a), Maj(a, b, c));
        a, b, c, d, e, f, g, h := Add(temp1, temp2), a, b, c, Add(d, temp1), e, f, g;
      }
      state := State(Add(state.a, a), Add(state.b, b), Add(state.c, c), Add(state.d, d),
                     Add(state.e, e), Add(state.f, f), Add(state.g, g), Add(state.h, h));
    }

    /** Copies a piece that fits into the buffer, compressing the block it may complete. */
    method Absorb(piece: seq<byte>)
      requires buffer.Length == 64 && Chained()
      requires bufferLen + |piece| <= 64
      modifies this`state, this`bufferLen, this`whole, buffer
      ensures Chained() && Message() == old(Message()) + piece
      ensures bufferLen == (old(bufferLen) + |piece|) % 64
    {
      hide Compress;
      ghost var pending := buffer[..bufferLen];
      Fill(piece);
      assert whole + (pending + piece) == whole + pending + piece;
      if bufferLen == 64 {
        var block := buffer[..];
        assert block == buffer[..bufferLen];
        ChainPushBlock(Compress, INITIAL, whole, block);
        Transform(block);
        whole := whole + block;
        bufferLen := 0;
        assert whole + buffer[..0] == whole;
      }
    }

    method Fill(piece: seq<byte>)
      requires bufferLen + |piece| <= buffer.Length
      modifies this`bufferLen, buffer
      ensures bufferLen == old(bufferLen) + |piece|
      ensures buffer[..bufferLen] == old(buffer[..bufferLen]) + piece
    {
      forall i | bufferLen <= i < bufferLen + |piece| {
        buffer[i] := piece[i - bufferLen];
      }
      bufferLen := bufferLen + |piece|;
    }

    /** Absorbs `data`; after finish() nothing is absorbed any more. */
    method Update(data: seq<byte>)
      requires Valid()
      modifies this, buffer
      ensures Valid() && finished == old(finished)
      ensures !finished ==> Message() == old(Message()) + data
      ensures finished ==> state == old(state)
    {
      hide Compress, Chain;
      if finished {
        return;
      }
      LengthGrows(|Message()|, |data|);
      bitLength := (bitLength + |data| * 8 % U64_LIMIT) % U64_LIMIT;
      AbsorbAll(data);
    }

    /** Whatever the split, the buffer is topped up and compressed each time it fills. */
    method AbsorbAll(data: seq<byte>)
      requires buffer.Length == 64 && Chained() && bufferLen < 64
      modifies this`state, this`bufferLen, this`whole, buffer
      ensures Chained() && Message() == old(Message()) + data
    {
      hide Compress, Chained, Message;
      var p := 0;
      PrefixGrows(Message(), data, 0, 0);
      while p < |data|
        invariant 0 <= p <= |data|
        invariant Chained() && bufferLen < 64
        invariant Message() == old(Message()) + data[..p]
      {
        var space := 64 - bufferLen;
        var take := if |data| - p < space then |data| - p else space;
        Absorb(data[p..p + take]);
        PrefixGrows(old(Message()), data, p, p + take);
        p := p + take;
      }
      assert data[..p] == data;
    }

    /** Feeds zero octets until exactly the length field is missing from the block; there is such a
        point from every buffer length. */
    method PadToLength()
      requires buffer.Length == 64 && Chained() && bufferLen < 64
      modifies this`state, this`bufferLen, this`whole, buffer
      ensures Chained() && bufferLen == 56
      ensures Message() == old(Message() + Zeros(PaddingZeros(bufferLen)))
    {
      hide Compress, Chained, Message, Zeros;
      ghost var m, start, zeros := Message(), bufferLen, 0;
      ZerosGrow(m, 0);
      while bufferLen != 56
        invariant Chained() && bufferLen < 64
        invariant zeros + PaddingZeros(bufferLen) == PaddingZeros(start)
        invariant Message() == m + Zeros(zeros)
        decreases PaddingZeros(bufferLen)
      {
        Absorb([0x00]);
        ZerosGrow(m, zeros);
        zeros := zeros + 1;
      }
    }

    method PadAndChain()
      requires Valid() && !finished
      modifies this`state, this`bufferLen, this`whole, buffer
      ensures Chained() && whole == Padded(old(Message()))
    {
      hide Compress, Padded;
      ghost var m := Message();
      var bits := bitLength;
      Absorb([0x80]);
      PaddingPeriod(|whole|, bufferLen);
      PadToLength();
      Absorb(BigEndian64(bits));
      PaddedParts(m);
      assert Message() == whole;
    }

    /** Pads, absorbs the length and returns the digest; a second call returns the zero digest. */
    method Finish() returns (digest: seq<byte>)
      requires Valid()
      modifies this, buffer
      ensures Valid() && finished
      ensures !old(finished) ==> digest == Hash(old(Message()))
      ensures old(finished) ==> digest == Zeros(32)
    {
      hide Compress, Padded;
      if finished {
        return Zeros(32);
      }
      PadAndChain();
      finished := true;
      digest := Output(state);
    }
  }

  lemma PrefixGrows(m: seq<byte>, data: seq<byte>, p: nat, q: nat)
    requires p <= q <= |data|
    ensures m + data[..0] == m
    ensures m + data[..p] + data[p..q] == m + data[..q]
  {
    assert data[..p] + data[p..q] == data[..q];
  }

  lemma ZerosGrow(m: seq<byte>, k: nat)
    ensures m + Zeros(0) == m
    ensures m + Zeros(k) + [0x00] == m + Zeros(k + 1)
  {
  }

  lemma PaddedParts(m: seq<byte>)
    ensures m + [0x80] + Zeros(PaddingZeros(|m| + 1)) + BigEndian64(LengthBits(|m|)) == Padded(m)
  {
  }

  lemma PaddingPeriod(w: nat, r: nat)
    requires w % 64 == 0
    ensures PaddingZeros(w + r) == PaddingZeros(r)
  {
  }

  lemma LengthGrows(n: nat, k: nat)
    ensures LengthBits(n + k) == (LengthBits(n) + k * 8 % U64_LIMIT) % U64_LIMIT
  {
  }

  method ExpandSchedule(block: Block) returns (w: array<u32>)
    ensures fresh(w) && w.Length == 64
    ensures forall i :: 0 <= i < 64 ==> w[i] == Schedule(block, i)
  {
    w := new u32[64];
    for i := 0 to 16
      invariant forall j :: 0 <= j < i ==> w[j] == Schedule(block, j)
    {
      w[i] := BigEndian32(block[i * 4], block[i * 4 + 1], block[i * 4 + 2], block[i * 4 + 3]);
    }
    for i := 16 to 64
      invariant forall j :: 0 <= j < i ==> w[j] == Schedule(block, j)
    {
      var s0 := SmallSigma0(w[i - 15]);
      var s1 := SmallSigma1(w[i - 2]);
      AddSwap(w[i - 16], s0, w[i - 7], s1);
      w[i] := Add(Add(Add(w[i - 16], s0), w[i - 7]), s1);
    }
  }

  function Concat(pieces: seq<seq<byte>>): seq<byte> {
    if pieces == [] then [] else Concat(pieces[..|pieces| - 1]) + pieces[|pieces| - 1]
  }

  /** The digest depends on the bytes fed in, never on how they were split into updates. */
  method HashInPieces(pieces: seq<seq<byte>>) returns (digest: seq<byte>)
    ensures digest == Hash(Concat(pieces))
  {
    hide Hash;
    var hasher := new Sha256();
    for i := 0 to |pieces|
      invariant fresh(hasher) && fresh(hasher.buffer)
      invariant hasher.Valid() && !hasher.finished
      invariant hasher.Message() == Concat(pieces[..i])
    {
      hasher.Update(pieces[i]);
      assert pieces[..i + 1][..i] == pieces[..i];
    }
    assert pieces[..|pieces|] == pieces;
    digest := hasher.Finish();
  }
}
