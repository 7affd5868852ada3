/** SHA-256: the specification of FIPS 180-4 and the streaming context that
    computes it. Bytes are numbers; so are the 32-bit words of the compression. */
module Sha256 {
  import opened Words
  import opened Words32

  type Byte = b: int | 0 <= b < 256

  // ---------- section 4.1.2, 4.2.2 and 6.2: the compression ----------

  datatype Hash = Hash(a: Word32, b: Word32, c: Word32, d: Word32, e: Word32, f: Word32, g: Word32, h: Word32)

  const CONSTANTS: seq<Word32> := CONSTANTS1 + CONSTANTS2 + CONSTANTS3 + CONSTANTS4
  const CONSTANTS1: seq<Word32> := [
    0x428a2f98, 0x71374491, 0xb5c0fbcf, 0xe9b5dba5, 0x3956c25b, 0x59f111f1, 0x923f82a4, 0xab1c5ed5,
    0xd807aa98, 0x12835b01, 0x243185be, 0x550c7dc3, 0x72be5d74, 0x80deb1fe, 0x9bdc06a7, 0xc19bf174]
  const CONSTANTS2: seq<Word32> := [
    0xe49b69c1, 0xefbe4786, 0x0fc19dc6, 0x240ca1cc, 0x2de92c6f, 0x4a7484aa, 0x5cb0a9dc, 0x76f988da,
    0x983e5152, 0xa831c66d, 0xb00327c8, 0xbf597fc7, 0xc6e00bf3, 0xd5a79147, 0x06ca6351, 0x14292967]
  const CONSTANTS3: seq<Word32> := [
    0x27b70a85, 0x2e1b2138, 0x4d2c6dfc, 0x53380d13, 0x650a7354, 0x766a0abb, 0x81c2c92e, 0x92722c85,
    0xa2bfe8a1, 0xa81a664b, 0xc24b8b70, 0xc76c51a3, 0xd192e819, 0xd6990624, 0xf40e3585, 0x106aa070]
  const CONSTANTS4: seq<Word32> := [
    0x19a4c116, 0x1e376c08, 0x2748774c, 0x34b0bcb5, 0x391c0cb3, 0x4ed8aa4a, 0x5b9cca4f, 0x682e6ff3,
    0x748f82ee, 0x78a5636f, 0x84c87814, 0x8cc70208, 0x90befffa, 0xa4506ceb, 0xbef9a3f7, 0xc67178f2]

  const INITIAL := Hash(0x6a09e667, 0xbb67ae85, 0x3c6ef372, 0xa54ff53a, 0x510e527f, 0x9b05688c, 0x1f83d9ab, 0x5be0cd19)

  function Rotr(x: Word32, n: nat): Word32
    requires 0 < n < 32
  {
    Or(Right(x, n), Left(x, 32 - n))
  }

  function Exclusive3(x: Word32, y: Word32, z: Word32): Word32 { Exclusive(Exclusive(x, y), z) }

  function Ch(x: Word32, y: Word32, z: Word32): Word32 { Exclusive(And(x, y), And(Not(x), z)) }
  function Maj(x: Word32, y: Word32, z: Word32): Word32 { Exclusive3(And(x, y), And(x, z), And(y, z)) }
  function BigSigma0(x: Word32): Word32 { Exclusive3(Rotr(x, 2), Rotr(x, 13), Rotr(x, 22)) }
  function BigSigma1(x: Word32): Word32 { Exclusive3(Rotr(x, 6), Rotr(x, 11), Rotr(x, 25)) }
  function SmallSigma0(x: Word32): Word32 { Exclusive3(Rotr(x, 7), Rotr(x, 18), Right(x, 3)) }
  function SmallSigma1(x: Word32): Word32 { Exclusive3(Rotr(x, 17), Rotr(x, 19), Right(x, 10)) }

  function Load(b0: Byte, b1: Byte, b2: Byte, b3: Byte): Word32 {
    Or(Or(Or(Left(b0, 24), Left(b1, 16)), Left(b2, 8)), b3)
  }

  /** The message schedule of one block. */
  function Scheduled(block: seq<Byte>, t: nat): Word32
    requires |block| == 64 && t < 64
  {
    if t < 16 then
      Load(block[4 * t], block[4 * t + 1], block[4 * t + 2], block[4 * t + 3])
    else
      NextWord(Scheduled(block, t - 2), Scheduled(block, t - 7), Scheduled(block, t - 15), Scheduled(block, t - 16))
  }

  function NextWord(w2: Word32, w7: Word32, w15: Word32, w16: Word32): Word32 {
    Add(Add(Add(SmallSigma1(w2), w7), SmallSigma0(w15)), w16)
  }

  function Temporary1(e: Word32, f: Word32, g: Word32, h: Word32, k: Word32, w: Word32): Word32 {
    Add(Add(Add(Add(h, BigSigma1(e)), Ch(e, f, g)), k), w)
  }

  function Temporary2(a: Word32, b: Word32, c: Word32): Word32 {
    Add(BigSigma0(a), Maj(a, b, c))
  }

  function Round(v: Hash, k: Word32, w: Word32): Hash {
    var t1 := Temporary1(v.e, v.f, v.g, v.h, k, w);
    var t2 := Temporary2(v.a, v.b, v.c);
    Hash(Add(t1, t2), v.a, v.b, v.c, Add(v.d, t1), v.e, v.f, v.g)
  }

  function Rounds(v: Hash, block: seq<Byte>, t: nat): Hash
    requires |block| == 64 && t <= 64
  {
    if t == 0 then v else Round(Rounds(v, block, t - 1), CONSTANTS[t - 1], Scheduled(block, t - 1))
  }

  function Compress(v: Hash, block: seq<Byte>): Hash
    requires |block| == 64
  {
    var r := Rounds(v, block, 64);
    Hash(Add(v.a, r.a), Add(v.b, r.b), Add(v.c, r.c), Add(v.d, r.d),
         Add(v.e, r.e), Add(v.f, r.f), Add(v.g, r.g), Add(v.h, r.h))
  }

  /** The hash value after the first blocks of a message. */
  function Absorbed(message: seq<Byte>, blocks: nat): Hash
    requires 64 * blocks <= |message|
  {
    if blocks == 0 then
      INITIAL
    else
      Compress(Absorbed(message, blocks - 1), message[64 * (blocks - 1)..64 * blocks])
  }

  lemma {:induction false} AbsorbedPrefix(message: seq<Byte>, more: seq<Byte>, blocks: nat)
    requires 64 * blocks <= |message|
    ensures Absorbed(message + more, blocks) == Absorbed(message, blocks)
  {
    hide Compress;
    if blocks > 0 {
      AbsorbedPrefix(message, more, blocks - 1);
      assert (message + more)[64 * (blocks - 1)..64 * blocks] == message[64 * (blocks - 1)..64 * blocks];
    }
  }

  // ---------- section 5.1.1: padding ----------

  /** The smallest count of zero bytes that leaves room for the length. */
  function ZeroCount(size: nat): (k: nat)
    ensures k < 64 && (size + 1 + k) % 64 == 56
  {
    (55 - size) % 64
  }

  function PaddedBlocks(size: nat): (blocks: nat)
    ensures 64 * blocks == size + 1 + ZeroCount(size) + 8
  {
    (size + 1 + ZeroCount(size)) / 64 + 1
  }

  /** A 64-bit number as eight bytes, most significant first. */
  function BigEndian(value: Word, count: nat): (bytes: seq<Byte>)
    requires count <= 8
    ensures |bytes| == count
  {
    if count == 0 then [] else BigEndian(value / 256, count - 1) + [value % 256]
  }

  function Padding(size: nat): (padding: seq<Byte>)
    ensures |padding| == 1 + ZeroCount(size)
  {
    [0x80] + seq(ZeroCount(size), i => 0)
  }

  function Pad(message: seq<Byte>): (padded: seq<Byte>)
    ensures |padded| == 64 * PaddedBlocks(|message|) && message <= padded
  {
    message + Padding(|message|) + BigEndian(Wrap(8 * |message|), 8)
  }

  function Bytes(w: Word32): (bytes: seq<Byte>)
    ensures |bytes| == 4
  {
    [Right(w, 24) % 256, Right(w, 16) % 256, Right(w, 8) % 256, w % 256]
  }

  function Output(v: Hash): (bytes: seq<Byte>)
    ensures |bytes| == 32
  {
    Bytes(v.a) + Bytes(v.b) + Bytes(v.c) + Bytes(v.d) + Bytes(v.e) + Bytes(v.f) + Bytes(v.g) + Bytes(v.h)
  }

  /** The digest of a message; FIPS 180-4 defines it for fewer than 2^61 bytes. */
  function Digest(message: seq<Byte>): (digest: seq<Byte>)
    ensures |digest| == 32
  {
    Output(Absorbed(Pad(message), PaddedBlocks(|message|)))
  }

  // ---------- bytes of numbers ----------

  ghost function Value(bytes: seq<Byte>): nat {
    if bytes == [] then 0 else 256 * Value(bytes[..|bytes| - 1]) + bytes[|bytes| - 1]
  }

  ghost function Pow256(n: nat): nat {
    if n == 0 then 1 else 256 * Pow256(n - 1)
  }

  lemma {:induction false} BigEndianValue(value: Word, count: nat)
    requires count <= 8 && value < Pow256(count)
    ensures Value(BigEndian(value, count)) == value
  {
    if count > 0 {
      BigEndianValue(value / 256, count - 1);
      var bytes := BigEndian(value, count);
      assert bytes[..count - 1] == BigEndian(value / 256, count - 1);
    }
  }

  lemma EightBytes(value: Word)
    ensures value < Pow256(8)
  {
    assert Pow256(4) == 0x1_0000_0000;
    assert Pow256(8) == 256 * Pow256(7) && Pow256(7) == 256 * Pow256(6)
           && Pow256(6) == 256 * Pow256(5) && Pow256(5) == 256 * Pow256(4);
  }

  /** The eight bytes of a 64-bit number determine it. */
  lemma BigEndianRoundTrip(value: Word)
    ensures Value(BigEndian(value, 8)) == value
  {
    EightBytes(value);
    BigEndianValue(value, 8);
  }

  lemma ShrByte(a: nat)
    ensures Shr(a, 8) == a / 256
  {
    assert Shr(a, 8) == Shr(a / 2, 7) == Shr(a / 2 / 2, 6) == Shr(a / 2 / 2 / 2, 5) == Shr(a / 2 / 2 / 2 / 2, 4);
    assert Shr(a / 2 / 2 / 2 / 2, 4) == a / 2 / 2 / 2 / 2 / 2 / 2 / 2 / 2 by {
      var b := a / 2 / 2 / 2 / 2;
      assert Shr(b, 4) == Shr(b / 2, 3) == Shr(b / 2 / 2, 2) == Shr(b / 2 / 2 / 2, 1);
    }
  }

  /** Shifting and truncating, as C does it, yields the same bytes. */
  lemma {:induction false} BigEndianByShifts(value: Word, count: nat, i: nat)
    requires i < count <= 8
    ensures BigEndian(value, count)[i] == Shr(value, 8 * (count - 1 - i)) % 256
  {
    if i < count - 1 {
      BigEndianByShifts(value / 256, count - 1, i);
      ShrByte(value);
      ShrShr(value, 8, 8 * (count - 2 - i));
    }
  }

  method EncodeWord(value: Word) returns (encoded: array<Byte>)
    ensures fresh(encoded) && encoded[..] == BigEndian(value, 8)
  {
    encoded := new Byte[8];
    for i := 0 to 8
      invariant forall j :: 0 <= j < i ==> encoded[j] == BigEndian(value, 8)[j]
    {
      BigEndianByShifts(value, 8, i);
      encoded[i] := Shr(value, 8 * (7 - i)) % 256;
    }
  }

  /** The padding is unambiguous: no two messages are padded alike. */
  lemma PadIsInjective(a: seq<Byte>, b: seq<Byte>)
    requires |a| < 0x2000_0000_0000_0000 && |b| < 0x2000_0000_0000_0000
    requires Pad(a) == Pad(b)
    ensures a == b
  {
    hide Padding, ZeroCount, Wrap, BigEndian;
    var p := Pad(a);
    var tail := p[|p| - 8..];
    PadEnds(a);
    PadEnds(b);
    BigEndianRoundTrip(Wrap(8 * |a|));
    BigEndianRoundTrip(Wrap(8 * |b|));
    assert Wrap(8 * |a|) == 8 * |a| && Wrap(8 * |b|) == 8 * |b| by {
      ShortMessage(|a|);
      ShortMessage(|b|);
    }
    assert a == p[..|a|] && b == p[..|b|];
  }

  lemma ShortMessage(size: nat)
    requires size < 0x2000_0000_0000_0000
    ensures Wrap(8 * size) == 8 * size
  {
  }

  lemma PadEnds(message: seq<Byte>)
    ensures var p := Pad(message); |p| >= 8 && p[|p| - 8..] == BigEndian(Wrap(8 * |message|), 8)
  {
  }

  lemma ScheduleSum(a: Word32, b: Word32, c: Word32, d: Word32)
    ensures Add(Add(Add(d, c), b), a) == Add(Add(Add(a, b), c), d)
  {
    hide Add;
    AddIsAssociative(Add(Add(a, b), c), d, 0);
    AddIsAssociative(Add(a, b), c, 0);
    AddIsAssociative(d, c, Add(a, b));
    AddIsAssociative(a, b, 0);
    AddIsAssociative(Add(d, c), b, a);
  }

  /** The buffer holds the unfinished block of what was fed, the hash value all
      finished ones. */
  ghost predicate Follows(hash: Hash, block: seq<Byte>, bitCount: Word, blockSize: nat, fed: seq<Byte>, blocks: nat) {
    && |block| == 64 && blockSize < 64 && |fed| == 64 * blocks + blockSize
    && block[..blockSize] == fed[64 * blocks..]
    && hash == Absorbed(fed, blocks)
    && bitCount == Wrap(8 * |fed|)
  }

  lemma Appended(hash: Hash, block: seq<Byte>, bitCount: Word, blockSize: nat, fed: seq<Byte>, blocks: nat,
                 chunk: seq<Byte>, filled: seq<Byte>)
    requires Follows(hash, block, bitCount, blockSize, fed, blocks) && 0 < |chunk| <= 64 - blockSize
    requires |filled| == 64 && filled[..blockSize + |chunk|] == block[..blockSize] + chunk
    ensures var bits, size := Wrap(bitCount + |chunk| * 8), blockSize + |chunk|;
            if size < 64 then Follows(hash, filled, bits, size, fed + chunk, blocks)
            else Follows(Compress(hash, filled), filled, bits, 0, fed + chunk, blocks + 1)
  {
    hide Compress, Wrap;
    CountBits(|fed|, |chunk|);
    AbsorbedPrefix(fed, chunk, blocks);
    var total := fed + chunk;
    assert total[64 * blocks..] == fed[64 * blocks..] + chunk;
    if blockSize + |chunk| == 64 {
      assert filled == filled[..64];
      assert total[64 * blocks..64 * (blocks + 1)] == total[64 * blocks..];
    }
  }

  // ---------- the streaming context ----------

  class Context {
    const state: array<Word32>
    const block: array<Byte>
    var bitCount: Word
    var blockSize: nat
    ghost var fed: seq<Byte>
    ghost var blocks: nat

    ghost predicate Shaped()
      reads this
    {
      state.Length == 8 && block.Length == 64 && blockSize <= 64
    }

    ghost function HashOf(): Hash
      requires state.Length == 8
      reads state
    {
      Hash(state[0], state[1], state[2], state[3], state[4], state[5], state[6], state[7])
    }

    ghost predicate Valid()
      reads this, state, block
    {
      state.Length == 8 && block.Length == 64 && Follows(HashOf(), block[..], bitCount, blockSize, fed, blocks)
    }

    constructor ()
      ensures Valid() && fed == []
      ensures fresh(state) && fresh(block)
    {
      state := new Word32[8](i => 0);
      block := new Byte[64](i => 0);
      bitCount, blockSize, fed, blocks := 0, 0, [], 0;
      new;
      hide Compress, Wrap;
      state[0], state[1], state[2], state[3] := 0x6a09e667, 0xbb67ae85, 0x3c6ef372, 0xa54ff53a;
      state[4], state[5], state[6], state[7] := 0x510e527f, 0x9b05688c, 0x1f83d9ab, 0x5be0cd19;
    }

    method Expand() returns (words: array<Word32>)
      requires Shaped()
      ensures fresh(words) && words.Length == 64
      ensures forall t :: 0 <= t < 64 ==> words[t] == Scheduled(block[..], t)
    {
      hide Load, And, Or, Exclusive, Not, Add, Right, Left, Rotr;
      words := new Word32[64](i => 0);
      for i := 0 to 16
        invariant forall t :: 0 <= t < i ==> words[t] == Scheduled(block[..], t)
      {
        words[i] := Load(block[4 * i], block[4 * i + 1], block[4 * i + 2], block[4 * i + 3]);
      }
      for i := 16 to 64
        invariant forall t :: 0 <= t < i ==> words[t] == Scheduled(block[..], t)
      {
        var s0 := Exclusive(Exclusive(Rotr(words[i - 15], 7), Rotr(words[i - 15], 18)), Right(words[i - 15], 3));
        var s1 := Exclusive(Exclusive(Rotr(words[i - 2], 17), Rotr(words[i - 2], 19)), Right(words[i - 2], 10));
        ScheduleSum(s1, words[i - 7], s0, words[i - 16]);
        words[i] := Add(Add(Add(words[i - 16], s0), words[i - 7]), s1);
      }
    }

    method RunRounds(words: array<Word32>)
      returns (a: Word32, b: Word32, c: Word32, d: Word32, e: Word32, f: Word32, g: Word32, h: Word32)
      requires Shaped() && words.Length == 64
      requires forall t :: 0 <= t < 64 ==> words[t] == Scheduled(block[..], t)
      ensures Hash(a, b, c, d, e, f, g, h) == Rounds(HashOf(), block[..], 64)
    {
      assert |CONSTANTS| == 64;
      hide Scheduled, And, Or, Exclusive, Not, Add, Right, Left, Rotr, CONSTANTS;
      a, b, c, d := state[0], state[1], state[2], state[3];
      e, f, g, h := state[4], state[5], state[6], state[7];
      for i := 0 to 64
        invariant Hash(a, b, c, d, e, f, g, h) == Rounds(HashOf(), block[..], i)
      {
        var sum1 := Exclusive(Exclusive(Rotr(e, 6), Rotr(e, 11)), Rotr(e, 25));
        var choice := Exclusive(And(e, f), And(Not(e), g));
        var temporary1 := Add(Add(Add(Add(h, sum1), choice), CONSTANTS[i]), words[i]);
        var sum0 := Exclusive(Exclusive(Rotr(a, 2), Rotr(a, 13)), Rotr(a, 22));
        var majority := Exclusive(Exclusive(And(a, b), And(a, c)), And(b, c));
        var temporary2 := Add(sum0, majority);
        h := g;
        g := f;
        f := e;
        e := Add(d, temporary1);
        d := c;
        c := b;
        b := a;
        a := Add(temporary1, temporary2);
      }
    }

    method Transform()
      requires Shaped()
      modifies state
      ensures HashOf() == Compress(old(HashOf()), block[..])
    {
      hide Rounds, Add, Scheduled;
      var words := Expand();
      var a, b, c, d, e, f, g, h := RunRounds(words);
      state[0] := Add(state[0], a);
      state[1] := Add(state[1], b);
      state[2] := Add(state[2], c);
      state[3] := Add(state[3], d);
      state[4] := Add(state[4], e);
      state[5] := Add(state[5], f);
      state[6] := Add(state[6], g);
      state[7] := Add(state[7], h);
    }

    /** Copies what fits into the block and compresses a full one. */
    method Take(chunk: seq<Byte>)
      requires Valid() && 0 < |chunk| <= 64 - blockSize
      modifies this, state, block
      ensures Valid() && fed == old(fed) + chunk
    {
      hide Compress, Wrap, Absorbed;
      ghost var before := block[..];
      forall i | 0 <= i < |chunk| {
        block[blockSize + i] := chunk[i];
      }
      assert block[..blockSize + |chunk|] == before[..blockSize] + chunk;
      Appended(HashOf(), before, bitCount, blockSize, fed, blocks, chunk, block[..]);
      hide Follows;
      blockSize := blockSize + |chunk|;
      bitCount := Wrap(bitCount + |chunk| * 8);
      fed := fed + chunk;
      if blockSize == 64 {
        Transform();
        blockSize, blocks := 0, blocks + 1;
      }
    }

    method Update(data: seq<Byte>)
      requires Valid()
      modifies this, state, block
      ensures Valid() && fed == old(fed) + data
    {
      hide Absorbed, Wrap;
      var offset := 0;
      while offset < |data|
        invariant 0 <= offset <= |data| && Valid()
        invariant fed == old(fed) + data[..offset]
      {
        var available := 64 - blockSize;
        var size := |data| - offset;
        var copied := if size < available then size else available;
        Take(data[offset..offset + copied]);
        assert data[..offset] + data[offset..offset + copied] == data[..offset + copied];
        offset := offset + copied;
      }
      assert data[..offset] == data;
    }

    /** The padding leaves an empty buffer. */
    method PadOut()
      requires Valid()
      modifies this, state, block
      ensures Valid() && fed == Pad(old(fed)) && blockSize == 0
      ensures HashOf() == Absorbed(Pad(old(fed)), PaddedBlocks(|old(fed)|))
    {
      hide Absorbed, Wrap, BigEndian, ZeroCount;
      ghost var message := fed;
      assert bitCount == Wrap(8 * |message|);
      var originalBitCount := bitCount;
      var paddingSize := if blockSize < 56 then 56 - blockSize else 120 - blockSize;
      PaddingSize(|fed|, blocks, blockSize);
      var padding := [0x80] + seq(63, i => 0);
      assert padding[..paddingSize] == Padding(|fed|);
      Update(padding[..paddingSize]);
      var length := EncodeWord(originalBitCount);
      Update(length[..]);
      assert fed == Pad(message);
      WholeBlocks(|message|, blocks, blockSize);
    }

    method WriteDigest() returns (digest: array<Byte>)
      requires state.Length == 8
      ensures fresh(digest) && digest[..] == Output(HashOf())
    {
      hide Output, Right, Bytes;
      digest := new Byte[32](i => 0);
      ghost var v := HashOf();
      assert state[..] == [v.a, v.b, v.c, v.d, v.e, v.f, v.g, v.h];
      for i := 0 to 8
        invariant fresh(digest) && state[..] == old(state[..])
        invariant digest[..4 * i] == Output(v)[..4 * i]
      {
        OutputWord(v, i);
        WordBytes(state[i]);
        digest[4 * i] := Right(state[i], 24) % 256;
        digest[4 * i + 1] := Right(state[i], 16) % 256;
        digest[4 * i + 2] := Right(state[i], 8) % 256;
        digest[4 * i + 3] := state[i] % 256;
        assert digest[..4 * i + 4] == digest[..4 * i] + Bytes(state[i]);
      }
      assert digest[..] == digest[..32];
    }

    /** Pads, writes the digest and wipes the context. */
    method Final() returns (digest: array<Byte>)
      requires Valid()
      modifies this, state, block
      ensures fresh(digest) && digest[..] == Digest(old(fed))
      ensures blockSize == 0 && bitCount == 0 && (forall i :: 0 <= i < state.Length ==> state[i] == 0)
      ensures forall i :: 0 <= i < block.Length ==> block[i] == 0
    {
      hide Absorbed, Pad, Output;
      PadOut();
      digest := WriteDigest();
      forall i | 0 <= i < state.Length { state[i] := 0; }
      forall i | 0 <= i < block.Length { block[i] := 0; }
      bitCount, blockSize := 0, 0;
    }
  }

  lemma WholeBlocks(size: nat, blocks: nat, pending: nat)
    requires pending < 64 && 64 * blocks + pending == 64 * PaddedBlocks(size)
    ensures pending == 0 && blocks == PaddedBlocks(size)
  {
  }

  lemma CountBits(before: nat, more: nat)
    ensures Wrap(Wrap(8 * before) + more * 8) == Wrap(8 * (before + more))
  {
    WrapAdd(8 * before, more * 8);
  }

  lemma PaddingSize(size: nat, blocks: nat, pending: nat)
    requires pending < 64 && size == 64 * blocks + pending
    ensures (if pending < 56 then 56 - pending else 120 - pending) == 1 + ZeroCount(size)
  {
  }

  lemma OutputWord(v: Hash, i: nat)
    requires i < 8
    ensures Output(v)[..4 * i + 4] == Output(v)[..4 * i] + Bytes([v.a, v.b, v.c, v.d, v.e, v.f, v.g, v.h][i])
  {
  }

  lemma WordBytes(w: Word32)
    ensures Bytes(w) == [Right(w, 24) % 256, Right(w, 16) % 256, Right(w, 8) % 256, w % 256]
  {
  }

  function Joined(chunks: seq<seq<Byte>>): seq<Byte> {
    if chunks == [] then [] else Joined(chunks[..|chunks| - 1]) + chunks[|chunks| - 1]
  }

  /** Streaming refines one-shot hashing: however a message is cut into chunks, the
      context computes the digest of the whole. */
  method HashChunks(chunks: seq<seq<Byte>>) returns (digest: array<Byte>)
    ensures digest[..] == Digest(Joined(chunks))
  {
    hide Follows, Digest;
    var context := new Context();
    for i := 0 to |chunks|
      invariant context.Valid() && context.fed == Joined(chunks[..i])
      invariant fresh(context) && fresh(context.state) && fresh(context.block)
    {
      context.Update(chunks[i]);
      assert chunks[..i + 1][..i] == chunks[..i];
    }
    assert chunks[..|chunks|] == chunks;
    digest := context.Final();
  }
}
