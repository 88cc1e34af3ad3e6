/** SHA-256 in updates against the one-shot definition of FIPS 180-4: padding of section 5.1.1,
    message schedule and rounds of section 6.2.2. */
module Sha256 {
  import opened Basics

  const BLOCK: nat := 64

  /** The round constants, sixteen a row. */
  const K0: seq<bv32> := [
    0x428a2f98, 0x71374491, 0xb5c0fbcf, 0xe9b5dba5, 0x3956c25b, 0x59f111f1, 0x923f82a4, 0xab1c5ed5,
    0xd807aa98, 0x12835b01, 0x243185be, 0x550c7dc3, 0x72be5d74, 0x80deb1fe, 0x9bdc06a7, 0xc19bf174]
  const K1: seq<bv32> := [
    0xe49b69c1, 0xefbe4786, 0x0fc19dc6, 0x240ca1cc, 0x2de92c6f, 0x4a7484aa, 0x5cb0a9dc, 0x76f988da,
    0x983e5152, 0xa831c66d, 0xb00327c8, 0xbf597fc7, 0xc6e00bf3, 0xd5a79147, 0x06ca6351, 0x14292967]
  const K2: seq<bv32> := [
    0x27b70a85, 0x2e1b2138, 0x4d2c6dfc, 0x53380d13, 0x650a7354, 0x766a0abb, 0x81c2c92e, 0x92722c85,
    0xa2bfe8a1, 0xa81a664b, 0xc24b8b70, 0xc76c51a3, 0xd192e819, 0xd6990624, 0xf40e3585, 0x106aa070]
  const K3: seq<bv32> := [
    0x19a4c116, 0x1e376c08, 0x2748774c, 0x34b0bcb5, 0x391c0cb3, 0x4ed8aa4a, 0x5b9cca4f, 0x682e6ff3,
    0x748f82ee, 0x78a5636f, 0x84c87814, 0x8cc70208, 0x90befffa, 0xa4506ceb, 0xbef9a3f7, 0xc67178f2]
  const K: seq<bv32> := K0 + K1 + K2 + K3

  /** The eight working variables, and the chaining value. */
  datatype Words = Words(a: bv32, b: bv32, c: bv32, d: bv32, e: bv32, f: bv32, g: bv32, h: bv32)

  const INITIAL: Words := Words(0x6a09e667, 0xbb67ae85, 0x3c6ef372, 0xa54ff53a,
                                0x510e527f, 0x9b05688c, 0x1f83d9ab, 0x5be0cd19)

  // ---- the definition ------------------------------------------------------------------

  function Rotr(x: bv32, n: bv6): bv32
    requires n <= 32
  {
    (x >> n) | (x << (32 - n))
  }

  /** Addition modulo 2^32. */
  function Add(x: bv32, y: bv32): bv32 { x + y }

  function LowSigma0(x: bv32): bv32 { Rotr(x, 7) ^ Rotr(x, 18) ^ (x >> 3) }
  function LowSigma1(x: bv32): bv32 { Rotr(x, 17) ^ Rotr(x, 19) ^ (x >> 10) }
  function UpSigma0(x: bv32): bv32 { Rotr(x, 2) ^ Rotr(x, 13) ^ Rotr(x, 22) }
  function UpSigma1(x: bv32): bv32 { Rotr(x, 6) ^ Rotr(x, 11) ^ Rotr(x, 25) }
  function Ch(x: bv32, y: bv32, z: bv32): bv32 { (x & y) ^ (!x & z) }
  function Maj(x: bv32, y: bv32, z: bv32): bv32 { (x & y) ^ (x & z) ^ (y & z) }

  /** Big-endian word i of a block. */
  function Load(block: seq<Byte>, i: nat): bv32
    requires |block| == BLOCK && i < 16
  {
    ((block[4 * i] as bv32) << 24) | ((block[4 * i + 1] as bv32) << 16)
    | ((block[4 * i + 2] as bv32) << 8) | (block[4 * i + 3] as bv32)
  }

  /** Word t of the message schedule. */
  function Schedule(block: seq<Byte>, t: nat): bv32
    requires |block| == BLOCK && t < 64
    decreases t, block
  {
    if t < 16 then Load(block, t)
    else NextWord(Schedule(block, t - 2), Schedule(block, t - 7), Schedule(block, t - 15), Schedule(block, t - 16))
  }

  /** The four-term sum; its order is immaterial modulo 2^32. */
  function NextWord(w2: bv32, w7: bv32, w15: bv32, w16: bv32): bv32 {
    Add(Add(Add(w16, LowSigma0(w15)), w7), LowSigma1(w2))
  }

  function Round(s: Words, k: bv32, w: bv32): Words {
    var t1 := Add(Add(Add(Add(s.h, UpSigma1(s.e)), Ch(s.e, s.f, s.g)), k), w);
    var t2 := Add(UpSigma0(s.a), Maj(s.a, s.b, s.c));
    Words(Add(t1, t2), s.a, s.b, s.c, Add(s.d, t1), s.e, s.f, s.g)
  }

  /** The working variables after t rounds. */
  function Rounds(s: Words, block: seq<Byte>, t: nat): Words
    requires |block| == BLOCK && t <= 64 && |K| == 64
    decreases t, block
  {
    if t == 0 then s else Round(Rounds(s, block, t - 1), K[t - 1], Schedule(block, t - 1))
  }

  function Plus(x: Words, y: Words): Words {
    Words(Add(x.a, y.a), Add(x.b, y.b), Add(x.c, y.c), Add(x.d, y.d),
          Add(x.e, y.e), Add(x.f, y.f), Add(x.g, y.g), Add(x.h, y.h))
  }

  /** One block into the chaining value. */
  function Compress(s: Words, block: seq<Byte>): Words
    requires |block| == BLOCK
  {
    Plus(s, Rounds(s, block, |K|))
  }

  /** The chaining value after whole blocks. */
  function Hash(s: Words, m: seq<Byte>): Words
    requires |m| % BLOCK == 0
    decreases |m|
  {
    if m == [] then s else Hash(Compress(s, m[..BLOCK]), m[BLOCK..])
  }

  /** x without its n low bytes. */
  function Shifted(x: nat, n: nat): nat {
    if n == 0 then x else Shifted(x, n - 1) / 256
  }

  /** 64-bit big-endian. */
  function Length64(bits: nat): (b: seq<Byte>)
    ensures |b| == 8
  {
    seq(8, i requires 0 <= i < 8 => Shifted(bits, 7 - i) % 256)
  }

  /** Zero bytes between the end mark and the length. */
  function Gap(n: nat): (z: nat)
    ensures (n + 1 + z + 8) % BLOCK == 0 && z < BLOCK
  {
    if n % BLOCK < 56 then 55 - n % BLOCK else 119 - n % BLOCK
  }

  function Padded(m: seq<Byte>): (p: seq<Byte>)
    ensures |p| % BLOCK == 0
  {
    m + [0x80] + Zeros(Gap(|m|)) + Length64(8 * |m|)
  }

  function Store(x: bv32): (b: seq<Byte>)
    ensures |b| == 4
  {
    [((x >> 24) & 0xFF) as int % 256, ((x >> 16) & 0xFF) as int % 256, ((x >> 8) & 0xFF) as int % 256,
     (x & 0xFF) as int % 256]
  }

  function Output(s: Words): (b: seq<Byte>)
    ensures |b| == 32
  {
    Store(s.a) + Store(s.b) + Store(s.c) + Store(s.d) + Store(s.e) + Store(s.f) + Store(s.g) + Store(s.h)
  }

  /** The digest of a message in one shot. */
  function Digest(m: seq<Byte>): seq<Byte> {
    Output(Hash(INITIAL, Padded(m)))
  }

  // ---- hashing in pieces -------------------------------------------------------------------

  lemma {:induction false} HashSnoc(s: Words, m: seq<Byte>, block: seq<Byte>)
    requires |m| % BLOCK == 0 && |block| == BLOCK
    ensures |m + block| % BLOCK == 0 && Hash(s, m + block) == Compress(Hash(s, m), block)
    decreases |m|
  {
    hide Compress;
    if m == [] {
      assert m + block == block && block[..BLOCK] == block && block[BLOCK..] == [];
    } else {
      assert |m| >= BLOCK;
      assert (m + block)[..BLOCK] == m[..BLOCK] && (m + block)[BLOCK..] == m[BLOCK..] + block;
      HashSnoc(Compress(s, m[..BLOCK]), m[BLOCK..], block);
    }
  }

  /** transform: schedule and rounds over working variables. */
  method Transform(s: Words, block: seq<Byte>) returns (r: Words)
    requires |block| == BLOCK
    ensures r == Compress(s, block)
  {
    hide Load, Rounds, Schedule, Plus;
    var w := Expand(block);
    var v := RoundLoop(s, block, w);
    r := Plus(s, v);
  }

  lemma ScheduleAt(block: seq<Byte>, t: nat)
    requires |block| == BLOCK && t < 64
    ensures t < 16 ==> Schedule(block, t) == Load(block, t)
    ensures t >= 16 ==>
      Schedule(block, t)
      == NextWord(Schedule(block, t - 2), Schedule(block, t - 7), Schedule(block, t - 15), Schedule(block, t - 16))
  {
    hide NextWord, Load;
  }

  lemma NextWordIs(w2: bv32, w7: bv32, w15: bv32, w16: bv32)
    ensures NextWord(w2, w7, w15, w16) == Add(Add(Add(w16, LowSigma0(w15)), w7), LowSigma1(w2))
  {
    hide LowSigma0, LowSigma1, Add;
  }

  method Expand(block: seq<Byte>) returns (w: array<bv32>)
    requires |block| == BLOCK
    ensures fresh(w) && w.Length == 64 && forall j: nat :: j < 64 ==> w[j] == Schedule(block, j)
  {
    hide Load, NextWord, LowSigma0, LowSigma1, Schedule, Add;
    w := new bv32[64];
    for i := 0 to 16
      invariant forall j: nat :: j < i ==> w[j] == Schedule(block, j)
    {
      ScheduleAt(block, i);
      w[i] := Load(block, i);
    }
    for i := 16 to 64
      invariant forall j: nat :: j < i ==> w[j] == Schedule(block, j)
    {
      ScheduleAt(block, i);
      NextWordIs(w[i - 2], w[i - 7], w[i - 15], w[i - 16]);
      w[i] := Add(Add(Add(w[i - 16], LowSigma0(w[i - 15])), w[i - 7]), LowSigma1(w[i - 2]));
    }
  }

  /** One turn of the round loop. */
  method OneRound(a0: bv32, b0: bv32, c0: bv32, d0: bv32, e0: bv32, f0: bv32, g0: bv32, h0: bv32, k: bv32, w: bv32)
    returns (a: bv32, b: bv32, c: bv32, d: bv32, e: bv32, f: bv32, g: bv32, h: bv32)
    ensures Words(a, b, c, d, e, f, g, h) == Round(Words(a0, b0, c0, d0, e0, f0, g0, h0), k, w)
  {
    hide UpSigma0, UpSigma1, Ch, Maj, Add;
    a, b, c, d, e, f, g, h := a0, b0, c0, d0, e0, f0, g0, h0;
    var s1 := UpSigma1(e);
    var ch := Ch(e, f, g);
    var t1 := Add(Add(Add(Add(h, s1), ch), k), w);
    var s0 := UpSigma0(a);
    var maj := Maj(a, b, c);
    var t2 := Add(s0, maj);
    h := g;
    g := f;
    f := e;
    e := Add(d, t1);
    d := c;
    c := b;
    b := a;
    a := Add(t1, t2);
  }

  method RoundLoop(s: Words, block: seq<Byte>, w: array<bv32>) returns (r: Words)
    requires |block| == BLOCK && w.Length == 64 && forall j: nat :: j < 64 ==> w[j] == Schedule(block, j)
    ensures r == Rounds(s, block, |K|)
  {
    assert |K| == 64;
    hide Round, Schedule, K;
    var a, b, c, d := s.a, s.b, s.c, s.d;
    var e, f, g, h := s.e, s.f, s.g, s.h;
    for i := 0 to 64
      invariant Words(a, b, c, d, e, f, g, h) == Rounds(s, block, i)
    {
      a, b, c, d, e, f, g, h := OneRound(a, b, c, d, e, f, g, h, K[i], w[i]);
    }
    r := Words(a, b, c, d, e, f, g, h);
  }

  class Context {
    var state: Words
    const block: array<Byte>
    var blockLen: nat
    var totalBytes: nat
    ghost var msg: seq<Byte>

    /** Whole blocks are hashed, the rest waits in the block buffer. */
    ghost predicate Valid()
      reads this, block
    {
      && block.Length == BLOCK && blockLen < BLOCK && totalBytes == |msg|
      && |msg| >= blockLen && (|msg| - blockLen) % BLOCK == 0
      && state == Hash(INITIAL, msg[..|msg| - blockLen])
      && block[..blockLen] == msg[|msg| - blockLen..]
    }

    constructor ()
      ensures Valid() && msg == [] && fresh(block)
    {
      state, blockLen, totalBytes, msg := INITIAL, 0, 0, [];
      block := new Byte[BLOCK](_ => 0);
    }

    /** As many bytes as fit in the block. */
    method Take(data: seq<Byte>) returns (n: nat)
      requires Valid() && data != []
      modifies `state, `blockLen, `totalBytes, `msg, block
      ensures 0 < n <= |data| && Valid() && msg == old(msg) + data[..n]
    {
      hide Hash, Compress;
      n := if |data| < BLOCK - blockLen then |data| else BLOCK - blockLen;
      ghost var head, part := msg[..|msg| - blockLen], block[..blockLen];
      forall k | 0 <= k < n {
        block[blockLen + k] := data[k];
      }
      blockLen := blockLen + n;
      totalBytes := totalBytes + n;
      assert block[..blockLen] == part + data[..n];
      msg := msg + data[..n];
      assert msg == head + block[..blockLen];
      Compact(head);
    }

    /** A full block is hashed at once. */
    method Compact(ghost head: seq<Byte>)
      requires block.Length == BLOCK && blockLen <= BLOCK && totalBytes == |msg| && |head| % BLOCK == 0
      requires msg == head + block[..blockLen] && state == Hash(INITIAL, head)
      modifies `state, `blockLen
      ensures Valid()
    {
      hide Hash, Compress;
      if blockLen == BLOCK {
        assert block[..blockLen] == block[..];
        HashSnoc(INITIAL, head, block[..]);
        state := Transform(state, block[..]);
        blockLen := 0;
        assert msg[..|msg|] == msg && block[..0] == [];
      }
    }

    /** s2p_sha256_update: however the message is split. */
    method Update(input: seq<Byte>)
      requires Valid()
      modifies `state, `blockLen, `totalBytes, `msg, block
      ensures Valid() && msg == old(msg) + input
    {
      hide Hash;
      var data := input;
      while |data| > 0
        invariant Valid() && msg + data == old(msg) + input
        decreases |data|
      {
        ghost var before := msg;
        var n := Take(data);
        assert before + data == before + data[..n] + data[n..];
        data := data[n..];
      }
      assert msg + [] == msg;
    }

    /** A block with no room for the length: padded with zeros and compressed. */
    method Spill(ghost head: seq<Byte>) returns (ghost head': seq<Byte>)
      requires block.Length == BLOCK && |head| % BLOCK == 0 && state == Hash(INITIAL, head) && blockLen <= BLOCK
      modifies `state, `blockLen, block
      ensures head' == head + (old(block[..blockLen]) + Zeros(BLOCK - old(blockLen)))
      ensures |head'| % BLOCK == 0 && state == Hash(INITIAL, head') && blockLen == 0
    {
      hide Hash, Compress;
      ghost var rest := block[..blockLen] + Zeros(BLOCK - blockLen);
      Fill(BLOCK);
      assert block[..] == block[..BLOCK] == rest;
      HashSnoc(INITIAL, head, block[..]);
      state := Transform(state, block[..]);
      head' := head + rest;
      blockLen := 0;
    }

    /** The block that ends with the length. */
    method LastBlock(ghost head: seq<Byte>, bits: nat) returns (out: seq<Byte>)
      requires block.Length == BLOCK && |head| % BLOCK == 0 && state == Hash(INITIAL, head) && blockLen <= 56
      modifies `state, block
      ensures out == Output(Hash(INITIAL,
                              head + (old(block[..blockLen]) + Zeros(56 - blockLen)) + Length64(bits)))
    {
      hide Hash, Compress, Output, Length64;
      ghost var rest := block[..blockLen] + Zeros(56 - blockLen);
      Fill(56);
      PutLength(bits);
      assert head + block[..] == head + rest + Length64(bits);
      HashSnoc(INITIAL, head, block[..]);
      state := Transform(state, block[..]);
      out := Output(state);
    }

    /** s2p_sha256_final: both padding cases give the one-shot digest. */
    method Final() returns (out: seq<Byte>)
      requires Valid()
      modifies `state, `blockLen, block
      ensures out == Digest(msg)
    {
      hide Hash, Output, Length64, Padded, Compress;
      ghost var head, part := msg[..|msg| - blockLen], block[..blockLen];
      var bits := 8 * totalBytes;
      assert msg == head + part;
      block[blockLen] := 0x80;
      blockLen := blockLen + 1;
      assert block[..blockLen] == part + [0x80];
      if blockLen > 56 {
        PadLong(head, part);
        head := Spill(head);
        assert block[..0] == [];
      } else {
        PadShort(head, part);
      }
      out := LastBlock(head, bits);
    }

    /** memset up to `to`. */
    method Fill(to: nat)
      requires block.Length == BLOCK && blockLen <= to <= BLOCK
      modifies block
      ensures block[..to] == old(block[..blockLen]) + Zeros(to - blockLen)
    {
      ghost var w := block[..blockLen];
      forall k | blockLen <= k < to {
        block[k] := 0;
      }
      assert block[..to] == w + Zeros(to - blockLen);
    }

    /** The last eight bytes, most significant first. */
    method PutLength(bits: nat)
      requires block.Length == BLOCK
      modifies block
      ensures block[..] == old(block[..56]) + Length64(bits)
    {
      ghost var w := block[..56];
      var x := bits;
      for i := 0 to 8
        invariant block[..56] == w && x == Shifted(bits, i)
        invariant forall p: nat :: 64 - i <= p < 64 ==> block[p] == Shifted(bits, 63 - p) % 256
      {
        block[63 - i] := x % 256;
        x := x / 256;
      }
      hide Shifted;
      assert forall p: nat :: 56 <= p < 64 ==> block[p] == Length64(bits)[p - 56];
    }
  }

  /** The end mark and the length fit behind what is left of the message. */
  lemma PadShort(head: seq<Byte>, part: seq<Byte>)
    requires |head| % BLOCK == 0 && |part| < 56
    ensures var m := head + part;
            head + (part + [0x80] + Zeros(55 - |part|)) + Length64(8 * |m|) == Padded(m)
  {
    hide Length64;
    var g := 55 - |part|;
    assert |head + part| % BLOCK == |part|;
    assert Gap(|head + part|) == g;
    assert head + (part + [0x80] + Zeros(g)) == head + part + [0x80] + Zeros(g);
  }

  /** They do not fit: one block is filled up, the length goes into another. */
  lemma PadLong(head: seq<Byte>, part: seq<Byte>)
    requires |head| % BLOCK == 0 && 56 <= |part| < BLOCK
    ensures var m := head + part;
            head + (part + [0x80] + Zeros(63 - |part|)) + ([] + Zeros(56)) + Length64(8 * |m|) == Padded(m)
  {
    hide Length64;
    var g, h := 63 - |part|, 119 - |part|;
    assert |head + part| % BLOCK == |part|;
    assert Gap(|head + part|) == h;
    assert Zeros(g) + ([] + Zeros(56)) == Zeros(h);
    assert head + (part + [0x80] + Zeros(g)) + ([] + Zeros(56)) == head + part + [0x80] + (Zeros(g) + ([] + Zeros(56)));
  }

  /** A message hashed in any number of pieces has its one-shot digest. */
  method HashPieces(pieces: seq<seq<Byte>>) returns (out: seq<Byte>)
    ensures out == Digest(Concat(pieces))
  {
    hide Digest;
    var c := new Context();
    for i := 0 to |pieces|
      invariant c.Valid() && c.msg == Concat(pieces[..i]) && fresh(c) && fresh(c.block)
    {
      c.Update(pieces[i]);
      assert pieces[..i + 1][..i] == pieces[..i];
    }
    assert pieces[..|pieces|] == pieces;
    out := c.Final();
  }

  function Concat(pieces: seq<seq<Byte>>): seq<Byte> {
    if pieces == [] then [] else Concat(pieces[..|pieces| - 1]) + pieces[|pieces| - 1]
  }
}
