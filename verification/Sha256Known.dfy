/** The worked example of FIPS 180-4: the digest of "abc", computed from the definition word by word and
    round by round.  Every round constant, rotation and byte order takes part in it. */
module Sha256Known {
  import opened Basics
  import opened Sha256

  /** The message, padded to one block. */
  function Abc(): (b: seq<Byte>)
    ensures |b| == BLOCK
  {
    [97, 98, 99, 128] + Zeros(59) + [24]
  }

  lemma {:induction false} NoHighBytes(n: nat)
    requires n >= 1
    ensures Shifted(24, n) == 0
  {
    if n > 1 {
      NoHighBytes(n - 1);
    }
  }

  lemma AbcPadded()
    ensures Padded([97, 98, 99]) == Abc()
  {
    forall i: nat | i < 8
      ensures Length64(24)[i] == (Zeros(7) + [24])[i]
    {
      if i < 7 {
        NoHighBytes(7 - i);
      }
    }
    assert Length64(24) == Zeros(7) + [24];
    assert Zeros(52) + Zeros(7) == Zeros(59);
  }

  // ---- the message schedule ------------------------------------------------------------------

  ghost predicate WordIs(b: seq<Byte>, t: nat, w: bv32) {
    |b| == BLOCK && t < 64 && Schedule(b, t) == w
  }

  lemma LoadFirst(block: seq<Byte>)
    requires |block| == BLOCK && block[0] == 97 && block[1] == 98 && block[2] == 99 && block[3] == 128
    ensures Load(block, 0) == 0x61626380
  {
    Letters();
    assert Load(block, 0) == (0x61 as bv32 << 24) | (0x62 as bv32 << 16) | (0x63 as bv32 << 8) | 0x80;
  }

  lemma Letters()
    ensures 97 as bv32 == 0x61 && 98 as bv32 == 0x62 && 99 as bv32 == 0x63 && 128 as bv32 == 0x80
  {
  }

  lemma FirstWord(b: seq<Byte>)
    requires b == Abc()
    ensures WordIs(b, 0, 0x61626380)
  {
    hide Load;
    LoadFirst(b);
  }

  lemma ZeroWord(b: seq<Byte>, t: nat)
    requires b == Abc() && 1 <= t < 15
    ensures WordIs(b, t, 0)
  {
  }

  lemma LengthWord(b: seq<Byte>)
    requires b == Abc()
    ensures WordIs(b, 15, 24)
  {
  }

  /** One word more. */
  lemma Next(b: seq<Byte>, t: nat, w2: bv32, w7: bv32, w15: bv32, w16: bv32)
    requires 16 <= t < 64 && WordIs(b, t - 2, w2) && WordIs(b, t - 7, w7) && WordIs(b, t - 15, w15)
    requires WordIs(b, t - 16, w16)
    ensures WordIs(b, t, NextWord(w2, w7, w15, w16))
  {
    hide NextWord, Abc;
  }

  lemma Words0(b: seq<Byte>)
    requires b == Abc()
    ensures WordIs(b, 0, 0x61626380) && WordIs(b, 1, 0x00000000) && WordIs(b, 2, 0x00000000) && WordIs(b, 3, 0x00000000)
    ensures WordIs(b, 4, 0x00000000) && WordIs(b, 5, 0x00000000) && WordIs(b, 6, 0x00000000) && WordIs(b, 7, 0x00000000)
    ensures WordIs(b, 8, 0x00000000) && WordIs(b, 9, 0x00000000) && WordIs(b, 10, 0x00000000)
    ensures WordIs(b, 11, 0x00000000)
    ensures WordIs(b, 12, 0x00000000) && WordIs(b, 13, 0x00000000) && WordIs(b, 14, 0x00000000)
    ensures WordIs(b, 15, 0x00000018)
  {
    hide WordIs, Abc;
    FirstWord(b);
    forall t: nat | 1 <= t < 15
      ensures WordIs(b, t, 0)
    {
      ZeroWord(b, t);
    }
    LengthWord(b);
  }

  lemma Words16(b: seq<Byte>)
    requires b == Abc()
    ensures WordIs(b, 16, 0x61626380) && WordIs(b, 17, 0x000f0000) && WordIs(b, 18, 0x7da86405)
    ensures WordIs(b, 19, 0x600003c6)
    ensures WordIs(b, 20, 0x3e9d7b78) && WordIs(b, 21, 0x0183fc00) && WordIs(b, 22, 0x12dcbfdb)
    ensures WordIs(b, 23, 0xe2e2c38e)
  {
    hide WordIs, Abc;
    Words0(b);
    Next(b, 16, 0x00000000, 0x00000000, 0x00000000, 0x61626380);
    Next(b, 17, 0x00000018, 0x00000000, 0x00000000, 0x00000000);
    Next(b, 18, 0x61626380, 0x00000000, 0x00000000, 0x00000000);
    Next(b, 19, 0x000f0000, 0x00000000, 0x00000000, 0x00000000);
    Next(b, 20, 0x7da86405, 0x00000000, 0x00000000, 0x00000000);
    Next(b, 21, 0x600003c6, 0x00000000, 0x00000000, 0x00000000);
    Next(b, 22, 0x3e9d7b78, 0x00000018, 0x00000000, 0x00000000);
    Next(b, 23, 0x0183fc00, 0x61626380, 0x00000000, 0x00000000);
  }

  lemma Words24(b: seq<Byte>)
    requires b == Abc()
    ensures WordIs(b, 24, 0xc8215c1a) && WordIs(b, 25, 0xb73679a2) && WordIs(b, 26, 0xe5bc3909)
    ensures WordIs(b, 27, 0x32663c5b)
    ensures WordIs(b, 28, 0x9d209d67) && WordIs(b, 29, 0xec8726cb) && WordIs(b, 30, 0x702138a4)
    ensures WordIs(b, 31, 0xd3b7973b)
  {
    hide WordIs, Abc;
    Words0(b);
    Words16(b);
    Next(b, 24, 0x12dcbfdb, 0x000f0000, 0x00000000, 0x00000000);
    Next(b, 25, 0xe2e2c38e, 0x7da86405, 0x00000000, 0x00000000);
    Next(b, 26, 0xc8215c1a, 0x600003c6, 0x00000000, 0x00000000);
    Next(b, 27, 0xb73679a2, 0x3e9d7b78, 0x00000000, 0x00000000);
    Next(b, 28, 0xe5bc3909, 0x0183fc00, 0x00000000, 0x00000000);
    Next(b, 29, 0x32663c5b, 0x12dcbfdb, 0x00000000, 0x00000000);
    Next(b, 30, 0x9d209d67, 0xe2e2c38e, 0x00000018, 0x00000000);
    Next(b, 31, 0xec8726cb, 0xc8215c1a, 0x61626380, 0x00000018);
  }

  lemma Words32(b: seq<Byte>)
    requires b == Abc()
    ensures WordIs(b, 32, 0x93f5997f) && WordIs(b, 33, 0x3b68ba73) && WordIs(b, 34, 0xaff4ffc1)
    ensures WordIs(b, 35, 0xf10a5c62)
    ensures WordIs(b, 36, 0x0a8b3996) && WordIs(b, 37, 0x72af830a) && WordIs(b, 38, 0x9409e33e)
    ensures WordIs(b, 39, 0x24641522)
  {
    hide WordIs, Abc;
    Words16(b);
    Words24(b);
    Next(b, 32, 0x702138a4, 0xb73679a2, 0x000f0000, 0x61626380);
    Next(b, 33, 0xd3b7973b, 0xe5bc3909, 0x7da86405, 0x000f0000);
    Next(b, 34, 0x93f5997f, 0x32663c5b, 0x600003c6, 0x7da86405);
    Next(b, 35, 0x3b68ba73, 0x9d209d67, 0x3e9d7b78, 0x600003c6);
    Next(b, 36, 0xaff4ffc1, 0xec8726cb, 0x0183fc00, 0x3e9d7b78);
    Next(b, 37, 0xf10a5c62, 0x702138a4, 0x12dcbfdb, 0x0183fc00);
    Next(b, 38, 0x0a8b3996, 0xd3b7973b, 0xe2e2c38e, 0x12dcbfdb);
    Next(b, 39, 0x72af830a, 0x93f5997f, 0xc8215c1a, 0xe2e2c38e);
  }

  lemma Words40(b: seq<Byte>)
    requires b == Abc()
    ensures WordIs(b, 40, 0x9f47bf94) && WordIs(b, 41, 0xf0a64f5a) && WordIs(b, 42, 0x3e246a79)
    ensures WordIs(b, 43, 0x27333ba3)
    ensures WordIs(b, 44, 0x0c4763f2) && WordIs(b, 45, 0x840abf27) && WordIs(b, 46, 0x7a290d5d)
    ensures WordIs(b, 47, 0x065c43da)
  {
    hide WordIs, Abc;
    Words24(b);
    Words32(b);
    Next(b, 40, 0x9409e33e, 0x3b68ba73, 0xb73679a2, 0xc8215c1a);
    Next(b, 41, 0x24641522, 0xaff4ffc1, 0xe5bc3909, 0xb73679a2);
    Next(b, 42, 0x9f47bf94, 0xf10a5c62, 0x32663c5b, 0xe5bc3909);
    Next(b, 43, 0xf0a64f5a, 0x0a8b3996, 0x9d209d67, 0x32663c5b);
    Next(b, 44, 0x3e246a79, 0x72af830a, 0xec8726cb, 0x9d209d67);
    Next(b, 45, 0x27333ba3, 0x9409e33e, 0x702138a4, 0xec8726cb);
    Next(b, 46, 0x0c4763f2, 0x24641522, 0xd3b7973b, 0x702138a4);
    Next(b, 47, 0x840abf27, 0x9f47bf94, 0x93f5997f, 0xd3b7973b);
  }

  lemma Words48(b: seq<Byte>)
    requires b == Abc()
    ensures WordIs(b, 48, 0xfb3e89cb) && WordIs(b, 49, 0xcc7617db) && WordIs(b, 50, 0xb9e66c34)
    ensures WordIs(b, 51, 0xa9993667)
    ensures WordIs(b, 52, 0x84badedd) && WordIs(b, 53, 0xc21462bc) && WordIs(b, 54, 0x1487472c)
    ensures WordIs(b, 55, 0xb20f7a99)
  {
    hide WordIs, Abc;
    Words32(b);
    Words40(b);
    Next(b, 48, 0x7a290d5d, 0xf0a64f5a, 0x3b68ba73, 0x93f5997f);
    Next(b, 49, 0x065c43da, 0x3e246a79, 0xaff4ffc1, 0x3b68ba73);
    Next(b, 50, 0xfb3e89cb, 0x27333ba3, 0xf10a5c62, 0xaff4ffc1);
    Next(b, 51, 0xcc7617db, 0x0c4763f2, 0x0a8b3996, 0xf10a5c62);
    Next(b, 52, 0xb9e66c34, 0x840abf27, 0x72af830a, 0x0a8b3996);
    Next(b, 53, 0xa9993667, 0x7a290d5d, 0x9409e33e, 0x72af830a);
    Next(b, 54, 0x84badedd, 0x065c43da, 0x24641522, 0x9409e33e);
    Next(b, 55, 0xc21462bc, 0xfb3e89cb, 0x9f47bf94, 0x24641522);
  }

  lemma Words56(b: seq<Byte>)
    requires b == Abc()
    ensures WordIs(b, 56, 0xef57b9cd) && WordIs(b, 57, 0xebe6b238) && WordIs(b, 58, 0x9fe3095e)
    ensures WordIs(b, 59, 0x78bc8d4b)
    ensures WordIs(b, 60, 0xa43fcf15) && WordIs(b, 61, 0x668b2ff8) && WordIs(b, 62, 0xeeaba2cc)
    ensures WordIs(b, 63, 0x12b1edeb)
  {
    hide WordIs, Abc;
    Words40(b);
    Words48(b);
    Next(b, 56, 0x1487472c, 0xcc7617db, 0xf0a64f5a, 0x9f47bf94);
    Next(b, 57, 0xb20f7a99, 0xb9e66c34, 0x3e246a79, 0xf0a64f5a);
    Next(b, 58, 0xef57b9cd, 0xa9993667, 0x27333ba3, 0x3e246a79);
    Next(b, 59, 0xebe6b238, 0x84badedd, 0x0c4763f2, 0x27333ba3);
    Next(b, 60, 0x9fe3095e, 0xc21462bc, 0x840abf27, 0x0c4763f2);
    Next(b, 61, 0x78bc8d4b, 0x1487472c, 0x7a290d5d, 0x840abf27);
    Next(b, 62, 0xa43fcf15, 0xb20f7a99, 0x065c43da, 0x7a290d5d);
    Next(b, 63, 0x668b2ff8, 0xef57b9cd, 0xfb3e89cb, 0x065c43da);
  }

  // ---- the rounds ------------------------------------------------------------------------------

  ghost predicate StateIs(b: seq<Byte>, t: nat, s: Words) {
    |b| == BLOCK && t <= 64 && Rounds(INITIAL, b, t) == s
  }

  /** One round more. */
  lemma Turn(b: seq<Byte>, t: nat, s: Words, w: bv32, k: bv32)
    requires t < 64 && StateIs(b, t, s) && WordIs(b, t, w) && KeyIs(t, k)
    ensures StateIs(b, t + 1, Round(s, k, w))
  {
    hide Round, Schedule, Abc;
  }

  ghost predicate KeyIs(t: nat, k: bv32) {
    t < 64 && K[t] == k
  }

  lemma Keys0()
    ensures KeyIs(0, 0x428a2f98) && KeyIs(1, 0x71374491) && KeyIs(2, 0xb5c0fbcf) && KeyIs(3, 0xe9b5dba5)
    ensures KeyIs(4, 0x3956c25b) && KeyIs(5, 0x59f111f1) && KeyIs(6, 0x923f82a4) && KeyIs(7, 0xab1c5ed5)
  {
  }

  lemma Keys8()
    ensures KeyIs(8, 0xd807aa98) && KeyIs(9, 0x12835b01) && KeyIs(10, 0x243185be) && KeyIs(11, 0x550c7dc3)
    ensures KeyIs(12, 0x72be5d74) && KeyIs(13, 0x80deb1fe) && KeyIs(14, 0x9bdc06a7) && KeyIs(15, 0xc19bf174)
  {
  }

  lemma Keys16()
    ensures KeyIs(16, 0xe49b69c1) && KeyIs(17, 0xefbe4786) && KeyIs(18, 0x0fc19dc6) && KeyIs(19, 0x240ca1cc)
    ensures KeyIs(20, 0x2de92c6f) && KeyIs(21, 0x4a7484aa) && KeyIs(22, 0x5cb0a9dc) && KeyIs(23, 0x76f988da)
  {
  }

  lemma Keys24()
    ensures KeyIs(24, 0x983e5152) && KeyIs(25, 0xa831c66d) && KeyIs(26, 0xb00327c8) && KeyIs(27, 0xbf597fc7)
    ensures KeyIs(28, 0xc6e00bf3) && KeyIs(29, 0xd5a79147) && KeyIs(30, 0x06ca6351) && KeyIs(31, 0x14292967)
  {
  }

  lemma Keys32()
    ensures KeyIs(32, 0x27b70a85) && KeyIs(33, 0x2e1b2138) && KeyIs(34, 0x4d2c6dfc) && KeyIs(35, 0x53380d13)
    ensures KeyIs(36, 0x650a7354) && KeyIs(37, 0x766a0abb) && KeyIs(38, 0x81c2c92e) && KeyIs(39, 0x92722c85)
  {
  }

  lemma Keys40()
    ensures KeyIs(40, 0xa2bfe8a1) && KeyIs(41, 0xa81a664b) && KeyIs(42, 0xc24b8b70) && KeyIs(43, 0xc76c51a3)
    ensures KeyIs(44, 0xd192e819) && KeyIs(45, 0xd6990624) && KeyIs(46, 0xf40e3585) && KeyIs(47, 0x106aa070)
  {
  }

  lemma Keys48()
    ensures KeyIs(48, 0x19a4c116) && KeyIs(49, 0x1e376c08) && KeyIs(50, 0x2748774c) && KeyIs(51, 0x34b0bcb5)
    ensures KeyIs(52, 0x391c0cb3) && KeyIs(53, 0x4ed8aa4a) && KeyIs(54, 0x5b9cca4f) && KeyIs(55, 0x682e6ff3)
  {
  }

  lemma Keys56()
    ensures KeyIs(56, 0x748f82ee) && KeyIs(57, 0x78a5636f) && KeyIs(58, 0x84c87814) && KeyIs(59, 0x8cc70208)
    ensures KeyIs(60, 0x90befffa) && KeyIs(61, 0xa4506ceb) && KeyIs(62, 0xbef9a3f7) && KeyIs(63, 0xc67178f2)
  {
  }

  lemma States0(b: seq<Byte>)
    requires b == Abc()
    ensures StateIs(b, 0, INITIAL)
  {
  }

  lemma States4(b: seq<Byte>)
    requires b == Abc()
    ensures StateIs(b, 4, Words(0xd550f666, 0xc8c347a7, 0x5a6ad9ad, 0x5d6aebcd,
                                0x24e00850, 0xf92939eb, 0x78ce7989, 0xfa2a4622))
  {
    hide WordIs, StateIs, KeyIs, Abc;
    States0(b);
    Words0(b);
    Keys0();
    Turn(b, 0, INITIAL,
         0x61626380, 0x428a2f98);
    Turn(b, 1, Words(0x5d6aebcd, 0x6a09e667, 0xbb67ae85, 0x3c6ef372,
                     0xfa2a4622, 0x510e527f, 0x9b05688c, 0x1f83d9ab),
         0x00000000, 0x71374491);
    Turn(b, 2, Words(0x5a6ad9ad, 0x5d6aebcd, 0x6a09e667, 0xbb67ae85,
                     0x78ce7989, 0xfa2a4622, 0x510e527f, 0x9b05688c),
         0x00000000, 0xb5c0fbcf);
    Turn(b, 3, Words(0xc8c347a7, 0x5a6ad9ad, 0x5d6aebcd, 0x6a09e667,
                     0xf92939eb, 0x78ce7989, 0xfa2a4622, 0x510e527f),
         0x00000000, 0xe9b5dba5);
  }

  lemma States8(b: seq<Byte>)
    requires b == Abc()
    ensures StateIs(b, 8, Words(0x85a07b5f, 0xe5030380, 0x2b4209f5, 0x04409a6a,
                                0x0c657a79, 0x9b27a401, 0x714260ad, 0x43ada245))
  {
    hide WordIs, StateIs, KeyIs, Abc;
    States4(b);
    Words0(b);
    Keys0();
    Turn(b, 4, Words(0xd550f666, 0xc8c347a7, 0x5a6ad9ad, 0x5d6aebcd,
                     0x24e00850, 0xf92939eb, 0x78ce7989, 0xfa2a4622),
         0x00000000, 0x3956c25b);
    Turn(b, 5, Words(0x04409a6a, 0xd550f666, 0xc8c347a7, 0x5a6ad9ad,
                     0x43ada245, 0x24e00850, 0xf92939eb, 0x78ce7989),
         0x00000000, 0x59f111f1);
    Turn(b, 6, Words(0x2b4209f5, 0x04409a6a, 0xd550f666, 0xc8c347a7,
                     0x714260ad, 0x43ada245, 0x24e00850, 0xf92939eb),
         0x00000000, 0x923f82a4);
    Turn(b, 7, Words(0xe5030380, 0x2b4209f5, 0x04409a6a, 0xd550f666,
                     0x9b27a401, 0x714260ad, 0x43ada245, 0x24e00850),
         0x00000000, 0xab1c5ed5);
  }

  lemma States12(b: seq<Byte>)
    requires b == Abc()
    ensures StateIs(b, 12, Words(0xf71fc5a9, 0x4798a3f4, 0x8c87346b, 0x8e04ecb9,
                                 0x816fd6e9, 0x436b23e8, 0x1cc92596, 0x32ca2d8c))
  {
    hide WordIs, StateIs, KeyIs, Abc;
    States8(b);
    Words0(b);
    Keys8();
    Turn(b, 8, Words(0x85a07b5f, 0xe5030380, 0x2b4209f5, 0x04409a6a,
                     0x0c657a79, 0x9b27a401, 0x714260ad, 0x43ada245),
         0x00000000, 0xd807aa98);
    Turn(b, 9, Words(0x8e04ecb9, 0x85a07b5f, 0xe5030380, 0x2b4209f5,
                     0x32ca2d8c, 0x0c657a79, 0x9b27a401, 0x714260ad),
         0x00000000, 0x12835b01);
    Turn(b, 10, Words(0x8c87346b, 0x8e04ecb9, 0x85a07b5f, 0xe5030380,
                      0x1cc92596, 0x32ca2d8c, 0x0c657a79, 0x9b27a401),
         0x00000000, 0x243185be);
    Turn(b, 11, Words(0x4798a3f4, 0x8c87346b, 0x8e04ecb9, 0x85a07b5f,
                      0x436b23e8, 0x1cc92596, 0x32ca2d8c, 0x0c657a79),
         0x00000000, 0x550c7dc3);
  }

  lemma States16(b: seq<Byte>)
    requires b == Abc()
    ensures StateIs(b, 16, Words(0xb0fa238e, 0xc0645fde, 0xd932eb16, 0x87912990,
                                 0x07590dcd, 0x0b92f20c, 0x745a48de, 0x1e578218))
  {
    hide WordIs, StateIs, KeyIs, Abc;
    States12(b);
    Words0(b);
    Keys8();
    Turn(b, 12, Words(0xf71fc5a9, 0x4798a3f4, 0x8c87346b, 0x8e04ecb9,
                      0x816fd6e9, 0x436b23e8, 0x1cc92596, 0x32ca2d8c),
         0x00000000, 0x72be5d74);
    Turn(b, 13, Words(0x87912990, 0xf71fc5a9, 0x4798a3f4, 0x8c87346b,
                      0x1e578218, 0x816fd6e9, 0x436b23e8, 0x1cc92596),
         0x00000000, 0x80deb1fe);
    Turn(b, 14, Words(0xd932eb16, 0x87912990, 0xf71fc5a9, 0x4798a3f4,
                      0x745a48de, 0x1e578218, 0x816fd6e9, 0x436b23e8),
         0x00000000, 0x9bdc06a7);
    Turn(b, 15, Words(0xc0645fde, 0xd932eb16, 0x87912990, 0xf71fc5a9,
                      0x0b92f20c, 0x745a48de, 0x1e578218, 0x816fd6e9),
         0x00000018, 0xc19bf174);
  }

  lemma States20(b: seq<Byte>)
    requires b == Abc()
    ensures StateIs(b, 20, Words(0xe1f20c33, 0xfe777bbf, 0xc2fbd9d1, 0x21da9a9b,
                                 0xb0638179, 0xcc899961, 0x846ee454, 0x8034229c))
  {
    hide WordIs, StateIs, KeyIs, Abc;
    States16(b);
    Words16(b);
    Keys16();
    Turn(b, 16, Words(0xb0fa238e, 0xc0645fde, 0xd932eb16, 0x87912990,
                      0x07590dcd, 0x0b92f20c, 0x745a48de, 0x1e578218),
         0x61626380, 0xe49b69c1);
    Turn(b, 17, Words(0x21da9a9b, 0xb0fa238e, 0xc0645fde, 0xd932eb16,
                      0x8034229c, 0x07590dcd, 0x0b92f20c, 0x745a48de),
         0x000f0000, 0xefbe4786);
    Turn(b, 18, Words(0xc2fbd9d1, 0x21da9a9b, 0xb0fa238e, 0xc0645fde,
                      0x846ee454, 0x8034229c, 0x07590dcd, 0x0b92f20c),
         0x7da86405, 0x0fc19dc6);
    Turn(b, 19, Words(0xfe777bbf, 0xc2fbd9d1, 0x21da9a9b, 0xb0fa238e,
                      0xcc899961, 0x846ee454, 0x8034229c, 0x07590dcd),
         0x600003c6, 0x240ca1cc);
  }

  lemma States24(b: seq<Byte>)
    requires b == Abc()
    ensures StateIs(b, 24, Words(0xc5d53d8d, 0xa7a3623f, 0xc2606d6d, 0x9dc68b63,
                                 0xaa47c347, 0x49f5114a, 0xe1257970, 0x8ada8930))
  {
    hide WordIs, StateIs, KeyIs, Abc;
    States20(b);
    Words16(b);
    Keys16();
    Turn(b, 20, Words(0xe1f20c33, 0xfe777bbf, 0xc2fbd9d1, 0x21da9a9b,
                      0xb0638179, 0xcc899961, 0x846ee454, 0x8034229c),
         0x3e9d7b78, 0x2de92c6f);
    Turn(b, 21, Words(0x9dc68b63, 0xe1f20c33, 0xfe777bbf, 0xc2fbd9d1,
                      0x8ada8930, 0xb0638179, 0xcc899961, 0x846ee454),
         0x0183fc00, 0x4a7484aa);
    Turn(b, 22, Words(0xc2606d6d, 0x9dc68b63, 0xe1f20c33, 0xfe777bbf,
                      0xe1257970, 0x8ada8930, 0xb0638179, 0xcc899961),
         0x12dcbfdb, 0x5cb0a9dc);
    Turn(b, 23, Words(0xa7a3623f, 0xc2606d6d, 0x9dc68b63, 0xe1f20c33,
                      0x49f5114a, 0xe1257970, 0x8ada8930, 0xb0638179),
         0xe2e2c38e, 0x76f988da);
  }

  lemma States28(b: seq<Byte>)
    requires b == Abc()
    ensures StateIs(b, 28, Words(0x77d37528, 0xb62ec4bc, 0xcde8037d, 0x1c2c2838,
                                 0xedffbff8, 0xc74c6516, 0x14383d8e, 0x2823ef91))
  {
    hide WordIs, StateIs, KeyIs, Abc;
    States24(b);
    Words24(b);
    Keys24();
    Turn(b, 24, Words(0xc5d53d8d, 0xa7a3623f, 0xc2606d6d, 0x9dc68b63,
                      0xaa47c347, 0x49f5114a, 0xe1257970, 0x8ada8930),
         0xc8215c1a, 0x983e5152);
    Turn(b, 25, Words(0x1c2c2838, 0xc5d53d8d, 0xa7a3623f, 0xc2606d6d,
                      0x2823ef91, 0xaa47c347, 0x49f5114a, 0xe1257970),
         0xb73679a2, 0xa831c66d);
    Turn(b, 26, Words(0xcde8037d, 0x1c2c2838, 0xc5d53d8d, 0xa7a3623f,
                      0x14383d8e, 0x2823ef91, 0xaa47c347, 0x49f5114a),
         0xe5bc3909, 0xb00327c8);
    Turn(b, 27, Words(0xb62ec4bc, 0xcde8037d, 0x1c2c2838, 0xc5d53d8d,
                      0xc74c6516, 0x14383d8e, 0x2823ef91, 0xaa47c347),
         0x32663c5b, 0xbf597fc7);
  }

  lemma States32(b: seq<Byte>)
    requires b == Abc()
    ensures StateIs(b, 32, Words(0x73b33bf5, 0xea992a22, 0xa0060b30, 0x363482c9,
                                 0xba591112, 0x0109ab3a, 0xade79437, 0x6112a3b7))
  {
    hide WordIs, StateIs, KeyIs, Abc;
    States28(b);
    Words24(b);
    Keys24();
    Turn(b, 28, Words(0x77d37528, 0xb62ec4bc, 0xcde8037d, 0x1c2c2838,
                      0xedffbff8, 0xc74c6516, 0x14383d8e, 0x2823ef91),
         0x9d209d67, 0xc6e00bf3);
    Turn(b, 29, Words(0x363482c9, 0x77d37528, 0xb62ec4bc, 0xcde8037d,
                      0x6112a3b7, 0xedffbff8, 0xc74c6516, 0x14383d8e),
         0xec8726cb, 0xd5a79147);
    Turn(b, 30, Words(0xa0060b30, 0x363482c9, 0x77d37528, 0xb62ec4bc,
                      0xade79437, 0x6112a3b7, 0xedffbff8, 0xc74c6516),
         0x702138a4, 0x06ca6351);
    Turn(b, 31, Words(0xea992a22, 0xa0060b30, 0x363482c9, 0x77d37528,
                      0x0109ab3a, 0xade79437, 0x6112a3b7, 0xedffbff8),
         0xd3b7973b, 0x14292967);
  }

  lemma States36(b: seq<Byte>)
    requires b == Abc()
    ensures StateIs(b, 36, Words(0x65a0cfe4, 0xa9a7738c, 0xfe604df5, 0x98e12507,
                                 0xf4b002d6, 0x085f3833, 0x59249dd3, 0x9cd9f5f6))
  {
    hide WordIs, StateIs, KeyIs, Abc;
    States32(b);
    Words32(b);
    Keys32();
    Turn(b, 32, Words(0x73b33bf5, 0xea992a22, 0xa0060b30, 0x363482c9,
                      0xba591112, 0x0109ab3a, 0xade79437, 0x6112a3b7),
         0x93f5997f, 0x27b70a85);
    Turn(b, 33, Words(0x98e12507, 0x73b33bf5, 0xea992a22, 0xa0060b30,
                      0x9cd9f5f6, 0xba591112, 0x0109ab3a, 0xade79437),
         0x3b68ba73, 0x2e1b2138);
    Turn(b, 34, Words(0xfe604df5, 0x98e12507, 0x73b33bf5, 0xea992a22,
                      0x59249dd3, 0x9cd9f5f6, 0xba591112, 0x0109ab3a),
         0xaff4ffc1, 0x4d2c6dfc);
    Turn(b, 35, Words(0xa9a7738c, 0xfe604df5, 0x98e12507, 0x73b33bf5,
                      0x085f3833, 0x59249dd3, 0x9cd9f5f6, 0xba591112),
         0xf10a5c62, 0x53380d13);
  }

  lemma States40(b: seq<Byte>)
    requires b == Abc()
    ensures StateIs(b, 40, Words(0x79ea687a, 0x6dc57a8a, 0x34df1604, 0x41a65cb1,
                                 0x1efbc0a0, 0xf0781bc8, 0xa507a53d, 0x0772a26b))
  {
    hide WordIs, StateIs, KeyIs, Abc;
    States36(b);
    Words32(b);
    Keys32();
    Turn(b, 36, Words(0x65a0cfe4, 0xa9a7738c, 0xfe604df5, 0x98e12507,
                      0xf4b002d6, 0x085f3833, 0x59249dd3, 0x9cd9f5f6),
         0x0a8b3996, 0x650a7354);
    Turn(b, 37, Words(0x41a65cb1, 0x65a0cfe4, 0xa9a7738c, 0xfe604df5,
                      0x0772a26b, 0xf4b002d6, 0x085f3833, 0x59249dd3),
         0x72af830a, 0x766a0abb);
    Turn(b, 38, Words(0x34df1604, 0x41a65cb1, 0x65a0cfe4, 0xa9a7738c,
                      0xa507a53d, 0x0772a26b, 0xf4b002d6, 0x085f3833),
         0x9409e33e, 0x81c2c92e);
    Turn(b, 39, Words(0x6dc57a8a, 0x34df1604, 0x41a65cb1, 0x65a0cfe4,
                      0xf0781bc8, 0xa507a53d, 0x0772a26b, 0xf4b002d6),
         0x24641522, 0x92722c85);
  }

  lemma States44(b: seq<Byte>)
    requires b == Abc()
    ensures StateIs(b, 44, Words(0x9d4baf93, 0x17aa0dfe, 0xdf46652f, 0xd6670766,
                                 0xfda24c2e, 0xdecd4715, 0x838b2711, 0x26352d63))
  {
    hide WordIs, StateIs, KeyIs, Abc;
    States40(b);
    Words40(b);
    Keys40();
    Turn(b, 40, Words(0x79ea687a, 0x6dc57a8a, 0x34df1604, 0x41a65cb1,
                      0x1efbc0a0, 0xf0781bc8, 0xa507a53d, 0x0772a26b),
         0x9f47bf94, 0xa2bfe8a1);
    Turn(b, 41, Words(0xd6670766, 0x79ea687a, 0x6dc57a8a, 0x34df1604,
                      0x26352d63, 0x1efbc0a0, 0xf0781bc8, 0xa507a53d),
         0xf0a64f5a, 0xa81a664b);
    Turn(b, 42, Words(0xdf46652f, 0xd6670766, 0x79ea687a, 0x6dc57a8a,
                      0x838b2711, 0x26352d63, 0x1efbc0a0, 0xf0781bc8),
         0x3e246a79, 0xc24b8b70);
    Turn(b, 43, Words(0x17aa0dfe, 0xdf46652f, 0xd6670766, 0x79ea687a,
                      0xdecd4715, 0x838b2711, 0x26352d63, 0x1efbc0a0),
         0x27333ba3, 0xc76c51a3);
  }

  lemma States48(b: seq<Byte>)
    requires b == Abc()
    ensures StateIs(b, 48, Words(0x4172328d, 0xa14c14b0, 0x72ab4b91, 0x26628815,
                                 0xfecf0bc6, 0xd57b94a9, 0xb7755da1, 0xa80f11f0))
  {
    hide WordIs, StateIs, KeyIs, Abc;
    States44(b);
    Words40(b);
    Keys40();
    Turn(b, 44, Words(0x9d4baf93, 0x17aa0dfe, 0xdf46652f, 0xd6670766,
                      0xfda24c2e, 0xdecd4715, 0x838b2711, 0x26352d63),
         0x0c4763f2, 0xd192e819);
    Turn(b, 45, Words(0x26628815, 0x9d4baf93, 0x17aa0dfe, 0xdf46652f,
                      0xa80f11f0, 0xfda24c2e, 0xdecd4715, 0x838b2711),
         0x840abf27, 0xd6990624);
    Turn(b, 46, Words(0x72ab4b91, 0x26628815, 0x9d4baf93, 0x17aa0dfe,
                      0xb7755da1, 0xa80f11f0, 0xfda24c2e, 0xdecd4715),
         0x7a290d5d, 0xf40e3585);
    Turn(b, 47, Words(0xa14c14b0, 0x72ab4b91, 0x26628815, 0x9d4baf93,
                      0xd57b94a9, 0xb7755da1, 0xa80f11f0, 0xfda24c2e),
         0x065c43da, 0x106aa070);
  }

  lemma States52(b: seq<Byte>)
    requires b == Abc()
    ensures StateIs(b, 52, Words(0x886e7a22, 0x7a0508a1, 0xf11bfaa8, 0x05757ceb,
                                 0x49231c1e, 0x52f1ccf7, 0x6e5c390c, 0xbd714038))
  {
    hide WordIs, StateIs, KeyIs, Abc;
    States48(b);
    Words48(b);
    Keys48();
    Turn(b, 48, Words(0x4172328d, 0xa14c14b0, 0x72ab4b91, 0x26628815,
                      0xfecf0bc6, 0xd57b94a9, 0xb7755da1, 0xa80f11f0),
         0xfb3e89cb, 0x19a4c116);
    Turn(b, 49, Words(0x05757ceb, 0x4172328d, 0xa14c14b0, 0x72ab4b91,
                      0xbd714038, 0xfecf0bc6, 0xd57b94a9, 0xb7755da1),
         0xcc7617db, 0x1e376c08);
    Turn(b, 50, Words(0xf11bfaa8, 0x05757ceb, 0x4172328d, 0xa14c14b0,
                      0x6e5c390c, 0xbd714038, 0xfecf0bc6, 0xd57b94a9),
         0xb9e66c34, 0x2748774c);
    Turn(b, 51, Words(0x7a0508a1, 0xf11bfaa8, 0x05757ceb, 0x4172328d,
                      0x52f1ccf7, 0x6e5c390c, 0xbd714038, 0xfecf0bc6),
         0xa9993667, 0x34b0bcb5);
  }

  lemma States56(b: seq<Byte>)
    requires b == Abc()
    ensures StateIs(b, 56, Words(0x38cc9913, 0x3ec45cdb, 0xf5702fdb, 0x101fd28f,
                                 0x54cb266b, 0xe50e1b4f, 0x9f4787c3, 0x529e7d00))
  {
    hide WordIs, StateIs, KeyIs, Abc;
    States52(b);
    Words48(b);
    Keys48();
    Turn(b, 52, Words(0x886e7a22, 0x7a0508a1, 0xf11bfaa8, 0x05757ceb,
                      0x49231c1e, 0x52f1ccf7, 0x6e5c390c, 0xbd714038),
         0x84badedd, 0x391c0cb3);
    Turn(b, 53, Words(0x101fd28f, 0x886e7a22, 0x7a0508a1, 0xf11bfaa8,
                      0x529e7d00, 0x49231c1e, 0x52f1ccf7, 0x6e5c390c),
         0xc21462bc, 0x4ed8aa4a);
    Turn(b, 54, Words(0xf5702fdb, 0x101fd28f, 0x886e7a22, 0x7a0508a1,
                      0x9f4787c3, 0x529e7d00, 0x49231c1e, 0x52f1ccf7),
         0x1487472c, 0x5b9cca4f);
    Turn(b, 55, Words(0x3ec45cdb, 0xf5702fdb, 0x101fd28f, 0x886e7a22,
                      0xe50e1b4f, 0x9f4787c3, 0x529e7d00, 0x49231c1e),
         0xb20f7a99, 0x682e6ff3);
  }

  lemma States60(b: seq<Byte>)
    requires b == Abc()
    ensures StateIs(b, 60, Words(0xb6ae8fff, 0xffb70472, 0xc062d46f, 0xfcd1887b,
                                 0xb21bad3d, 0x6d83bfc6, 0x7e44008e, 0x9b5e906c))
  {
    hide WordIs, StateIs, KeyIs, Abc;
    States56(b);
    Words56(b);
    Keys56();
    Turn(b, 56, Words(0x38cc9913, 0x3ec45cdb, 0xf5702fdb, 0x101fd28f,
                      0x54cb266b, 0xe50e1b4f, 0x9f4787c3, 0x529e7d00),
         0xef57b9cd, 0x748f82ee);
    Turn(b, 57, Words(0xfcd1887b, 0x38cc9913, 0x3ec45cdb, 0xf5702fdb,
                      0x9b5e906c, 0x54cb266b, 0xe50e1b4f, 0x9f4787c3),
         0xebe6b238, 0x78a5636f);
    Turn(b, 58, Words(0xc062d46f, 0xfcd1887b, 0x38cc9913, 0x3ec45cdb,
                      0x7e44008e, 0x9b5e906c, 0x54cb266b, 0xe50e1b4f),
         0x9fe3095e, 0x84c87814);
    Turn(b, 59, Words(0xffb70472, 0xc062d46f, 0xfcd1887b, 0x38cc9913,
                      0x6d83bfc6, 0x7e44008e, 0x9b5e906c, 0x54cb266b),
         0x78bc8d4b, 0x8cc70208);
  }

  lemma States64(b: seq<Byte>)
    requires b == Abc()
    ensures StateIs(b, 64, Words(0x506e3058, 0xd39a2165, 0x04d24d6c, 0xb85e2ce9,
                                 0x5ef50f24, 0xfb121210, 0x948d25b6, 0x961f4894))
  {
    hide WordIs, StateIs, KeyIs, Abc;
    States60(b);
    Words56(b);
    Keys56();
    Turn(b, 60, Words(0xb6ae8fff, 0xffb70472, 0xc062d46f, 0xfcd1887b,
                      0xb21bad3d, 0x6d83bfc6, 0x7e44008e, 0x9b5e906c),
         0xa43fcf15, 0x90befffa);
    Turn(b, 61, Words(0xb85e2ce9, 0xb6ae8fff, 0xffb70472, 0xc062d46f,
                      0x961f4894, 0xb21bad3d, 0x6d83bfc6, 0x7e44008e),
         0x668b2ff8, 0xa4506ceb);
    Turn(b, 62, Words(0x04d24d6c, 0xb85e2ce9, 0xb6ae8fff, 0xffb70472,
                      0x948d25b6, 0x961f4894, 0xb21bad3d, 0x6d83bfc6),
         0xeeaba2cc, 0xbef9a3f7);
    Turn(b, 63, Words(0xd39a2165, 0x04d24d6c, 0xb85e2ce9, 0xb6ae8fff,
                      0xfb121210, 0x948d25b6, 0x961f4894, 0xb21bad3d),
         0x12b1edeb, 0xc67178f2);
  }

  // ---- the digest --------------------------------------------------------------------------------

  lemma SumIs()
    ensures Plus(INITIAL, Words(0x506e3058, 0xd39a2165, 0x04d24d6c, 0xb85e2ce9,
                                0x5ef50f24, 0xfb121210, 0x948d25b6, 0x961f4894))
         == Words(0xba7816bf, 0x8f01cfea, 0x414140de, 0x5dae2223,
                  0xb00361a3, 0x96177a9c, 0xb410ff61, 0xf20015ad)
  {
  }

  lemma FirstHalf()
    ensures Store(0xba7816bf) == [0xba, 0x78, 0x16, 0xbf]
    ensures Store(0x8f01cfea) == [0x8f, 0x01, 0xcf, 0xea]
    ensures Store(0x414140de) == [0x41, 0x41, 0x40, 0xde]
    ensures Store(0x5dae2223) == [0x5d, 0xae, 0x22, 0x23]
  {
  }

  lemma SecondHalf()
    ensures Store(0xb00361a3) == [0xb0, 0x03, 0x61, 0xa3]
    ensures Store(0x96177a9c) == [0x96, 0x17, 0x7a, 0x9c]
    ensures Store(0xb410ff61) == [0xb4, 0x10, 0xff, 0x61]
    ensures Store(0xf20015ad) == [0xf2, 0x00, 0x15, 0xad]
  {
  }

  /** A padded message of one block. */
  lemma OneBlock(s: Words, b: seq<Byte>)
    requires |b| == BLOCK
    ensures Hash(s, b) == Compress(s, b)
  {
    hide Compress;
    assert b[..BLOCK] == b && b[BLOCK..] == [];
  }

  /** The digest of "abc". */
  lemma KnownDigest()
    ensures Digest([97, 98, 99]) == [
      0xba, 0x78, 0x16, 0xbf, 0x8f, 0x01, 0xcf, 0xea, 0x41, 0x41, 0x40, 0xde, 0x5d, 0xae, 0x22, 0x23,
      0xb0, 0x03, 0x61, 0xa3, 0x96, 0x17, 0x7a, 0x9c, 0xb4, 0x10, 0xff, 0x61, 0xf2, 0x00, 0x15, 0xad]
  {
    hide Rounds, Padded, Abc, Hash, Store, Plus;
    AbcPadded();
    States64(Abc());
    OneBlock(INITIAL, Abc());
    SumIs();
    FirstHalf();
    SecondHalf();
  }
}
