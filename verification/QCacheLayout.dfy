/** The cache file byte by byte: where every field of the prefix and of an entry header stands, how long the
    storage of a linear is, and where payloads may begin. */
module QCacheLayout {
  import opened Basics
  import opened QCache
  import HttpHead

  /** The k widths before a field. */
  function Before(ws: seq<nat>, k: nat): nat
    requires k <= |ws|
  {
    if k == 0 then 0 else ws[0] + Before(ws[1..], k - 1)
  }

  lemma {:induction false} BeforeFits(ws: seq<nat>, k: nat)
    requires k < |ws|
    ensures Before(ws, k) + ws[k] <= Sum(ws)
  {
    if k > 0 {
      BeforeFits(ws[1..], k - 1);
    }
  }

  /** A field is read from its own bytes. */
  lemma {:induction false} ReadAt(b: seq<Byte>, ws: seq<nat>, k: nat)
    requires k < |ws| && |b| >= Sum(ws)
    ensures Before(ws, k) + ws[k] <= |b|
    ensures Read(b, ws)[k] == Le(b[Before(ws, k)..Before(ws, k) + ws[k]])
    decreases k
  {
    hide Le;
    BeforeFits(ws, k);
    if k == 0 {
      assert b[0..ws[0]] == b[..ws[0]];
    } else {
      var c := b[ws[0]..];
      ReadAt(c, ws[1..], k - 1);
      var n := Before(ws[1..], k - 1);
      assert c[n..n + ws[k]] == b[ws[0] + n..ws[0] + n + ws[k]];
    }
  }

  lemma Places()
    ensures var ws := Widths();
            && Before(ws, 0) == 0 && Before(ws, 1) == 4 && Before(ws, 2) == 8 && Before(ws, 3) == 12
            && Before(ws, 4) == 16 && Before(ws, 5) == 20
  {
  }

  lemma FarPlaces()
    ensures var ws := Widths();
            && Before(ws, 6) == 24 && Before(ws, 7) == 32 && Before(ws, 8) == 40 && Before(ws, 9) == 48
  {
    var ws := Widths()[6..];
    assert ws == [8, 8, 8, 8];
    assert Before(Widths(), 6) == 24;
    assert Before(ws, 1) == 8 && Before(ws, 2) == 16 && Before(ws, 3) == 24;
    BeforeSplit(Widths(), 6, 1);
    BeforeSplit(Widths(), 6, 2);
    BeforeSplit(Widths(), 6, 3);
  }

  lemma {:induction false} BeforeSplit(ws: seq<nat>, a: nat, b: nat)
    requires a + b <= |ws|
    ensures Before(ws, a + b) == Before(ws, a) + Before(ws[a..], b)
    decreases a
  {
    if a == 0 {
      assert ws[0..] == ws;
    } else {
      BeforeSplit(ws[1..], a - 1, b);
      assert ws[1..][a - 1..] == ws[a..];
    }
  }

  lemma FieldIs(h: Header, rest: seq<Byte>, k: nat)
    requires Encodable(h) && k < 10
    ensures var b, n := HeaderBytes(h) + rest, Before(Widths(), k);
            n + Widths()[k] <= |b| && Le(b[n..n + Widths()[k]]) == Values(h)[k]
  {
    hide Encodable, Values, Le, Before, Widths, Sum;
    var b := HeaderBytes(h) + rest;
    HeaderValues(h, rest);
    ReadAt(b, Widths(), k);
  }

  lemma HeaderValues(h: Header, rest: seq<Byte>)
    requires Encodable(h)
    ensures |HeaderBytes(h) + rest| >= Sum(Widths()) && Read(HeaderBytes(h) + rest, Widths()) == Values(h)
  {
    hide Read, Write, Widths, Sum;
    ValuesFit(h);
    ReadWrite(Values(h), Widths(), h.name + rest);
    assert Write(Values(h), Widths()) + (h.name + rest) == HeaderBytes(h) + rest;
  }

  lemma ValuesFit(h: Header)
    requires Encodable(h)
    ensures forall i: nat :: i < 10 ==> QCache.Fits(Values(h)[i], Widths()[i])
  {
    FitsFour(|h.name|);
    FitsFour(h.kind);
    FitsFour(h.N);
    FitsFour(h.K);
    FitsFour(h.group);
    FitsFour(0);
    FitsEight(h.qOff);
    FitsEight(h.qLen);
    FitsEight(h.sOff);
    FitsEight(h.sLen);
  }

  lemma FitsFour(n: nat)
    requires n < 0x1_0000_0000
    ensures QCache.Fits(n, 4)
  {
    FitsBelow(n, 4);
  }

  lemma FitsEight(n: nat)
    requires n < 0x1_0000_0000_0000_0000
    ensures QCache.Fits(n, 8)
  {
    FitsBelow(n, 8);
  }

  function Bound(k: nat): nat {
    if k == 0 then 1 else 256 * Bound(k - 1)
  }

  lemma {:induction false} FitsBelow(n: nat, k: nat)
    requires n < Bound(k)
    ensures QCache.Fits(n, k)
  {
    if k > 0 {
      FitsBelow(n / 256, k - 1);
    }
  }

  /** An entry header: six words of four bytes, four of eight, little-endian, and the name. */
  lemma HeaderLayout(h: Header, rest: seq<Byte>)
    requires Encodable(h)
    ensures var b := HeaderBytes(h) + rest;
            && |b| >= 56 && b[56..] == h.name + rest
            && Le(b[0..4]) == |h.name| && Le(b[4..8]) == h.kind && Le(b[8..12]) == h.N && Le(b[12..16]) == h.K
            && Le(b[16..20]) == h.group && Le(b[20..24]) == 0
            && Le(b[24..32]) == h.qOff && Le(b[32..40]) == h.qLen
            && Le(b[40..48]) == h.sOff && Le(b[48..56]) == h.sLen
  {
    hide Encodable, Le, Before, Write;
    var b := HeaderBytes(h) + rest;
    WidthSum();
    assert b[56..] == h.name + rest;
    Places();
    FarPlaces();
    FieldIs(h, rest, 0);
    FieldIs(h, rest, 1);
    FieldIs(h, rest, 2);
    FieldIs(h, rest, 3);
    FieldIs(h, rest, 4);
    FieldIs(h, rest, 5);
    FieldIs(h, rest, 6);
    FieldIs(h, rest, 7);
    FieldIs(h, rest, 8);
    FieldIs(h, rest, 9);
  }

  /** The prefix: eight bytes of magic, the fingerprint, the number of entries, four bytes of zero. */
  lemma PrefixLayout(fingerprint: nat, n: nat, rest: seq<Byte>)
    requires fingerprint < WRAP64 && n < 0x1_0000_0000
    ensures var b := Prefix(fingerprint, n) + rest;
            && b[..5] == HttpHead.Bytes("S2PQC") && b[5..8] == [1, 0, 0]
            && Le(b[8..16]) == fingerprint && Le(b[16..20]) == n && Le(b[20..24]) == 0 && b[24..] == rest
  {
    hide Le, QCache.Bytes;
    var b := Prefix(fingerprint, n) + rest;
    FitsEight(fingerprint);
    FitsFour(n);
    FitsFour(0);
    LeBytes(fingerprint, 8);
    LeBytes(n, 4);
    LeBytes(0, 4);
    assert b[8..16] == QCache.Bytes(fingerprint, 8);
    assert b[16..20] == QCache.Bytes(n, 4) && b[20..24] == QCache.Bytes(0, 4);
    assert b[..5] == HttpHead.Bytes("S2PQC");
  }

  /** A payload begins at the next multiple of 256. */
  lemma NextBoundary(v: nat, a: nat)
    requires a % 256 == 0
    ensures a == AlignUp(v) <==> v <= a < v + 256
  {
  }

  /** Weights: a byte each, packed two to a byte.  Scales: a 32-bit float for every output channel, or a
      16-bit one for every group of inputs of every output channel. */
  lemma Storage(l: Linear)
    requires Sound(l)
    ensures if l.packed then |l.q| == l.outF * (l.inF / 2) else |l.q| == l.outF * l.inF
    ensures if l.group == 0 then |l.scale| == 4 * l.outF else |l.scale| == 2 * (l.outF * (l.inF / l.group))
    ensures Kind(l) == 2 <==> l.packed
    ensures Kind(l) == 3 <==> !l.packed && l.group > 0
    ensures Kind(l) == 1 <==> !l.packed && l.group == 0
  {
  }

  /** Which written files are usable: those of 1 to 512 entries under names of 1 to 512 bytes. */
  lemma UsableExactly(es: seq<Entry>, fingerprint: nat)
    requires Writable(es) && |es| < 0x1_0000_0000 && fingerprint < WRAP64 && End(es, Start(es)) < WRAP64
    ensures ReadFile(File(es, fingerprint), fingerprint).Some? <==>
      1 <= |es| <= 512 && forall i: nat :: i < |es| ==> 1 <= |es[i].name| <= 512
  {
    hide Prefix, Headers, Payload, Place, Le, ReadHeaders, Writable, End;
    if 1 <= |es| <= 512 {
      FileReadBack(es, fingerprint);
    } else {
      var body := Headers(Place(es, Start(es))) + Payload(es, Start(es));
      PrefixReadBack(fingerprint, |es|, body);
      assert File(es, fingerprint) == Prefix(fingerprint, |es|) + body;
    }
  }
}
