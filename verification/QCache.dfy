/** The prequantized-weight cache file: what is written is read back, payloads are aligned and
    apart, and a loaded linear equals the one that was put in. */
module QCache {
  import opened Basics

  const MAGIC: seq<Byte> := [83, 50, 80, 81, 67, 1, 0, 0]
  const ALIGN: nat := 256
  const MAX_ENTRIES: nat := 512
  const MAX_NAME: nat := 512
  const PREFIX: nat := 24
  const FIXED: nat := 56
  const WRAP64: nat := 0x1_0000_0000_0000_0000

  /** A C string. */
  type Name = s: seq<Byte> | 0 !in s witness []

  /** A quantized linear: weights and scales as raw bytes. */
  datatype Linear = Linear(inF: nat, outF: nat, q: seq<Byte>, scale: seq<Byte>, group: nat, packed: bool)

  datatype Entry = Entry(name: Name, lin: Linear)

  datatype Header = Header(name: seq<Byte>, kind: nat, N: nat, K: nat, group: nat,
                           qOff: nat, qLen: nat, sOff: nat, sLen: nat)

  function Kind(l: Linear): (k: nat) {
    if l.packed then 2 else if l.group > 0 then 3 else 1
  }

  /** Byte sizes the loader expects of a kind. */
  function QBytes(kind: nat, N: nat, K: nat): nat {
    if kind == 2 then N * (K / 2) else N * K
  }

  function SBytes(kind: nat, N: nat, K: nat, group: nat): nat
    requires kind == 1 || group > 0
  {
    if kind == 1 then 4 * N else 2 * (N * (K / group))
  }

  /** Storage of the three kinds: per channel, grouped and packed, grouped in int8; device tensors
      are never empty. */
  predicate Sound(l: Linear) {
    && (l.packed ==> l.group > 0) && l.q != [] && l.scale != []
    && l.inF < 0x8000_0000 && l.outF < 0x8000_0000 && l.group < 0x8000_0000
    && |l.q| == QBytes(Kind(l), l.outF, l.inF) && |l.scale| == SBytes(Kind(l), l.outF, l.inF, l.group)
  }

  // ---- little-endian fields --------------------------------------------------------------

  function Bytes(n: nat, k: nat): (b: seq<Byte>)
    ensures |b| == k
  {
    if k == 0 then [] else [n % 256] + Bytes(n / 256, k - 1)
  }

  function Le(b: seq<Byte>): nat {
    if b == [] then 0 else b[0] + 256 * Le(b[1..])
  }

  /** n fits in k bytes. */
  predicate Fits(n: nat, k: nat) {
    if k == 0 then n == 0 else Fits(n / 256, k - 1)
  }

  lemma {:induction false} LeBytes(n: nat, k: nat)
    requires Fits(n, k)
    ensures Le(Bytes(n, k)) == n
  {
    if k > 0 {
      LeBytes(n / 256, k - 1);
      assert Bytes(n, k)[1..] == Bytes(n / 256, k - 1);
    }
  }

  /** Field widths of an entry header: six 32-bit words, then four 64-bit ones. */
  function Widths(): (ws: seq<nat>)
    ensures |ws| == 10
  {
    [4, 4, 4, 4, 4, 4, 8, 8, 8, 8]
  }

  function Sum(ws: seq<nat>): nat {
    if ws == [] then 0 else ws[0] + Sum(ws[1..])
  }

  function Write(vals: seq<nat>, ws: seq<nat>): (b: seq<Byte>)
    requires |vals| == |ws|
    ensures |b| == Sum(ws)
  {
    if ws == [] then [] else Bytes(vals[0], ws[0]) + Write(vals[1..], ws[1..])
  }

  function Read(b: seq<Byte>, ws: seq<nat>): (vals: seq<nat>)
    requires |b| >= Sum(ws)
    ensures |vals| == |ws|
    decreases |ws|
  {
    if ws == [] then [] else [Le(b[..ws[0]])] + Read(b[ws[0]..], ws[1..])
  }

  lemma {:induction false} ReadWrite(vals: seq<nat>, ws: seq<nat>, rest: seq<Byte>)
    requires |vals| == |ws| && forall i: nat :: i < |ws| ==> Fits(vals[i], ws[i])
    ensures Read(Write(vals, ws) + rest, ws) == vals
    decreases |ws|
  {
    if ws != [] {
      hide Fits, Bytes, Le;
      var b := Write(vals, ws) + rest;
      LeBytes(vals[0], ws[0]);
      assert b[..ws[0]] == Bytes(vals[0], ws[0]);
      assert b[ws[0]..] == Write(vals[1..], ws[1..]) + rest;
      ReadWrite(vals[1..], ws[1..], rest);
    }
  }

  lemma WidthSum()
    ensures Sum(Widths()) == FIXED
  {
  }

  // ---- the file ------------------------------------------------------------------------------

  function AlignUp(v: nat): (a: nat)
    ensures a % ALIGN == 0 && v <= a < v + ALIGN
  {
    (v + ALIGN - 1) / ALIGN * ALIGN
  }

  function HeadersLength(es: seq<Entry>): nat {
    if es == [] then 0 else FIXED + |es[0].name| + HeadersLength(es[1..])
  }

  function HeaderOf(e: Entry, off: nat): (h: Header)
    ensures h.qOff % ALIGN == 0 && h.sOff % ALIGN == 0 && off <= h.qOff && h.qOff + h.qLen <= h.sOff
  {
    var q := AlignUp(off);
    var s := AlignUp(q + |e.lin.q|);
    Header(e.name, Kind(e.lin), e.lin.outF, e.lin.inF, e.lin.group, q, |e.lin.q|, s, |e.lin.scale|)
  }

  /** Headers with offsets assigned one payload after the other. */
  function Place(es: seq<Entry>, off: nat): (hs: seq<Header>)
    ensures |hs| == |es|
  {
    if es == [] then []
    else
      var h := HeaderOf(es[0], off);
      [h] + Place(es[1..], h.sOff + h.sLen)
  }

  function End(es: seq<Entry>, off: nat): (e: nat)
    ensures e >= off
    decreases |es|
  {
    if es == [] then off
    else
      var h := HeaderOf(es[0], off);
      End(es[1..], h.sOff + h.sLen)
  }

  function Values(h: Header): (v: seq<nat>)
    ensures |v| == 10
  {
    [|h.name|, h.kind, h.N, h.K, h.group, 0, h.qOff, h.qLen, h.sOff, h.sLen]
  }

  function HeaderBytes(h: Header): seq<Byte> {
    Write(Values(h), Widths()) + h.name
  }

  function Headers(hs: seq<Header>): seq<Byte> {
    if hs == [] then [] else HeaderBytes(hs[0]) + Headers(hs[1..])
  }

  /** The payloads from file position pos on. */
  function Payload(es: seq<Entry>, pos: nat): (b: seq<Byte>)
    ensures |b| == End(es, pos) - pos
    decreases |es|
  {
    if es == [] then []
    else
      var h := HeaderOf(es[0], pos);
      Zeros(h.qOff - pos) + es[0].lin.q + Zeros(h.sOff - (h.qOff + h.qLen)) + es[0].lin.scale
      + Payload(es[1..], h.sOff + h.sLen)
  }

  function Prefix(fingerprint: nat, n: nat): (b: seq<Byte>)
    ensures |b| == PREFIX
  {
    MAGIC + Bytes(fingerprint, 8) + Bytes(n, 4) + Bytes(0, 4)
  }

  function Start(es: seq<Entry>): nat {
    PREFIX + HeadersLength(es)
  }

  function File(es: seq<Entry>, fingerprint: nat): (b: seq<Byte>) {
    Prefix(fingerprint, |es|) + Headers(Place(es, Start(es))) + Payload(es, Start(es))
  }

  // ---- reading ----------------------------------------------------------------------------------

  /** One entry header at the front, in a file of sz bytes. */
  function ReadHeader(b: seq<Byte>, sz: nat): Option<(Header, seq<Byte>)> {
    WidthSum();
    if |b| < FIXED then None
    else
      var v := Read(b, Widths());
      var rest := b[FIXED..];
      if v[0] == 0 || v[0] > MAX_NAME || v[0] > |rest| then None
      else if (v[6] + v[7]) % WRAP64 > sz || (v[8] + v[9]) % WRAP64 > sz then None
      else Some((Header(rest[..v[0]], v[1], v[2], v[3], v[4], v[6], v[7], v[8], v[9]), rest[v[0]..]))
  }

  function ReadHeaders(b: seq<Byte>, n: nat, sz: nat): Option<seq<Header>>
    decreases n
  {
    if n == 0 then Some([])
    else
      var h := ReadHeader(b, sz);
      if h.None? then None
      else
        var t := ReadHeaders(h.value.1, n - 1, sz);
        if t.None? then None else Some([h.value.0] + t.value)
  }

  /** The table of a usable file; anything else is a miss. */
  function ReadFile(b: seq<Byte>, fingerprint: nat): Option<seq<Header>> {
    if |b| < PREFIX || b[..8] != MAGIC || Le(b[8..16]) != fingerprint then None
    else
      var n := Le(b[16..20]);
      if n == 0 || n > MAX_ENTRIES then None else ReadHeaders(b[PREFIX..], n, |b|)
  }

  // ---- written and read back ------------------------------------------------------------------------

  /** Every field fits its width. */
  predicate Encodable(h: Header) {
    && |h.name| < 0x1_0000_0000 && h.kind < 0x1_0000_0000 && h.N < 0x1_0000_0000 && h.K < 0x1_0000_0000
    && h.group < 0x1_0000_0000 && h.qOff < WRAP64 && h.qLen < WRAP64 && h.sOff < WRAP64 && h.sLen < WRAP64
  }

  lemma HeaderFits(h: Header)
    requires Encodable(h)
    ensures forall i: nat :: i < 10 ==> Fits(Values(h)[i], Widths()[i])
  {
    forall i: nat | i < 10 ensures Fits(Values(h)[i], Widths()[i]) {
      if i < 6 {
        Fits4(Values(h)[i]);
      } else {
        Fits8(Values(h)[i]);
      }
    }
  }

  lemma Fits4(n: nat)
    requires n < 0x1_0000_0000
    ensures Fits(n, 4)
  {
    FitsBelow(n, 4, 0x1_0000_0000);
  }

  lemma Fits8(n: nat)
    requires n < WRAP64
    ensures Fits(n, 8)
  {
    FitsBelow(n, 8, WRAP64);
  }

  function Pow256(k: nat): nat {
    if k == 0 then 1 else 256 * Pow256(k - 1)
  }

  lemma {:induction false} FitsBelow(n: nat, k: nat, bound: nat)
    requires n < bound == Pow256(k)
    ensures Fits(n, k)
  {
    if k > 0 {
      FitsBelow(n / 256, k - 1, Pow256(k - 1));
    }
  }

  /** The reader's checks on a header: a name of 1 to 512 bytes, payloads that end inside the file as
      64-bit sums see it. */
  predicate Accepted(h: Header, sz: nat) {
    1 <= |h.name| <= MAX_NAME && (h.qOff + h.qLen) % WRAP64 <= sz && (h.sOff + h.sLen) % WRAP64 <= sz
  }

  /** A header is read back exactly when it passes those checks. */
  lemma HeaderReadBack(h: Header, rest: seq<Byte>, sz: nat)
    requires Encodable(h)
    ensures ReadHeader(HeaderBytes(h) + rest, sz) == if Accepted(h, sz) then Some((h, rest)) else None
  {
    hide Write, Read, Sum, Fits;
    WidthSum();
    HeaderFits(h);
    var w := Write(Values(h), Widths());
    var b := HeaderBytes(h) + rest;
    assert b == w + (h.name + rest);
    ReadWrite(Values(h), Widths(), h.name + rest);
    assert b[FIXED..] == h.name + rest;
    assert (h.name + rest)[..|h.name|] == h.name && (h.name + rest)[|h.name|..] == rest;
  }

  /** Entries whose linears are sound, with names a C string of int length. */
  predicate Writable(es: seq<Entry>) {
    forall i: nat :: i < |es| ==> Sound(es[i].lin) && |es[i].name| < 0x8000_0000
  }

  predicate Named(es: seq<Entry>) {
    forall i: nat :: i < |es| ==> 1 <= |es[i].name| <= MAX_NAME
  }

  lemma PlaceIs(es: seq<Entry>, off: nat)
    requires es != []
    ensures var h := HeaderOf(es[0], off); Place(es, off) == [h] + Place(es[1..], h.sOff + h.sLen)
  {
    hide HeaderOf;
  }

  lemma HeadersCons(h: Header, tail: seq<Header>, rest: seq<Byte>)
    ensures Headers([h] + tail) + rest == HeaderBytes(h) + (Headers(tail) + rest)
  {
    hide HeaderBytes;
    assert ([h] + tail)[1..] == tail;
  }

  /** One header, accepted or not, and what is read behind it. */
  lemma ReadHeadersStep(b: seq<Byte>, n: nat, sz: nat, ok: bool, h: Header, rest: seq<Byte>)
    requires n > 0 && ReadHeader(b, sz) == if ok then Some((h, rest)) else None
    ensures var t := ReadHeaders(rest, n - 1, sz);
            ReadHeaders(b, n, sz) == if ok && t.Some? then Some([h] + t.value) else None
  {
    hide ReadHeader;
  }

  lemma ReadNothing(off: nat, rest: seq<Byte>, sz: nat)
    ensures ReadHeaders(Headers(Place([], off)) + rest, 0, sz) == Some(Place([], off)) && Named([])
  {
    assert Headers(Place([], off)) + rest == rest;
  }

  lemma {:induction false} HeadersReadBack(es: seq<Entry>, off: nat, rest: seq<Byte>, sz: nat)
    requires Writable(es) && End(es, off) <= sz < WRAP64
    ensures ReadHeaders(Headers(Place(es, off)) + rest, |es|, sz)
         == if Named(es) then Some(Place(es, off)) else None
    decreases |es|
  {
    hide HeaderBytes, ReadHeader, ReadHeaders, Sound, HeaderOf, Headers, Place, End, Named;
    if es == [] {
      ReadNothing(off, rest, sz);
    } else {
      assert Sound(es[0].lin) && |es[0].name| < 0x8000_0000 && Writable(es[1..]);
      var h := HeaderOf(es[0], off);
      EndBeyond(es, off);
      KindSmall(es[0], off);
      var tail := Place(es[1..], h.sOff + h.sLen);
      PlaceIs(es, off);
      HeadersCons(h, tail, rest);
      var behind := Headers(tail) + rest;
      HeaderReadBack(h, behind, sz);
      assert Accepted(h, sz) <==> 1 <= |h.name| <= MAX_NAME;
      HeadersReadBack(es[1..], h.sOff + h.sLen, rest, sz);
      NamedTail(es);
      ReadHeadersStep(HeaderBytes(h) + behind, |es|, sz, 1 <= |h.name| <= MAX_NAME, h, behind);
    }
  }

  lemma NamedTail(es: seq<Entry>)
    requires es != []
    ensures Named(es) <==> 1 <= |es[0].name| <= MAX_NAME && Named(es[1..])
  {
    if 1 <= |es[0].name| <= MAX_NAME && Named(es[1..]) {
      forall i: nat | i < |es| ensures 1 <= |es[i].name| <= MAX_NAME {
        assert i > 0 ==> es[i] == es[1..][i - 1];
      }
    }
  }

  lemma EndBeyond(es: seq<Entry>, off: nat)
    requires es != []
    ensures var h := HeaderOf(es[0], off); h.qOff + h.qLen <= h.sOff && h.sOff + h.sLen <= End(es, off)
    ensures End(es, off) == End(es[1..], HeaderOf(es[0], off).sOff + HeaderOf(es[0], off).sLen)
  {
  }

  lemma KindSmall(e: Entry, off: nat)
    requires Sound(e.lin) && |e.name| < 0x8000_0000
    ensures var h := HeaderOf(e, off);
            h.name == e.name && h.kind <= 3 && h.N < 0x8000_0000 && h.K < 0x8000_0000 && h.group < 0x8000_0000
  {
  }

  lemma PrefixReadBack(fingerprint: nat, n: nat, rest: seq<Byte>)
    requires fingerprint < WRAP64 && n < 0x1_0000_0000
    ensures var b := Prefix(fingerprint, n) + rest;
            b[..8] == MAGIC && Le(b[8..16]) == fingerprint && Le(b[16..20]) == n && b[PREFIX..] == rest
  {
    hide Bytes, Le, Fits;
    var b := Prefix(fingerprint, n) + rest;
    Fits8(fingerprint);
    Fits4(n);
    LeBytes(fingerprint, 8);
    LeBytes(n, 4);
    assert b[8..16] == Bytes(fingerprint, 8);
    assert b[16..20] == Bytes(n, 4);
  }

  lemma {:induction false} HeadersSize(es: seq<Entry>, off: nat)
    ensures |Headers(Place(es, off))| == HeadersLength(es)
    decreases |es|
  {
    hide Sum, Write, HeaderOf;
    if es != [] {
      hide HeaderOf, Write, Sum;
      WidthSum();
      var h := HeaderOf(es[0], off);
      assert Place(es, off)[1..] == Place(es[1..], h.sOff + h.sLen);
      HeadersSize(es[1..], h.sOff + h.sLen);
      assert h.name == es[0].name by { NameKept(es[0], off); }
    }
  }

  lemma NameKept(e: Entry, off: nat)
    ensures HeaderOf(e, off).name == e.name
  {
  }

  /** A written file is accepted by the reader exactly when every name has 1 to 512 bytes, and then
      its table is the one written. */
  lemma {:induction false} FileReadBack(es: seq<Entry>, fingerprint: nat)
    requires Writable(es) && 1 <= |es| <= MAX_ENTRIES && fingerprint < WRAP64 && End(es, Start(es)) < WRAP64
    ensures ReadFile(File(es, fingerprint), fingerprint)
         == if Named(es) then Some(Place(es, Start(es))) else None
  {
    hide Prefix, Headers, Payload, Place, Le, ReadHeaders, Named, Writable;
    var body := Headers(Place(es, Start(es))) + Payload(es, Start(es));
    assert File(es, fingerprint) == Prefix(fingerprint, |es|) + body;
    PrefixReadBack(fingerprint, |es|, body);
    HeadersSize(es, Start(es));
    HeadersReadBack(es, Start(es), Payload(es, Start(es)), End(es, Start(es)));
  }

  /** Another fingerprint is a miss. */
  lemma {:induction false} StaleIsMiss(es: seq<Entry>, written: nat, now: nat)
    requires written < WRAP64 && |es| < 0x1_0000_0000 && written != now
    ensures ReadFile(File(es, written), now) == None
  {
    hide Headers, Payload, Place, Le, Prefix;
    var body := Headers(Place(es, Start(es))) + Payload(es, Start(es));
    assert File(es, written) == Prefix(written, |es|) + body;
    PrefixReadBack(written, |es|, body);
  }

  // ---- payloads ---------------------------------------------------------------------------------------

  /** One entry's part of the payload region. */
  function Front(e: Entry, pos: nat): (f: seq<Byte>)
    ensures |f| == HeaderOf(e, pos).sOff + HeaderOf(e, pos).sLen - pos
  {
    var h := HeaderOf(e, pos);
    Zeros(h.qOff - pos) + e.lin.q + Zeros(h.sOff - (h.qOff + h.qLen)) + e.lin.scale
  }

  lemma PayloadIs(es: seq<Entry>, pos: nat)
    requires es != []
    ensures var h := HeaderOf(es[0], pos);
            Payload(es, pos) == Front(es[0], pos) + Payload(es[1..], h.sOff + h.sLen)
            && h.qLen == |es[0].lin.q| && h.sLen == |es[0].lin.scale|
  {
  }

  /** In bytes b that begin at file position pos, the entry's payloads stand at the header's offsets. */
  predicate Stands(h: Header, e: Entry, b: seq<Byte>, pos: nat) {
    && pos <= h.qOff && h.qOff + h.qLen <= h.sOff && h.sOff + h.sLen - pos <= |b|
    && h.qLen == |e.lin.q| && h.sLen == |e.lin.scale|
    && b[h.qOff - pos..h.qOff + h.qLen - pos] == e.lin.q
    && b[h.sOff - pos..h.sOff + h.sLen - pos] == e.lin.scale
  }

  lemma InFront(e: Entry, pos: nat, rest: seq<Byte>)
    ensures Stands(HeaderOf(e, pos), e, Front(e, pos) + rest, pos)
  {
    hide AlignUp;
  }

  lemma Behind(front: seq<Byte>, rest: seq<Byte>, pos: nat, next: nat, h: Header, e: Entry)
    requires next == pos + |front| && Stands(h, e, rest, next)
    ensures Stands(h, e, front + rest, pos)
  {
    var b := front + rest;
    assert b[h.qOff - pos..h.qOff + h.qLen - pos] == rest[h.qOff - next..h.qOff + h.qLen - next];
    assert b[h.sOff - pos..h.sOff + h.sLen - pos] == rest[h.sOff - next..h.sOff + h.sLen - next];
  }

  /** From position pos on, entry i's bytes stand at its offsets. */
  lemma {:induction false} PayloadAt(es: seq<Entry>, pos: nat, i: nat)
    requires i < |es|
    ensures Stands(Place(es, pos)[i], es[i], Payload(es, pos), pos)
    decreases |es|
  {
    hide HeaderOf, Payload, Place, Front, Stands;
    var h := HeaderOf(es[0], pos);
    var next := h.sOff + h.sLen;
    PayloadIs(es, pos);
    PlaceIs(es, pos);
    if i > 0 {
      PayloadAt(es[1..], next, i - 1);
      Behind(Front(es[0], pos), Payload(es[1..], next), pos, next, Place(es, pos)[i], es[i]);
    } else {
      InFront(es[0], pos, Payload(es[1..], next));
    }
  }

  /** In the file, each payload stands at its 256-aligned offset, behind the headers. */
  lemma FilePayload(es: seq<Entry>, fingerprint: nat, i: nat)
    requires i < |es|
    ensures var h, b := Place(es, Start(es))[i], File(es, fingerprint);
            && Start(es) <= h.qOff && h.qOff + h.qLen <= h.sOff && h.sOff + h.sLen <= |b|
            && b[h.qOff..h.qOff + h.qLen] == es[i].lin.q && b[h.sOff..h.sOff + h.sLen] == es[i].lin.scale
  {
    hide Prefix, Headers, Payload, Place;
    HeadersSize(es, Start(es));
    PayloadAt(es, Start(es), i);
    var front := Prefix(fingerprint, |es|) + Headers(Place(es, Start(es)));
  }

  /** Payloads are aligned, in order and pairwise apart, for any entries. */
  lemma {:induction false} PayloadsApart(es: seq<Entry>, off: nat, i: nat, j: nat)
    requires i < j < |es|
    ensures var hs := Place(es, off);
            && hs[i].qOff % ALIGN == 0 && hs[i].sOff % ALIGN == 0 && off <= hs[i].qOff
            && hs[i].qOff + hs[i].qLen <= hs[i].sOff && hs[i].sOff + hs[i].sLen <= hs[j].qOff
    decreases |es|
  {
    hide HeaderOf, AlignUp, Payload;
    PlaceIs(es, off);
    var h := HeaderOf(es[0], off);
    if i > 0 {
      PayloadsApart(es[1..], h.sOff + h.sLen, i - 1, j - 1);
    } else {
      PayloadAt(es[1..], h.sOff + h.sLen, j - 1);
    }
  }

  // ---- the reader's cursor -------------------------------------------------------------------------------

  /** The fields of a header, one copy after the other. */
  method CopyFields(buf: seq<Byte>, off: nat, ws: seq<nat>) returns (vals: seq<nat>)
    requires off + Sum(ws) <= |buf|
    ensures vals == Read(buf[off..], ws)
  {
    hide Le;
    vals := [];
    var p := off;
    for i := 0 to |ws|
      invariant off <= p && p + Sum(ws[i..]) <= |buf|
      invariant vals + Read(buf[p..], ws[i..]) == Read(buf[off..], ws)
    {
      assert ws[i..][1..] == ws[i + 1..] && ws[i..][0] == ws[i];
      FieldAt(buf, p, ws[i]);
      vals := vals + [Le(buf[p..p + ws[i]])];
      p := p + ws[i];
    }
    assert vals + [] == vals;
  }

  lemma FieldAt(buf: seq<Byte>, p: nat, w: nat)
    requires p + w <= |buf|
    ensures buf[p..][..w] == buf[p..p + w] && buf[p..][w..] == buf[p + w..]
  {
  }

  /** One table entry at the cursor. */
  method CopyHeader(buf: seq<Byte>, off: nat) returns (ok: bool, h: Header, next: nat)
    requires off <= |buf|
    ensures ok <==> ReadHeader(buf[off..], |buf|).Some?
    ensures ok ==> off < next <= |buf| && ReadHeader(buf[off..], |buf|) == Some((h, buf[next..]))
  {
    hide Read, Sum, Widths;
    WidthSum();
    ok, h, next := false, Header([], 0, 0, 0, 0, 0, 0, 0, 0), off;
    if off + FIXED > |buf| {
      return;
    }
    var v := CopyFields(buf, off, Widths());
    next := off + FIXED;
    FieldAt(buf, off, FIXED);
    var n := v[0];
    if n == 0 || n > MAX_NAME || next + n > |buf| {
      return;
    }
    FieldAt(buf, next, n);
    h := Header(buf[next..next + n], v[1], v[2], v[3], v[4], v[6], v[7], v[8], v[9]);
    next := next + n;
    if (h.qOff + h.qLen) % WRAP64 > |buf| || (h.sOff + h.sLen) % WRAP64 > |buf| {
      return;
    }
    ok := true;
  }

  function Prepend(a: seq<Header>, r: Option<seq<Header>>): Option<seq<Header>> {
    if r.None? then None else Some(a + r.value)
  }

  /** qc_read_header: any inconsistency leaves the cache in write mode. */
  method ReadTable(buf: seq<Byte>, fingerprint: nat) returns (r: Option<seq<Header>>)
    ensures r == ReadFile(buf, fingerprint)
  {
    hide ReadHeader, Le;
    if |buf| < PREFIX || buf[..8] != MAGIC || Le(buf[8..16]) != fingerprint {
      return None;
    }
    var n := Le(buf[16..20]);
    if n == 0 || n > MAX_ENTRIES {
      return None;
    }
    r := CopyTable(buf, n);
  }

  method CopyTable(buf: seq<Byte>, n: nat) returns (r: Option<seq<Header>>)
    requires |buf| >= PREFIX
    ensures r == ReadHeaders(buf[PREFIX..], n, |buf|)
  {
    hide ReadHeader;
    var hs: seq<Header>, off: nat := [], PREFIX;
    PrependNothing(ReadHeaders(buf[PREFIX..], n, |buf|));
    for i := 0 to n
      invariant off <= |buf|
      invariant Prepend(hs, ReadHeaders(buf[off..], n - i, |buf|)) == ReadHeaders(buf[PREFIX..], n, |buf|)
    {
      var ok, h, next := CopyHeader(buf, off);
      ReadHeadersStep(buf[off..], n - i, |buf|, ok, h, if ok then buf[next..] else []);
      if !ok {
        return None;
      }
      PrependOne(hs, h, ReadHeaders(buf[next..], n - i - 1, |buf|));
      hs, off := hs + [h], next;
    }
    r := Some(hs);
    assert hs + [] == hs;
  }

  lemma PrependNothing(r: Option<seq<Header>>)
    ensures Prepend([], r) == r
  {
    if r.Some? {
      assert [] + r.value == r.value;
    }
  }

  lemma PrependOne(a: seq<Header>, h: Header, t: Option<seq<Header>>)
    ensures Prepend(a, if t.Some? then Some([h] + t.value) else None) == Prepend(a + [h], t)
  {
    if t.Some? {
      assert a + ([h] + t.value) == a + [h] + t.value;
    }
  }
}
