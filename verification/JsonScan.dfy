/** The scanners of the JSON parser, loops over the input buffer: numbers with their 64-bit
    accumulation, and the two passes over a string literal. */
module JsonScan {
  import opened Basics
  import opened JsonGrammar
  import opened JsonParse
  import opened JsonSound

  const UINT64_MAX: nat := 0xFFFF_FFFF_FFFF_FFFF

  // ---- numbers ---------------------------------------------------------------------------

  method ScanDigits(buf: seq<Byte>, q: nat) returns (r: nat)
    requires q <= |buf|
    ensures r == q + DigitRun(buf[q..])
  {
    r := q;
    while r < |buf| && IsDigit(buf[r])
      invariant q <= r <= |buf| && q + DigitRun(buf[q..]) == r + DigitRun(buf[r..])
    {
      assert buf[r..][1..] == buf[r + 1..];
      r := r + 1;
    }
  }

  /** The 64-bit accumulation never wraps: it is the exact value, or the value needs more bits. */
  ghost predicate Accumulated(ds: seq<Byte>, mag: nat, overflow: bool) {
    AllDigits(ds) && mag <= UINT64_MAX && (if overflow then Digits(ds) > UINT64_MAX else mag == Digits(ds))
  }

  method ScanInteger(buf: seq<Byte>, q: nat) returns (r: nat, mag: nat, overflow: bool)
    requires q <= |buf|
    ensures r == q + DigitRun(buf[q..]) <= |buf| && Accumulated(buf[q..r], mag, overflow)
  {
    hide DigitRun;
    r, mag, overflow := q, 0, false;
    assert Accumulated(buf[q..r], mag, overflow);
    hide Accumulated;
    while r < |buf| && IsDigit(buf[r])
      invariant q <= r <= |buf| && q + DigitRun(buf[q..]) == r + DigitRun(buf[r..])
      invariant Accumulated(buf[q..r], mag, overflow)
    {
      assert buf[q..r + 1] == buf[q..r] + [buf[r]];
      var d: nat := buf[r] - 48;
      if mag > (UINT64_MAX - d) / 10 {
        overflow := true;
      } else {
        mag := mag * 10 + d;
      }
      r := r + 1;
    }
  }

  method ScanFraction(buf: seq<Byte>, q: nat) returns (ok: bool, r: nat, present: bool)
    requires q <= |buf|
    ensures ok <==> FracLit(buf[q..]).Some?
    ensures ok ==> q <= r <= |buf| && buf[r..] == FracLit(buf[q..]).value.1
    ensures ok ==> present == FracLit(buf[q..]).value.0.Some?
  {
    if q < |buf| && buf[q] == DOT {
      assert buf[q..][1..] == buf[q + 1..];
      r := ScanDigits(buf, q + 1);
      assert buf[q + 1..][r - (q + 1)..] == buf[r..];
      return r > q + 1, r, true;
    }
    return true, q, false;
  }

  method ScanExponent(buf: seq<Byte>, q: nat) returns (ok: bool, r: nat, present: bool)
    requires q <= |buf|
    ensures ok <==> ExpLit(buf[q..]).Some?
    ensures ok ==> q <= r <= |buf| && buf[r..] == ExpLit(buf[q..]).value.1 && present == ExpLit(buf[q..]).value.0.Some?
  {
    hide DigitRun;
    if q < |buf| && (buf[q] == 101 || buf[q] == 69) {
      assert buf[q..][1..] == buf[q + 1..];
      var s := q + 1;
      if s < |buf| && (buf[s] == 43 || buf[s] == MINUS) {
        s := s + 1;
        assert buf[q..][2..] == buf[s..];
      }
      r := ScanDigits(buf, s);
      assert buf[s..][r - s..] == buf[r..];
      return r > s, r, true;
    }
    return true, q, false;
  }

  /** From the integer part on. */
  method ScanUnsigned(buf: seq<Byte>, s: nat, neg: bool)
    returns (ok: bool, r: nat, isInt: bool, mag: nat, overflow: bool)
    requires s <= |buf|
    ensures ok <==> Unsigned(neg, buf[s..]).Some?
    ensures ok ==>
      && s <= r <= |buf| && buf[r..] == Unsigned(neg, buf[s..]).value.1
      && var n := Unsigned(neg, buf[s..]).value.0;
      && isInt == (n.frac.None? && n.exp.None?) && Accumulated(n.ip, mag, overflow)
  {
    hide FracLit, ExpLit, DigitRun, Accumulated;
    r, mag, overflow := ScanInteger(buf, s);
    ok, isInt := false, false;
    assert buf[s..][..r - s] == buf[s..r] && buf[s..][r - s..] == buf[r..];
    if r == s || (buf[s] == ZERO && r > s + 1) {
      return;
    }
    var fok, f, hasFrac := ScanFraction(buf, r);
    if !fok {
      return;
    }
    var xok, x, hasExp := ScanExponent(buf, f);
    if !xok {
      return;
    }
    return true, x, !hasFrac && !hasExp, mag, overflow;
  }

  /** parse_number: an exact int64, or the token handed to the floating-point conversion. */
  method ParseNumber(buf: seq<Byte>, p: nat) returns (ok: bool, v: Tree, q: nat)
    requires p < |buf|
    ensures ok <==> NumberLit(buf[p..]).Some?
    ensures ok ==> p <= q <= |buf| && buf[q..] == NumberLit(buf[p..]).value.1
                   && AllDigits(NumberLit(buf[p..]).value.0.ip) && v == NumberTree(NumberLit(buf[p..]).value.0)
  {
    hide Unsigned, DigitRun, NumberText;
    var neg := buf[p] == MINUS;
    var s := if neg then p + 1 else p;
    assert neg ==> buf[p..][1..] == buf[s..];
    var isInt, mag, overflow;
    ok, q, isInt, mag, overflow := ScanUnsigned(buf, s, neg);
    v := TNull;
    if !ok {
      return;
    }
    NumberSound(buf[p..]);
    ghost var n := NumberLit(buf[p..]).value.0;
    assert buf[p..][..|buf[p..]| - |buf[q..]|] == buf[p..q];
    NegIs(buf[p..]);
    if isInt && !overflow && (if neg then mag <= 0x8000_0000_0000_0000 else mag <= 0x7FFF_FFFF_FFFF_FFFF) {
      v := TInt(if neg && mag == 0x8000_0000_0000_0000 then INT64_MIN else if neg then -(mag as int) else mag);
    } else {
      v := TNum(buf[p..q]);
    }
  }

  lemma NegIs(b: seq<Byte>)
    requires NumberLit(b).Some?
    ensures NumberLit(b).value.0.neg == (b[0] == MINUS)
  {
    hide DigitRun, FracLit, ExpLit;
  }

  // ---- strings -------------------------------------------------------------------------------

  /** One step of the first pass. */
  lemma QuoteStep(buf: seq<Byte>, q: nat)
    requires q <= |buf|
    ensures q == |buf| ==> CloseQuote(buf[q..]).None?
    ensures q < |buf| && buf[q] == QUOTE ==> CloseQuote(buf[q..]) == Some(0)
    ensures q < |buf| && buf[q] == BACKSLASH && q + 2 > |buf| ==> CloseQuote(buf[q..]).None?
    ensures q + 2 <= |buf| && buf[q] == BACKSLASH ==> CloseQuote(buf[q..]) == After(2, CloseQuote(buf[q + 2..]))
    ensures q < |buf| && buf[q] != QUOTE && buf[q] != BACKSLASH && buf[q] < 32 ==> CloseQuote(buf[q..]).None?
    ensures q < |buf| && buf[q] != QUOTE && buf[q] != BACKSLASH && buf[q] >= 32 ==>
      CloseQuote(buf[q..]) == After(1, CloseQuote(buf[q + 1..]))
  {
    if q < |buf| {
      assert buf[q..][1..] == buf[q + 1..];
      if q + 2 <= |buf| {
        assert buf[q..][2..] == buf[q + 2..];
      }
    }
  }

  /** First pass: the closing quote, and whether an escape was seen. */
  method FindQuote(buf: seq<Byte>, start: nat) returns (ok: bool, q: nat, esc: bool)
    requires start <= |buf|
    ensures ok <==> CloseQuote(buf[start..]).Some?
    ensures ok ==> start <= q < |buf| && CloseQuote(buf[start..]) == Some(q - start)
    ensures ok && !esc ==> forall i: nat :: start <= i < q ==> buf[i] != BACKSLASH
  {
    hide CloseQuote;
    q, esc := start, false;
    assert After(0, CloseQuote(buf[start..])) == CloseQuote(buf[start..]);
    while true
      invariant start <= q <= |buf|
      invariant CloseQuote(buf[start..]) == After(q - start, CloseQuote(buf[q..]))
      invariant !esc ==> forall i: nat :: start <= i < q ==> buf[i] != BACKSLASH
      decreases |buf| - q
    {
      QuoteStep(buf, q);
      if q >= |buf| {
        return false, q, esc;
      }
      if buf[q] == QUOTE {
        return true, q, esc;
      }
      if buf[q] == BACKSLASH {
        if q + 2 > |buf| {
          return false, q, esc;
        }
        q, esc := q + 2, true;
      } else if buf[q] < 32 {
        return false, q, esc;
      } else {
        q := q + 1;
      }
    }
  }

  /** hex4: four digits, shifted in one by one. */
  method ReadHex4(buf: seq<Byte>, s: nat) returns (r: Option<nat>)
    requires s + 4 <= |buf|
    ensures r == Hex4(buf[s..s + 4])
  {
    var v: nat := 0;
    ghost var h := buf[s..s + 4];
    var i := 0;
    while i < 4
      invariant 0 <= i <= 4
      invariant forall j: nat :: j < i ==> HexDigit(h[j]).Some?
      invariant i == 0 ==> v == 0
      invariant i == 1 ==> v == HexDigit(h[0]).value
      invariant i == 2 ==> v == 16 * HexDigit(h[0]).value + HexDigit(h[1]).value
      invariant i == 3 ==> v == 256 * HexDigit(h[0]).value + 16 * HexDigit(h[1]).value + HexDigit(h[2]).value
      invariant i == 4 ==> Hex4(h) == Some(v)
    {
      var d := HexDigit(buf[s + i]);
      assert h[i] == buf[s + i];
      if d.None? {
        return None;
      }
      v := 16 * v + d.value;
      i := i + 1;
    }
    r := Some(v);
  }

  /** utf8_put. */
  method Utf8Put(dst: array<Byte>, w: nat, cp: nat) returns (w': nat)
    requires cp < 0x110000 && w + |Utf8(cp)| <= dst.Length
    modifies dst
    ensures w' == w + |Utf8(cp)| && dst[..w'] == old(dst[..w]) + Utf8(cp)
  {
    if cp < 0x80 {
      dst[w] := cp;
      w' := w + 1;
    } else if cp < 0x800 {
      dst[w], dst[w + 1] := 0xC0 + cp / 64, 0x80 + cp % 64;
      w' := w + 2;
    } else if cp < 0x10000 {
      dst[w], dst[w + 1], dst[w + 2] := 0xE0 + cp / 4096, 0x80 + cp / 64 % 64, 0x80 + cp % 64;
      w' := w + 3;
    } else {
      dst[w], dst[w + 1] := 0xF0 + cp / 262144, 0x80 + cp / 4096 % 64;
      dst[w + 2], dst[w + 3] := 0x80 + cp / 64 % 64, 0x80 + cp % 64;
      w' := w + 4;
    }
    assert dst[..w'] == old(dst[..w]) + Utf8(cp);
  }

  lemma SliceSlice(b: seq<Byte>, s: nat, q: nat, i: nat, j: nat)
    requires s <= q <= |b| && i <= j <= q - s
    ensures b[s..q][i..j] == b[s + i..s + j]
  {
    forall k | 0 <= k < j - i ensures b[s..q][i..j][k] == b[s + i..s + j][k] {
      assert b[s..q][i + k] == b[s + i + k];
    }
  }

  /** The code point after \u: one escape, or a surrogate pair of two. */
  method ReadCodePoint(buf: seq<Byte>, s: nat, q: nat) returns (r: Option<(nat, nat)>)
    requires s <= q <= |buf|
    ensures r == CodePoint(buf[s..q])
  {
    hide Hex4;
    ghost var h := buf[s..q];
    if q - s < 4 {
      return None;
    }
    assert h[..4] == buf[s..s + 4];
    var hi := ReadHex4(buf, s);
    if hi.None? {
      return None;
    }
    var cp := hi.value;
    if 0xD800 <= cp <= 0xDBFF {
      if q - s < 10 || buf[s + 4] != BACKSLASH || buf[s + 5] != LOWER_U {
        return None;
      }
      assert h[4] == buf[s + 4] && h[5] == buf[s + 5];
      SliceSlice(buf, s, q, 6, 10);
      var lo := ReadHex4(buf, s + 6);
      if lo.None? || lo.value < 0xDC00 || lo.value > 0xDFFF {
        return None;
      }
      return Some((0x10000 + (cp - 0xD800) * 1024 + (lo.value - 0xDC00), 10));
    }
    if 0xDC00 <= cp <= 0xDFFF {
      return None;
    }
    return Some((cp, 4));
  }

  /** Between two characters of the second pass: the closing quote is where the first pass found
      it, and what is written so far is the decoding of what was read. */
  ghost predicate Midway(buf: seq<Byte>, start: nat, q: nat, s: nat, done: seq<Byte>) {
    && start <= s <= q < |buf| && |done| <= s - start
    && CloseQuote(buf[s..]) == Some(q - s)
    && Unescape(buf[start..q]) == Glue(done, Unescape(buf[s..q]))
  }

  lemma MidwayRaw(buf: seq<Byte>, start: nat, q: nat, s: nat, done: seq<Byte>)
    requires Midway(buf, start, q, s, done) && s < q && buf[s] != BACKSLASH
    ensures Midway(buf, start, q, s + 1, done + [buf[s]])
  {
    assert buf[s..][1..] == buf[s + 1..];
    assert buf[s..q][1..] == buf[s + 1..q];
    GlueGlue(done, [buf[s]], Unescape(buf[s + 1..q]));
  }

  lemma GlueNone(a: seq<Byte>)
    ensures Glue(a, None) == None
  {
  }

  lemma GlueGlue(a: seq<Byte>, b: seq<Byte>, r: Option<seq<Byte>>)
    ensures Glue(a, Glue(b, r)) == Glue(a + b, r)
  {
    if r.Some? {
      assert a + (b + r.value) == a + b + r.value;
    }
  }

  /** A backslash is never the last byte inside. */
  lemma MidwayEscape(buf: seq<Byte>, start: nat, q: nat, s: nat, done: seq<Byte>)
    requires Midway(buf, start, q, s, done) && s < q && buf[s] == BACKSLASH
    ensures s + 2 <= q && CloseQuote(buf[s + 2..]) == Some(q - (s + 2))
    ensures buf[s..q][2..] == buf[s + 2..q]
  {
    hide Unescape;
    assert buf[s..][2..] == buf[s + 2..];
  }

  lemma MidwaySimple(buf: seq<Byte>, start: nat, q: nat, s: nat, done: seq<Byte>)
    requires Midway(buf, start, q, s, done) && s + 1 < q && buf[s] == BACKSLASH && buf[s + 1] != LOWER_U
    ensures Simple(buf[s + 1]).None? ==> Unescape(buf[start..q]).None?
    ensures Simple(buf[s + 1]).Some? ==> Midway(buf, start, q, s + 2, done + [Simple(buf[s + 1]).value])
  {
    MidwayEscape(buf, start, q, s, done);
    hide CloseQuote, CodePoint, Simple;
    if Simple(buf[s + 1]).Some? {
      GlueGlue(done, [Simple(buf[s + 1]).value], Unescape(buf[s + 2..q]));
    }
  }

  lemma CodePointHex(h: seq<Byte>)
    requires CodePoint(h).Some?
    ensures forall i: nat :: i < 4 ==> HexDigit(h[i]).Some?
    ensures CodePoint(h).value.1 == 10 ==> h[4] == BACKSLASH && forall i: nat :: 6 <= i < 10 ==> HexDigit(h[i]).Some?
  {
    assert forall i: nat :: i < 4 ==> h[i] == h[..4][i];
    assert CodePoint(h).value.1 == 10 ==> forall i: nat :: 6 <= i < 10 ==> h[i] == h[6..10][i - 6];
  }

  /** The quote stays where it is past a \u escape. */
  lemma QuotePastUnicode(buf: seq<Byte>, s: nat, q: nat, k: nat)
    requires s <= q < |buf| && CloseQuote(buf[s..]) == Some(q - s)
    requires CodePoint(buf[s..q]).Some? && k == CodePoint(buf[s..q]).value.1
    ensures CloseQuote(buf[s + k..]) == Some(q - (s + k))
  {
    hide CodePoint, CloseQuote, HexDigit;
    CodePointHex(buf[s..q]);
    assert forall i: nat :: i < q - s ==> buf[s..q][i] == buf[s + i];
    assert forall i: nat :: s <= i < s + 4 ==> buf[i] == buf[s..q][i - s];
    QuotePastHex(buf, s, q);
    if k == 10 {
      QuoteStep(buf, s + 4);
      assert forall i: nat :: s + 6 <= i < s + 10 ==> buf[i] == buf[s..q][i - s];
      QuotePastHex(buf, s + 6, q);
    }
  }

  lemma QuotePastHex(buf: seq<Byte>, s: nat, q: nat)
    requires s + 4 <= q < |buf| && CloseQuote(buf[s..]) == Some(q - s)
    requires forall i: nat :: s <= i < s + 4 ==> HexDigit(buf[i]).Some?
    ensures CloseQuote(buf[s + 4..]) == Some(q - (s + 4))
  {
    hide CloseQuote;
    assert buf[s..][4..] == buf[s + 4..];
    CloseQuoteSkip(buf[s..], 4);
  }

  lemma MidwayUnicode(buf: seq<Byte>, start: nat, q: nat, s: nat, done: seq<Byte>)
    requires Midway(buf, start, q, s, done) && s + 1 < q && buf[s] == BACKSLASH && buf[s + 1] == LOWER_U
    ensures CodePoint(buf[s + 2..q]).None? ==> Unescape(buf[start..q]).None?
    ensures CodePoint(buf[s + 2..q]).Some? ==>
      var (cp, k) := CodePoint(buf[s + 2..q]).value;
      Midway(buf, start, q, s + 2 + k, done + Utf8(cp))
  {
    hide CloseQuote, CodePoint, Utf8, Unescape, Glue;
    MidwayEscape(buf, start, q, s, done);
    UnescapeAtU(buf, s, q);
    GlueNone(done);
    if CodePoint(buf[s + 2..q]).Some? {
      var (cp, k) := CodePoint(buf[s + 2..q]).value;
      QuotePastUnicode(buf, s + 2, q, k);
      GlueGlue(done, Utf8(cp), Unescape(buf[s + 2 + k..q]));
    }
  }

  lemma UnescapeAtU(buf: seq<Byte>, s: nat, q: nat)
    requires s + 1 < q <= |buf| && buf[s] == BACKSLASH && buf[s + 1] == LOWER_U
    ensures CodePoint(buf[s + 2..q]).None? ==> Unescape(buf[s..q]).None?
    ensures CodePoint(buf[s + 2..q]).Some? ==>
      var (cp, k) := CodePoint(buf[s + 2..q]).value;
      Unescape(buf[s..q]) == Glue(Utf8(cp), Unescape(buf[s + 2 + k..q]))
  {
    hide CodePoint, Utf8;
    var b := buf[s..q];
    assert b[0] == BACKSLASH && b[1] == LOWER_U && b[2..] == buf[s + 2..q];
    if CodePoint(buf[s + 2..q]).Some? {
      var k := CodePoint(buf[s + 2..q]).value.1;
      assert b[2 + k..] == buf[s + 2 + k..q];
    }
  }

  /** Second pass: one character. */
  method DecodeOne(buf: seq<Byte>, start: nat, q: nat, s: nat, dst: array<Byte>, w: nat)
    returns (ok: bool, s': nat, w': nat)
    requires w <= dst.Length && dst.Length == q - start + 1 && Midway(buf, start, q, s, dst[..w]) && s < q
    modifies dst
    ensures !ok ==> Unescape(buf[start..q]).None?
    ensures ok ==> s < s' && w' <= dst.Length && Midway(buf, start, q, s', dst[..w'])
  {
    hide Unescape, CloseQuote, CodePoint, Utf8;
    ok, s', w' := true, s, w;
    if buf[s] != BACKSLASH {
      MidwayRaw(buf, start, q, s, dst[..w]);
      dst[w] := buf[s];
      assert dst[..w + 1] == old(dst[..w]) + [buf[s]];
      return true, s + 1, w + 1;
    }
    MidwayEscape(buf, start, q, s, dst[..w]);
    if buf[s + 1] == LOWER_U {
      MidwayUnicode(buf, start, q, s, dst[..w]);
      var u := ReadCodePoint(buf, s + 2, q);
      if u.None? {
        return false, s, w;
      }
      w' := Utf8Put(dst, w, u.value.0);
      s' := s + 2 + u.value.1;
    } else {
      MidwaySimple(buf, start, q, s, dst[..w]);
      var b := Simple(buf[s + 1]);
      if b.None? {
        return false, s, w;
      }
      dst[w] := b.value;
      assert dst[..w + 1] == old(dst[..w]) + [b.value];
      s', w' := s + 2, w + 1;
    }
  }

  /** Second pass: the output buffer holds the decoded bytes and one more. */
  method DecodeEscapes(buf: seq<Byte>, start: nat, q: nat) returns (r: Option<seq<Byte>>)
    requires start <= q < |buf| && CloseQuote(buf[start..]) == Some(q - start)
    ensures r == Unescape(buf[start..q])
  {
    hide CloseQuote;
    var raw := q - start;
    var dst := new Byte[raw + 1](_ => 0);
    var s: nat, w: nat := start, 0;
    assert dst[..0] == [];
    GlueNothing(Unescape(buf[start..q]));
    while s < q
      invariant w <= dst.Length && Midway(buf, start, q, s, dst[..w])
      decreases q - s
    {
      var ok;
      ok, s, w := DecodeOne(buf, start, q, s, dst, w);
      if !ok {
        return None;
      }
    }
    assert buf[s..q] == [];
    assert dst[..w] + [] == dst[..w];
    r := Some(dst[..w]);
  }

  lemma GlueNothing(r: Option<seq<Byte>>)
    ensures Glue([], r) == r
  {
    if r.Some? {
      assert [] + r.value == r.value;
    }
  }

  lemma {:induction false} NoEscapes(b: seq<Byte>)
    requires forall i: nat :: i < |b| ==> b[i] != BACKSLASH
    ensures Unescape(b) == Some(b)
  {
    if b != [] {
      NoEscapes(b[1..]);
      assert [b[0]] + b[1..] == b;
    }
  }

  /** parse_string, after the opening quote. */
  method ParseString(buf: seq<Byte>, start: nat) returns (ok: bool, s: seq<Byte>, p: nat)
    requires start <= |buf|
    ensures ok <==> StringLit(buf[start..]).Some?
    ensures ok ==> start < p <= |buf| && StringLit(buf[start..]) == Some((s, buf[p..]))
  {
    hide CloseQuote, Unescape;
    var found, q, esc := FindQuote(buf, start);
    ok, s, p := false, [], start;
    if !found || q - start > MAX_STRING {
      return;
    }
    assert buf[start..][..q - start] == buf[start..q];
    assert buf[start..][q - start + 1..] == buf[q + 1..];
    if !esc {
      NoEscapes(buf[start..q]);
      return true, buf[start..q], q + 1;
    }
    var r := DecodeEscapes(buf, start, q);
    if r.Some? {
      return true, r.value, q + 1;
    }
  }
}
