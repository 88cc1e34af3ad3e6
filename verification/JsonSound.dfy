/** The recursive-descent reading accepts exactly the grammar's texts and returns the value each
    denotes. */
module JsonSound {
  import opened Basics
  import opened JsonGrammar
  import opened JsonParse

  // ---- whitespace ------------------------------------------------------------------------

  lemma {:induction false} SkipWsOver(w: seq<Byte>, rest: seq<Byte>)
    requires AllWs(w) && (rest == [] || !IsWs(rest[0]))
    ensures SkipWs(w + rest) == rest
  {
    if w == [] {
      assert w + rest == rest;
    } else {
      assert (w + rest)[1..] == w[1..] + rest;
      SkipWsOver(w[1..], rest);
    }
  }

  /** The whitespace that was skipped. */
  function WsOf(b: seq<Byte>): (w: seq<Byte>)
    ensures b == w + SkipWs(b)
  {
    b[..|b| - |SkipWs(b)|]
  }

  lemma {:induction false} WsOfIsWs(b: seq<Byte>)
    ensures AllWs(WsOf(b))
  {
    if b != [] && IsWs(b[0]) {
      WsOfIsWs(b[1..]);
      assert WsOf(b) == [b[0]] + WsOf(b[1..]);
    }
  }

  // ---- strings: complete -----------------------------------------------------------------

  lemma CloseQuoteEsc(e: Byte, rest: seq<Byte>)
    ensures CloseQuote([BACKSLASH, e] + rest) == After(2, CloseQuote(rest))
  {
    assert ([BACKSLASH, e] + rest)[2..] == rest;
  }

  lemma CloseQuoteUni(h: seq<Byte>, rest: seq<Byte>)
    requires |h| == 4 && Hex4(h).Some?
    ensures CloseQuote([BACKSLASH, LOWER_U] + h + rest) == After(6, CloseQuote(rest))
  {
    assert [BACKSLASH, LOWER_U] + h + rest == [BACKSLASH, LOWER_U] + (h + rest);
    CloseQuoteEsc(LOWER_U, h + rest);
    CloseQuoteHex(h, rest);
  }

  lemma CloseQuoteRaw(b: Byte, rest: seq<Byte>)
    requires b >= 32 && b != QUOTE && b != BACKSLASH
    ensures CloseQuote([b] + rest) == After(1, CloseQuote(rest))
  {
    assert ([b] + rest)[1..] == rest;
  }

  lemma CloseQuotePiece(p: Piece, rest: seq<Byte>)
    requires GoodPiece(p)
    ensures CloseQuote(PieceText(p) + rest) == After(|PieceText(p)|, CloseQuote(rest))
  {
    hide CloseQuote, Hex4;
    match p
    case Raw(b) =>
      CloseQuoteRaw(b, rest);
    case Esc(e) =>
      CloseQuoteEsc(e, rest);
    case Uni(h) =>
      CloseQuoteUni(h, rest);
    case Pair(hi, lo) =>
      var tail := [BACKSLASH, LOWER_U] + lo + rest;
      assert PieceText(p) + rest == [BACKSLASH, LOWER_U] + hi + tail;
      CloseQuoteUni(hi, tail);
      CloseQuoteUni(lo, rest);
  }

  lemma {:induction false} CloseQuoteHex(h: seq<Byte>, rest: seq<Byte>)
    requires forall i: nat :: i < |h| ==> HexDigit(h[i]).Some?
    ensures CloseQuote(h + rest) == After(|h|, CloseQuote(rest))
  {
    if h == [] {
      assert h + rest == rest;
    } else {
      assert (h + rest)[1..] == h[1..] + rest;
      CloseQuoteHex(h[1..], rest);
    }
  }

  lemma QuoteAssoc(a: seq<Byte>, b: seq<Byte>, rest: seq<Byte>)
    ensures a + b + [QUOTE] + rest == a + (b + [QUOTE] + rest)
  {
  }

  lemma {:induction false} CloseQuoteText(ps: seq<Piece>, rest: seq<Byte>)
    requires GoodPieces(ps)
    ensures CloseQuote(Text(ps) + [QUOTE] + rest) == Some(|Text(ps)|)
  {
    if ps == [] {
      assert Text(ps) + [QUOTE] + rest == [QUOTE] + rest;
    } else {
      assert Text(ps) == PieceText(ps[0]) + Text(ps[1..]);
      hide PieceText, CloseQuote, GoodPiece, Text;
      CloseQuoteText(ps[1..], rest);
      QuoteAssoc(PieceText(ps[0]), Text(ps[1..]), rest);
      CloseQuotePiece(ps[0], Text(ps[1..]) + [QUOTE] + rest);
    }
  }

  lemma CodePointUni(h: seq<Byte>, rest: seq<Byte>)
    requires GoodPiece(Uni(h))
    ensures CodePoint(h + rest) == Some((Hex4(h).value, 4))
  {
    hide Hex4;
    assert (h + rest)[..4] == h;
  }

  lemma CodePointPair(hi: seq<Byte>, lo: seq<Byte>, rest: seq<Byte>)
    requires GoodPiece(Pair(hi, lo))
    ensures CodePoint(hi + [BACKSLASH, LOWER_U] + lo + rest) == Some((PairValue(Hex4(hi).value, Hex4(lo).value), 10))
  {
    hide Hex4;
    var c := hi + [BACKSLASH, LOWER_U] + lo + rest;
    assert c[..4] == hi && c[6..10] == lo && c[4] == BACKSLASH && c[5] == LOWER_U;
  }

  lemma UnescapeUnicode(h: seq<Byte>, rest: seq<Byte>, cp: nat)
    requires CodePoint(h + rest) == Some((cp, |h|))
    ensures cp < 0x110000 && Unescape([BACKSLASH, LOWER_U] + h + rest) == Glue(Utf8(cp), Unescape(rest))
  {
    hide CodePoint, Utf8;
    var b := [BACKSLASH, LOWER_U] + h + rest;
    assert b[2..] == h + rest && b[2 + |h|..] == rest;
  }

  lemma UnescapeRaw(x: Byte, rest: seq<Byte>)
    requires x != BACKSLASH
    ensures Unescape([x] + rest) == Glue([x], Unescape(rest))
  {
    assert ([x] + rest)[1..] == rest;
  }

  lemma UnescapeEsc(e: Byte, rest: seq<Byte>)
    requires Simple(e).Some?
    ensures Unescape([BACKSLASH, e] + rest) == Glue([Simple(e).value], Unescape(rest))
  {
    assert e != LOWER_U;
    hide Simple, CodePoint, Utf8;
    assert ([BACKSLASH, e] + rest)[2..] == rest;
  }

  lemma UnescapePiece(p: Piece, rest: seq<Byte>)
    requires GoodPiece(p)
    ensures Unescape(PieceText(p) + rest) == Glue(PieceBytes(p), Unescape(rest))
  {
    hide Hex4, CodePoint, Utf8, PairValue, Unescape;
    match p
    case Raw(x) =>
      UnescapeRaw(x, rest);
    case Esc(e) =>
      UnescapeEsc(e, rest);
    case Uni(h) =>
      CodePointUni(h, rest);
      UnescapeUnicode(h, rest, Hex4(h).value);
    case Pair(hi, lo) =>
      var h := hi + [BACKSLASH, LOWER_U] + lo;
      assert PieceText(p) == [BACKSLASH, LOWER_U] + h;
      CodePointPair(hi, lo, rest);
      UnescapeUnicode(h, rest, PairValue(Hex4(hi).value, Hex4(lo).value));
  }

  lemma {:induction false} UnescapeText(ps: seq<Piece>)
    requires GoodPieces(ps)
    ensures Unescape(Text(ps)) == Some(StrBytes(ps))
  {
    if ps != [] {
      UnescapeText(ps[1..]);
      UnescapePiece(ps[0], Text(ps[1..]));
    }
  }

  lemma StringComplete(ps: seq<Piece>, rest: seq<Byte>)
    requires GoodString(ps)
    ensures StringLit(Text(ps) + [QUOTE] + rest) == Some((StrBytes(ps), rest))
  {
    var b := Text(ps) + [QUOTE] + rest;
    CloseQuoteText(ps, rest);
    UnescapeText(ps);
    assert b[..|Text(ps)|] == Text(ps);
    assert b[|Text(ps)| + 1..] == rest;
  }

  // ---- strings: sound --------------------------------------------------------------------

  /** The hexadecimal digits of an escape are passed over one by one. */
  lemma {:induction false} CloseQuoteSkip(b: seq<Byte>, k: nat)
    requires k <= |b| && forall i: nat :: i < k ==> HexDigit(b[i]).Some?
    ensures CloseQuote(b) == After(k, CloseQuote(b[k..]))
  {
    assert b == b[..k] + b[k..];
    CloseQuoteHex(b[..k], b[k..]);
  }

  /** A literal's inside that decodes and begins with no control character or quote. */
  ghost predicate Decodable(b: seq<Byte>) {
    b != [] && Unescape(b).Some? && (b[0] != BACKSLASH ==> b[0] >= 32 && b[0] != QUOTE)
  }

  /** The first character of a literal's inside. */
  ghost function FirstPiece(b: seq<Byte>): Piece
    requires Decodable(b)
  {
    if b[0] != BACKSLASH then Raw(b[0])
    else if b[1] != LOWER_U then Esc(b[1])
    else if CodePoint(b[2..]).value.1 == 4 then Uni(b[2..6])
    else Pair(b[2..6], b[8..12])
  }

  lemma FirstUnicode(b: seq<Byte>)
    requires Decodable(b) && b[0] == BACKSLASH && b[1] == LOWER_U
    ensures GoodPiece(FirstPiece(b)) && PieceText(FirstPiece(b)) <= b
  {
    hide Hex4;
    var c := b[2..];
    assert c[..4] == b[2..6] && b[..2] == [BACKSLASH, LOWER_U];
    if CodePoint(c).value.1 == 4 {
      assert b[..6] == [BACKSLASH, LOWER_U] + b[2..6];
    } else {
      assert c[6..10] == b[8..12] && b[6..8] == [BACKSLASH, LOWER_U] by {
        assert b[6] == c[4] && b[7] == c[5];
      }
      assert b[..12] == [BACKSLASH, LOWER_U] + b[2..6] + [BACKSLASH, LOWER_U] + b[8..12];
    }
  }

  lemma FirstPieceOk(b: seq<Byte>)
    requires Decodable(b)
    ensures GoodPiece(FirstPiece(b)) && PieceText(FirstPiece(b)) <= b && |PieceText(FirstPiece(b))| > 0
  {
    if b[0] == BACKSLASH && b[1] == LOWER_U {
      FirstUnicode(b);
    } else if b[0] == BACKSLASH {
      assert b[..2] == [BACKSLASH, b[1]];
    } else {
      assert b[..1] == [b[0]];
    }
  }

  /** Passing the first character moves the closing quote by its length. */
  lemma FirstPieceClose(b: seq<Byte>, q: nat, p: Piece)
    requires CloseQuote(b) == Some(q) && GoodPiece(p) && PieceText(p) <= b[..q]
    ensures CloseQuote(b[|PieceText(p)|..]) == Some(q - |PieceText(p)|)
  {
    hide CloseQuote, PieceText, GoodPiece;
    assert b == PieceText(p) + b[|PieceText(p)|..];
    CloseQuotePiece(p, b[|PieceText(p)|..]);
  }

  lemma PiecesCons(p: Piece, tail: seq<Piece>)
    requires GoodPiece(p) && GoodPieces(tail)
    ensures GoodPieces([p] + tail) && Text([p] + tail) == PieceText(p) + Text(tail)
    ensures StrBytes([p] + tail) == PieceBytes(p) + StrBytes(tail)
  {
    hide GoodPiece, PieceText, PieceBytes;
    assert ([p] + tail)[1..] == tail;
  }

  /** ps is the string that stands before position q. */
  ghost predicate Reads(b: seq<Byte>, q: nat, ps: seq<Piece>) {
    && q <= |b| && Unescape(b[..q]).Some?
    && GoodPieces(ps) && Text(ps) == b[..q] && StrBytes(ps) == Unescape(b[..q]).value
  }

  lemma ReadsCons(b: seq<Byte>, q: nat, p: Piece, tail: seq<Piece>)
    requires GoodPiece(p) && q <= |b| && PieceText(p) <= b[..q]
    requires Reads(b[|PieceText(p)|..], q - |PieceText(p)|, tail)
    ensures Reads(b, q, [p] + tail)
  {
    hide Unescape, PieceText, PieceBytes, GoodPiece, GoodPieces, Text, StrBytes;
    var k := |PieceText(p)|;
    assert b[..q] == PieceText(p) + b[k..][..q - k];
    UnescapePiece(p, b[k..][..q - k]);
    PiecesCons(p, tail);
  }

  lemma UnescapeTail(b: seq<Byte>, q: nat, p: Piece)
    requires GoodPiece(p) && q <= |b| && PieceText(p) <= b[..q] && Unescape(b[..q]).Some?
    ensures Unescape(b[|PieceText(p)|..][..q - |PieceText(p)|]).Some?
  {
    hide Unescape, PieceText, PieceBytes, GoodPiece;
    var k := |PieceText(p)|;
    assert b[..q] == PieceText(p) + b[k..][..q - k];
    UnescapePiece(p, b[k..][..q - k]);
  }

  lemma {:induction false} StringSound(b: seq<Byte>, q: nat) returns (ps: seq<Piece>)
    requires CloseQuote(b) == Some(q) && Unescape(b[..q]).Some?
    ensures Reads(b, q, ps)
    decreases |b|
  {
    if q == 0 {
      ps := [];
      assert b[..q] == [];
    } else {
      FirstPieceOk(b[..q]);
      hide CloseQuote, FirstPiece, Unescape, PieceText, GoodPiece, Reads;
      var p := FirstPiece(b[..q]);
      FirstPieceClose(b, q, p);
      UnescapeTail(b, q, p);
      var tail := StringSound(b[|PieceText(p)|..], q - |PieceText(p)|);
      ReadsCons(b, q, p, tail);
      ps := [p] + tail;
    }
  }

  /** A literal that is read is the text of some string. */
  lemma StringLitSound(b: seq<Byte>) returns (ps: seq<Piece>)
    requires StringLit(b).Some?
    ensures GoodString(ps) && StrBytes(ps) == StringLit(b).value.0
    ensures b == Text(ps) + [QUOTE] + StringLit(b).value.1
  {
    hide CloseQuote, Unescape, Text, StrBytes;
    var q := CloseQuote(b).value;
    ps := StringSound(b, q);
    assert b == b[..q] + [b[q]] + b[q + 1..];
  }

  // ---- numbers -----------------------------------------------------------------------------

  lemma {:induction false} DigitRunOver(ds: seq<Byte>, rest: seq<Byte>)
    requires AllDigits(ds) && (rest == [] || !IsDigit(rest[0]))
    ensures DigitRun(ds + rest) == |ds|
  {
    if ds == [] {
      assert ds + rest == rest;
    } else {
      assert (ds + rest)[1..] == ds[1..] + rest;
      DigitRunOver(ds[1..], rest);
    }
  }

  /** What cannot follow a number without changing it. */
  predicate Stops(rest: seq<Byte>) {
    rest == [] || !(IsDigit(rest[0]) || rest[0] == DOT || rest[0] == 101 || rest[0] == 69)
  }

  lemma FracComplete(f: Option<seq<Byte>>, rest: seq<Byte>)
    requires f.Some? ==> f.value != [] && AllDigits(f.value)
    requires rest == [] || !(IsDigit(rest[0]) || rest[0] == DOT)
    ensures FracLit(FracText(f) + rest) == Some((f, rest))
  {
    if f.Some? {
      assert (FracText(f) + rest)[1..] == f.value + rest;
      DigitRunOver(f.value, rest);
    } else {
      assert FracText(f) + rest == rest;
    }
  }

  lemma ExpDigitsComplete(e: Byte, sign: Option<Byte>, ds: seq<Byte>, rest: seq<Byte>)
    requires ds != [] && AllDigits(ds) && Stops(rest)
    ensures ExpDigits(e, sign, ds + rest) == Some((Some(Exp(e, sign, ds)), rest))
  {
    DigitRunOver(ds, rest);
    assert (ds + rest)[..|ds|] == ds && (ds + rest)[|ds|..] == rest;
  }

  lemma ExpComplete(x: Option<Exp>, rest: seq<Byte>)
    requires GoodNumber(Number(false, [ZERO], None, x)) && Stops(rest)
    ensures ExpLit(ExpText(x) + rest) == Some((x, rest))
  {
    hide DigitRun, ExpDigits;
    if x.None? {
      assert ExpText(x) + rest == rest;
    } else {
      var b, y := ExpText(x) + rest, x.value;
      ExpDigitsComplete(y.e, y.sign, y.ds, rest);
      if y.sign.Some? {
        assert b[1] == y.sign.value && b[2..] == y.ds + rest;
      } else {
        assert b[1..] == y.ds + rest;
        assert IsDigit(b[1]);
      }
    }
  }

  lemma TailComplete(n: Number, rest: seq<Byte>)
    requires GoodNumber(n) && Stops(rest)
    ensures NumberTail(n.neg, n.ip, FracText(n.frac) + (ExpText(n.exp) + rest)) == Some((n, rest))
  {
    hide FracLit, ExpLit;
    ExpComplete(n.exp, rest);
    FracComplete(n.frac, ExpText(n.exp) + rest);
  }

  lemma UnsignedComplete(n: Number, rest: seq<Byte>)
    requires GoodNumber(n) && Stops(rest)
    ensures Unsigned(n.neg, n.ip + (FracText(n.frac) + (ExpText(n.exp) + rest))) == Some((n, rest))
  {
    hide NumberTail, DigitRun;
    var tail := FracText(n.frac) + (ExpText(n.exp) + rest);
    var c := n.ip + tail;
    DigitRunOver(n.ip, tail);
    assert c[..|n.ip|] == n.ip && c[|n.ip|..] == tail;
    TailComplete(n, rest);
  }

  lemma NumberTextSplit(n: Number, rest: seq<Byte>)
    ensures NumberText(n) + rest
         == (if n.neg then [MINUS] else []) + (n.ip + (FracText(n.frac) + (ExpText(n.exp) + rest)))
  {
    hide FracText, ExpText;
  }

  /** A number is read whole when what follows cannot belong to it. */
  lemma NumberComplete(n: Number, rest: seq<Byte>)
    requires GoodNumber(n) && Stops(rest)
    ensures NumberLit(NumberText(n) + rest) == Some((n, rest))
  {
    hide Unsigned, FracText, ExpText;
    UnsignedComplete(n, rest);
    NumberTextSplit(n, rest);
    var c := n.ip + (FracText(n.frac) + (ExpText(n.exp) + rest));
    assert ([MINUS] + c)[1..] == c && [] + c == c;
    assert IsDigit(c[0]);
  }

  lemma FracSound(b: seq<Byte>)
    requires FracLit(b).Some?
    ensures var (f, rest) := FracLit(b).value;
            b == FracText(f) + rest && (f.Some? ==> f.value != [] && AllDigits(f.value))
  {
    if b != [] && b[0] == DOT {
      var k := DigitRun(b[1..]);
      assert b == [DOT] + b[1..][..k] + b[1..][k..];
    } else {
      assert [] + b == b;
    }
  }

  lemma ExpDigitsSound(e: Byte, sign: Option<Byte>, c: seq<Byte>)
    requires ExpDigits(e, sign, c).Some?
    ensures var (x, rest) := ExpDigits(e, sign, c).value;
            x.Some? && x.value.e == e && x.value.sign == sign && x.value.ds != [] && AllDigits(x.value.ds)
            && [e] + (if sign.Some? then [sign.value] else []) + c == ExpText(x) + rest
  {
    var k := DigitRun(c);
    var front := [e] + if sign.Some? then [sign.value] else [];
    assert c == c[..k] + c[k..];
    assert front + c == front + c[..k] + c[k..];
  }

  lemma ExpSound(b: seq<Byte>)
    requires ExpLit(b).Some?
    ensures var (x, rest) := ExpLit(b).value;
            b == ExpText(x) + rest && GoodNumber(Number(false, [ZERO], None, x))
  {
    hide ExpDigits;
    if b == [] || !(b[0] == 101 || b[0] == 69) {
      assert [] + b == b;
    } else if SignOf(b[1..]).Some? {
      hide ExpText;
      ExpDigitsSound(b[0], SignOf(b[1..]), b[2..]);
      assert b == [b[0]] + [b[1]] + b[2..];
    } else {
      hide ExpText;
      ExpDigitsSound(b[0], None, b[1..]);
      assert b == [b[0]] + [] + b[1..];
    }
  }

  lemma TailSound(neg: bool, ip: seq<Byte>, b: seq<Byte>)
    requires NumberTail(neg, ip, b).Some? && ip != [] && AllDigits(ip) && (ip[0] == ZERO ==> |ip| == 1)
    ensures var (n, rest) := NumberTail(neg, ip, b).value;
            GoodNumber(n) && n.neg == neg && n.ip == ip && b == FracText(n.frac) + (ExpText(n.exp) + rest)
  {
    hide FracLit, ExpLit, FracText, ExpText;
    FracSound(b);
    ExpSound(FracLit(b).value.1);
  }

  lemma UnsignedSound(neg: bool, c: seq<Byte>)
    requires Unsigned(neg, c).Some?
    ensures var (n, rest) := Unsigned(neg, c).value;
            GoodNumber(n) && n.neg == neg && c == n.ip + (FracText(n.frac) + (ExpText(n.exp) + rest))
  {
    hide NumberTail, FracText, ExpText;
    var k := DigitRun(c);
    TailSound(neg, c[..k], c[k..]);
    assert c == c[..k] + c[k..];
  }

  lemma NumberSound(b: seq<Byte>)
    requires NumberLit(b).Some?
    ensures var (n, rest) := NumberLit(b).value; GoodNumber(n) && b == NumberText(n) + rest
  {
    hide Unsigned, FracText, ExpText, NumberText;
    if b != [] && b[0] == MINUS {
      UnsignedSound(true, b[1..]);
      NumberTextSplit(Unsigned(true, b[1..]).value.0, Unsigned(true, b[1..]).value.1);
      assert b == [MINUS] + b[1..];
    } else {
      UnsignedSound(false, b);
      NumberTextSplit(Unsigned(false, b).value.0, Unsigned(false, b).value.1);
      assert b == [] + b;
    }
  }
}
