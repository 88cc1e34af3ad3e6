/** JSON texts as in sections 2 to 7 of RFC 8259, over bytes: concrete syntax trees, the text each
    prints as and the value each denotes.  Escaped surrogates must be paired, and the sizes a
    parsed value records are capped, as the parser demands. */
module JsonGrammar {
  import opened Basics

  const QUOTE: Byte := 34
  const BACKSLASH: Byte := 92
  const COMMA: Byte := 44
  const COLON: Byte := 58
  const MINUS: Byte := 45
  const DOT: Byte := 46
  const ZERO: Byte := 48
  const LOWER_U: Byte := 117
  const OPEN_ARR: Byte := 91
  const CLOSE_ARR: Byte := 93
  const OPEN_OBJ: Byte := 123
  const CLOSE_OBJ: Byte := 125
  const BOM: seq<Byte> := [0xEF, 0xBB, 0xBF]
  const TRUE_TEXT: seq<Byte> := [116, 114, 117, 101]
  const FALSE_TEXT: seq<Byte> := [102, 97, 108, 115, 101]
  const NULL_TEXT: seq<Byte> := [110, 117, 108, 108]

  const MAX_DEPTH: nat := 1048576
  const MAX_STRING: nat := 0xFFFFFFFF
  const MAX_ITEMS: nat := 0x7FFFFFFF
  const INT64_MIN: int := -0x8000_0000_0000_0000
  const INT64_MAX: int := 0x7FFF_FFFF_FFFF_FFFF

  /** A parsed value; a number outside int64, or written with a fraction or exponent, keeps its
      token, the argument of the floating-point conversion. */
  datatype Tree =
    | TNull | TFalse | TTrue
    | TInt(i: int)
    | TNum(token: seq<Byte>)
    | TStr(s: seq<Byte>)
    | TArr(a: seq<Tree>)
    | TObj(o: seq<(seq<Byte>, Tree)>)

  predicate IsWs(b: Byte) {
    b == 32 || b == 9 || b == 10 || b == 13
  }

  predicate AllWs(w: seq<Byte>) {
    forall i: nat :: i < |w| ==> IsWs(w[i])
  }

  predicate IsDigit(b: Byte) {
    48 <= b <= 57
  }

  predicate AllDigits(ds: seq<Byte>) {
    forall i: nat :: i < |ds| ==> IsDigit(ds[i])
  }

  // ---- strings -----------------------------------------------------------------------

  function HexDigit(b: Byte): (r: Option<nat>)
    ensures r.Some? ==> r.value < 16
  {
    if 48 <= b <= 57 then Some(b - 48)
    else if 97 <= b <= 102 then Some(b - 87)
    else if 65 <= b <= 70 then Some(b - 55)
    else None
  }

  /** Four hexadecimal digits. */
  function Hex4(h: seq<Byte>): (r: Option<nat>)
    requires |h| == 4
    ensures r.Some? ==> r.value < 0x10000
  {
    var a, b, c, d := HexDigit(h[0]), HexDigit(h[1]), HexDigit(h[2]), HexDigit(h[3]);
    if a.None? || b.None? || c.None? || d.None? then None
    else Some(4096 * a.value + 256 * b.value + 16 * c.value + d.value)
  }

  predicate IsHigh(cp: nat) {
    0xD800 <= cp <= 0xDBFF
  }

  predicate IsLow(cp: nat) {
    0xDC00 <= cp <= 0xDFFF
  }

  /** The code point whose UTF-16 pair this is. */
  function PairValue(hi: nat, lo: nat): (cp: nat)
    requires IsHigh(hi) && IsLow(lo)
    ensures 0x10000 <= cp < 0x110000
    ensures hi == 0xD800 + (cp - 0x10000) / 1024 && lo == 0xDC00 + (cp - 0x10000) % 1024
  {
    0x10000 + (hi - 0xD800) * 1024 + (lo - 0xDC00)
  }

  /** The UTF-8 form of a code point. */
  function Utf8(cp: nat): (u: seq<Byte>)
    requires cp < 0x110000
    ensures 1 <= |u| <= 4 && (cp < 0x10000 ==> |u| <= 3)
  {
    if cp < 0x80 then [cp]
    else if cp < 0x800 then [0xC0 + cp / 64, 0x80 + cp % 64]
    else if cp < 0x10000 then [0xE0 + cp / 4096, 0x80 + cp / 64 % 64, 0x80 + cp % 64]
    else [0xF0 + cp / 262144, 0x80 + cp / 4096 % 64, 0x80 + cp / 64 % 64, 0x80 + cp % 64]
  }

  predicate IsCont(b: Byte) {
    0x80 <= b < 0xC0
  }

  function Low6(b: Byte): nat
    requires IsCont(b)
  {
    b - 0x80
  }

  function Lead(b: Byte, base: nat): nat
    requires base <= b
  {
    b - base
  }

  /** The decoder of section 3 of RFC 3629: shortest forms only, no surrogates, at most 10FFFF;
      the code point and the number of bytes it took. */
  function Utf8Decode(u: seq<Byte>): Option<(nat, nat)> {
    if u == [] then None
    else if u[0] < 0x80 then Some((u[0], 1))
    else if 0xC2 <= u[0] < 0xE0 && |u| >= 2 && IsCont(u[1]) then
      Some((Lead(u[0], 0xC0) * 64 + Low6(u[1]), 2))
    else if 0xE0 <= u[0] < 0xF0 && |u| >= 3 && IsCont(u[1]) && IsCont(u[2]) then
      var cp := Lead(u[0], 0xE0) * 4096 + Low6(u[1]) * 64 + Low6(u[2]);
      if cp < 0x800 || 0xD800 <= cp <= 0xDFFF then None else Some((cp, 3))
    else if 0xF0 <= u[0] < 0xF5 && |u| >= 4 && IsCont(u[1]) && IsCont(u[2]) && IsCont(u[3]) then
      var cp := Lead(u[0], 0xF0) * 262144 + Low6(u[1]) * 4096 + Low6(u[2]) * 64 + Low6(u[3]);
      if cp < 0x10000 || cp > 0x10FFFF then None else Some((cp, 4))
    else None
  }

  lemma ShortBytes(cp: nat, rest: seq<Byte>)
    requires cp < 0x800
    ensures Utf8Decode(Utf8(cp) + rest) == Some((cp, |Utf8(cp)|))
  {
  }

  lemma ThreeBytes(cp: nat, a: nat, b: nat, c: nat, rest: seq<Byte>)
    requires a < 16 && b < 64 && c < 64 && cp == a * 4096 + b * 64 + c >= 0x800
    requires !IsHigh(cp) && !IsLow(cp)
    ensures Utf8Decode([0xE0 + a, 0x80 + b, 0x80 + c] + rest) == Some((cp, 3))
  {
    var u := [0xE0 + a, 0x80 + b, 0x80 + c] + rest;
    assert u[0] == 0xE0 + a && u[1] == 0x80 + b && u[2] == 0x80 + c;
  }

  lemma FourBytes(cp: nat, a: nat, b: nat, c: nat, d: nat, rest: seq<Byte>)
    requires a < 5 && b < 64 && c < 64 && d < 64
    requires 0x10000 <= cp == a * 262144 + b * 4096 + c * 64 + d < 0x110000
    ensures Utf8Decode([0xF0 + a, 0x80 + b, 0x80 + c, 0x80 + d] + rest) == Some((cp, 4))
  {
    var u := [0xF0 + a, 0x80 + b, 0x80 + c, 0x80 + d] + rest;
    assert u[0] == 0xF0 + a && u[1] == 0x80 + b && u[2] == 0x80 + c && u[3] == 0x80 + d;
  }

  lemma Multiples(d: nat, a: nat, b: nat)
    requires a < b
    ensures d * (a + 1) <= d * b
  {
  }

  lemma Quotient(n: nat, d: nat, q: nat, r: nat)
    requires n == d * q + r && r < d
    ensures n / d == q
  {
    var k := n / d;
    if k < q {
      Multiples(d, k, q);
    } else if q < k {
      Multiples(d, q, k);
    }
  }

  /** A code point from its sixty-fours. */
  lemma Digits3(cp: nat)
    ensures cp == cp / 4096 * 4096 + cp / 64 % 64 * 64 + cp % 64
  {
    Quotient(cp, 4096, cp / 64 / 64, cp / 64 % 64 * 64 + cp % 64);
  }

  lemma Digits4(cp: nat)
    ensures cp == cp / 262144 * 262144 + cp / 4096 % 64 * 4096 + cp / 64 % 64 * 64 + cp % 64
  {
    Digits3(cp);
    Quotient(cp, 262144, cp / 4096 / 64, cp / 4096 % 64 * 4096 + cp / 64 % 64 * 64 + cp % 64);
  }

  /** Every scalar value written is read back, whatever follows. */
  lemma Utf8RoundTrip(cp: nat, rest: seq<Byte>)
    requires cp < 0x110000 && !IsHigh(cp) && !IsLow(cp)
    ensures Utf8Decode(Utf8(cp) + rest) == Some((cp, |Utf8(cp)|))
  {
    hide Utf8Decode;
    if 0x10000 <= cp {
      Digits4(cp);
      FourBytes(cp, cp / 262144, cp / 4096 % 64, cp / 64 % 64, cp % 64, rest);
    } else if 0x800 <= cp {
      Digits3(cp);
      ThreeBytes(cp, cp / 4096, cp / 64 % 64, cp % 64, rest);
    } else {
      ShortBytes(cp, rest);
    }
  }

  /** The byte a two-character escape stands for. */
  function Simple(e: Byte): Option<Byte> {
    if e == QUOTE then Some(34)
    else if e == BACKSLASH then Some(92)
    else if e == 47 then Some(47)
    else if e == 98 then Some(8)
    else if e == 102 then Some(12)
    else if e == 110 then Some(10)
    else if e == 114 then Some(13)
    else if e == 116 then Some(9)
    else None
  }

  /** One character of a string literal. */
  datatype Piece = Raw(b: Byte) | Esc(e: Byte) | Uni(h: seq<Byte>) | Pair(hi: seq<Byte>, lo: seq<Byte>)

  predicate GoodPiece(p: Piece) {
    match p
    case Raw(b) => b >= 32 && b != QUOTE && b != BACKSLASH
    case Esc(e) => Simple(e).Some?
    case Uni(h) => |h| == 4 && Hex4(h).Some? && !IsHigh(Hex4(h).value) && !IsLow(Hex4(h).value)
    case Pair(hi, lo) =>
      |hi| == 4 && |lo| == 4 && Hex4(hi).Some? && Hex4(lo).Some? && IsHigh(Hex4(hi).value) && IsLow(Hex4(lo).value)
  }

  function PieceText(p: Piece): seq<Byte> {
    match p
    case Raw(b) => [b]
    case Esc(e) => [BACKSLASH, e]
    case Uni(h) => [BACKSLASH, LOWER_U] + h
    case Pair(hi, lo) => [BACKSLASH, LOWER_U] + hi + [BACKSLASH, LOWER_U] + lo
  }

  function PieceBytes(p: Piece): seq<Byte>
    requires GoodPiece(p)
  {
    match p
    case Raw(b) => [b]
    case Esc(e) => [Simple(e).value]
    case Uni(h) => Utf8(Hex4(h).value)
    case Pair(hi, lo) => Utf8(PairValue(Hex4(hi).value, Hex4(lo).value))
  }

  predicate GoodPieces(ps: seq<Piece>) {
    forall i: nat :: i < |ps| ==> GoodPiece(ps[i])
  }

  function Text(ps: seq<Piece>): seq<Byte> {
    if ps == [] then [] else PieceText(ps[0]) + Text(ps[1..])
  }

  function StrBytes(ps: seq<Piece>): seq<Byte>
    requires GoodPieces(ps)
  {
    if ps == [] then [] else PieceBytes(ps[0]) + StrBytes(ps[1..])
  }

  // ---- numbers --------------------------------------------------------------------------

  datatype Exp = Exp(e: Byte, sign: Option<Byte>, ds: seq<Byte>)

  datatype Number = Number(neg: bool, ip: seq<Byte>, frac: Option<seq<Byte>>, exp: Option<Exp>)

  predicate GoodNumber(n: Number) {
    && n.ip != [] && AllDigits(n.ip) && (n.ip[0] == ZERO ==> |n.ip| == 1)
    && (n.frac.Some? ==> n.frac.value != [] && AllDigits(n.frac.value))
    && (n.exp.Some? ==>
          var x := n.exp.value;
          (x.e == 101 || x.e == 69) && (x.sign.Some? ==> x.sign.value == 43 || x.sign.value == MINUS)
          && x.ds != [] && AllDigits(x.ds))
  }

  function FracText(f: Option<seq<Byte>>): seq<Byte> {
    if f.None? then [] else [DOT] + f.value
  }

  function ExpText(x: Option<Exp>): seq<Byte> {
    if x.None? then [] else [x.value.e] + (if x.value.sign.Some? then [x.value.sign.value] else []) + x.value.ds
  }

  function NumberText(n: Number): seq<Byte> {
    (if n.neg then [MINUS] else []) + n.ip + FracText(n.frac) + ExpText(n.exp)
  }

  /** The value of a digit string. */
  function Digits(ds: seq<Byte>): nat
    requires AllDigits(ds)
  {
    if ds == [] then 0 else 10 * Digits(ds[..|ds| - 1]) + (ds[|ds| - 1] - 48)
  }

  function IntValue(n: Number): int
    requires AllDigits(n.ip)
  {
    var m: int := Digits(n.ip);
    if n.neg then -m else m
  }

  /** An integer token within int64 is that exact integer; anything else keeps its text. */
  function NumberTree(n: Number): Tree
    requires AllDigits(n.ip)
  {
    if n.frac.None? && n.exp.None? && INT64_MIN <= IntValue(n) <= INT64_MAX then TInt(IntValue(n))
    else TNum(NumberText(n))
  }

  // ---- values -------------------------------------------------------------------------------

  datatype Cst =
    | CNull | CTrue | CFalse
    | CNum(n: Number)
    | CStr(ps: seq<Piece>)
    | CEmptyArr(ws: seq<Byte>)
    | CEmptyObj(ws: seq<Byte>)
    | CArr(es: Elems)
    | CObj(ms: Members)

  datatype Elems =
    | LastElem(pre: seq<Byte>, v: Cst, post: seq<Byte>)
    | MoreElems(pre: seq<Byte>, v: Cst, post: seq<Byte>, rest: Elems)

  datatype Members =
    | LastMember(pre: seq<Byte>, key: seq<Piece>, mid: seq<Byte>, wsv: seq<Byte>, v: Cst, post: seq<Byte>)
    | MoreMembers(pre: seq<Byte>, key: seq<Piece>, mid: seq<Byte>, wsv: seq<Byte>, v: Cst, post: seq<Byte>,
      rest: Members)

  function StringText(ps: seq<Piece>): seq<Byte> {
    [QUOTE] + Text(ps) + [QUOTE]
  }

  function Print(c: Cst): seq<Byte> {
    match c
    case CNull => NULL_TEXT
    case CTrue => TRUE_TEXT
    case CFalse => FALSE_TEXT
    case CNum(n) => NumberText(n)
    case CStr(ps) => StringText(ps)
    case CEmptyArr(ws) => [OPEN_ARR] + ws + [CLOSE_ARR]
    case CEmptyObj(ws) => [OPEN_OBJ] + ws + [CLOSE_OBJ]
    case CArr(es) => [OPEN_ARR] + PrintElems(es) + [CLOSE_ARR]
    case CObj(ms) => [OPEN_OBJ] + PrintMembers(ms) + [CLOSE_OBJ]
  }

  function PrintElems(es: Elems): seq<Byte> {
    match es
    case LastElem(pre, v, post) => pre + Print(v) + post
    case MoreElems(pre, v, post, rest) => pre + Print(v) + post + [COMMA] + PrintElems(rest)
  }

  function PrintMembers(ms: Members): seq<Byte> {
    match ms
    case LastMember(pre, key, mid, wsv, v, post) =>
      pre + StringText(key) + mid + [COLON] + wsv + Print(v) + post
    case MoreMembers(pre, key, mid, wsv, v, post, rest) =>
      pre + StringText(key) + mid + [COLON] + wsv + Print(v) + post + [COMMA] + PrintMembers(rest)
  }

  predicate GoodString(ps: seq<Piece>) {
    GoodPieces(ps) && |Text(ps)| <= MAX_STRING
  }

  function ElemCount(es: Elems): (n: nat)
    ensures n > 0
  {
    match es
    case LastElem(_, _, _) => 1
    case MoreElems(_, _, _, rest) => 1 + ElemCount(rest)
  }

  function MemberCount(ms: Members): (n: nat)
    ensures n > 0
  {
    match ms
    case LastMember(_, _, _, _, _, _) => 1
    case MoreMembers(_, _, _, _, _, _, rest) => 1 + MemberCount(rest)
  }

  /** A grammatical value within the caps, given how many containers are open around it. */
  predicate Good(c: Cst, depth: nat)
    decreases c
  {
    match c
    case CNull => true
    case CTrue => true
    case CFalse => true
    case CNum(n) => GoodNumber(n)
    case CStr(ps) => GoodString(ps)
    case CEmptyArr(ws) => AllWs(ws) && depth < MAX_DEPTH
    case CEmptyObj(ws) => AllWs(ws) && depth < MAX_DEPTH
    case CArr(es) => depth < MAX_DEPTH && ElemCount(es) <= MAX_ITEMS && GoodElems(es, depth + 1)
    case CObj(ms) => depth < MAX_DEPTH && MemberCount(ms) <= MAX_ITEMS && GoodMembers(ms, depth + 1)
  }

  predicate GoodElems(es: Elems, depth: nat)
    decreases es
  {
    match es
    case LastElem(pre, v, post) => AllWs(pre) && AllWs(post) && Good(v, depth)
    case MoreElems(pre, v, post, rest) => AllWs(pre) && AllWs(post) && Good(v, depth) && GoodElems(rest, depth)
  }

  predicate GoodMembers(ms: Members, depth: nat)
    decreases ms
  {
    match ms
    case LastMember(pre, key, mid, wsv, v, post) =>
      AllWs(pre) && AllWs(mid) && AllWs(wsv) && AllWs(post) && GoodString(key) && Good(v, depth)
    case MoreMembers(pre, key, mid, wsv, v, post, rest) =>
      AllWs(pre) && AllWs(mid) && AllWs(wsv) && AllWs(post) && GoodString(key) && Good(v, depth)
      && GoodMembers(rest, depth)
  }

  function Pairs(keys: seq<seq<Byte>>, vals: seq<Tree>): seq<(seq<Byte>, Tree)>
    requires |keys| == |vals|
  {
    seq(|keys|, i requires 0 <= i < |keys| && |keys| == |vals| => (keys[i], vals[i]))
  }

  /** The value a text denotes. */
  function TreeOf(c: Cst, depth: nat): Tree
    requires Good(c, depth)
    decreases c
  {
    match c
    case CNull => TNull
    case CTrue => TTrue
    case CFalse => TFalse
    case CNum(n) => NumberTree(n)
    case CStr(ps) => TStr(StrBytes(ps))
    case CEmptyArr(_) => TArr([])
    case CEmptyObj(_) => TObj([])
    case CArr(es) => TArr(ElemTrees(es, depth + 1))
    case CObj(ms) => TObj(Pairs(MemberKeys(ms, depth + 1), MemberTrees(ms, depth + 1)))
  }

  function ElemTrees(es: Elems, depth: nat): (ts: seq<Tree>)
    requires GoodElems(es, depth)
    ensures |ts| == ElemCount(es)
    decreases es
  {
    match es
    case LastElem(_, v, _) => [TreeOf(v, depth)]
    case MoreElems(_, v, _, rest) => [TreeOf(v, depth)] + ElemTrees(rest, depth)
  }

  function MemberKeys(ms: Members, depth: nat): (ks: seq<seq<Byte>>)
    requires GoodMembers(ms, depth)
    ensures |ks| == MemberCount(ms)
    decreases ms
  {
    match ms
    case LastMember(_, key, _, _, _, _) => [StrBytes(key)]
    case MoreMembers(_, key, _, _, _, _, rest) => [StrBytes(key)] + MemberKeys(rest, depth)
  }

  function MemberTrees(ms: Members, depth: nat): (ts: seq<Tree>)
    requires GoodMembers(ms, depth)
    ensures |ts| == MemberCount(ms)
    decreases ms
  {
    match ms
    case LastMember(_, _, _, _, v, _) => [TreeOf(v, depth)]
    case MoreMembers(_, _, _, _, v, _, rest) => [TreeOf(v, depth)] + MemberTrees(rest, depth)
  }

  /** A whole text: optional byte order mark, whitespace around one value. */
  datatype Doc = Doc(bom: bool, pre: seq<Byte>, v: Cst, post: seq<Byte>)

  function DocText(d: Doc): seq<Byte> {
    (if d.bom then BOM else []) + d.pre + Print(d.v) + d.post
  }

  predicate GoodDoc(d: Doc) {
    AllWs(d.pre) && AllWs(d.post) && Good(d.v, 0)
  }
}
