/** The recursive-descent reading of a text: every function takes the rest of the input and
    returns a value with what remains after it. */
module JsonParse {
  import opened Basics
  import opened JsonGrammar

  datatype Res = Ok(t: Tree, rest: seq<Byte>) | Fail

  function SkipWs(b: seq<Byte>): (r: seq<Byte>)
    ensures |r| <= |b| && r == b[|b| - |r|..] && (r != [] ==> !IsWs(r[0]))
  {
    if b != [] && IsWs(b[0]) then SkipWs(b[1..]) else b
  }

  // ---- strings -------------------------------------------------------------------------

  /** First pass: where the closing quote is, after the opening one. */
  function CloseQuote(b: seq<Byte>): (r: Option<nat>)
    ensures r.Some? ==> r.value < |b| && b[r.value] == QUOTE
  {
    if b == [] then None
    else if b[0] == QUOTE then Some(0)
    else if b[0] == BACKSLASH then
      if |b| < 2 then None else After(2, CloseQuote(b[2..]))
    else if b[0] < 32 then None
    else After(1, CloseQuote(b[1..]))
  }

  function After(k: nat, r: Option<nat>): Option<nat> {
    if r.None? then None else Some(k + r.value)
  }

  /** Put decoded bytes in front. */
  function Glue(a: seq<Byte>, r: Option<seq<Byte>>): Option<seq<Byte>> {
    if r.None? then None else Some(a + r.value)
  }

  /** The code point of \u at the front of h: its value and whether a second escape was used. */
  function CodePoint(h: seq<Byte>): (r: Option<(nat, nat)>)
    ensures r.Some? ==> r.value.0 < 0x110000 && (r.value.1 == 4 || r.value.1 == 10) && r.value.1 <= |h|
    ensures r.Some? && r.value.1 == 4 ==> r.value.0 < 0x10000
  {
    if |h| < 4 || Hex4(h[..4]).None? then None
    else
      var cp := Hex4(h[..4]).value;
      if IsHigh(cp) then
        if |h| < 10 || h[4] != BACKSLASH || h[5] != LOWER_U || Hex4(h[6..10]).None? || !IsLow(Hex4(h[6..10]).value)
        then None
        else Some((PairValue(cp, Hex4(h[6..10]).value), 10))
      else if IsLow(cp) then None
      else Some((cp, 4))
  }

  /** Second pass: decode the escapes of a literal's inside. */
  function Unescape(b: seq<Byte>): (r: Option<seq<Byte>>)
    ensures r.Some? ==> |r.value| <= |b|
  {
    if b == [] then Some([])
    else if b[0] != BACKSLASH then Glue([b[0]], Unescape(b[1..]))
    else if |b| < 2 then None
    else if b[1] == LOWER_U then
      var u := CodePoint(b[2..]);
      if u.None? then None else Glue(Utf8(u.value.0), Unescape(b[2 + u.value.1..]))
    else if Simple(b[1]).None? then None
    else Glue([Simple(b[1]).value], Unescape(b[2..]))
  }

  /** A literal after its opening quote: its bytes and what follows the closing quote. */
  function StringLit(b: seq<Byte>): (r: Option<(seq<Byte>, seq<Byte>)>)
    ensures r.Some? ==> |r.value.1| < |b|
  {
    var q := CloseQuote(b);
    if q.None? || q.value > MAX_STRING then None
    else
      var u := Unescape(b[..q.value]);
      if u.None? then None else Some((u.value, b[q.value + 1..]))
  }

  // ---- numbers --------------------------------------------------------------------------

  function DigitRun(b: seq<Byte>): (n: nat)
    ensures n <= |b| && AllDigits(b[..n]) && (n < |b| ==> !IsDigit(b[n]))
  {
    if b != [] && IsDigit(b[0]) then
      var n := 1 + DigitRun(b[1..]);
      assert b[..n] == [b[0]] + b[1..][..n - 1];
      n
    else 0
  }

  /** The optional fraction: absent, present, or broken. */
  function FracLit(b: seq<Byte>): (r: Option<(Option<seq<Byte>>, seq<Byte>)>)
    ensures r.Some? ==> |r.value.1| <= |b|
  {
    if b == [] || b[0] != DOT then Some((None, b))
    else
      var k := DigitRun(b[1..]);
      if k == 0 then None else Some((Some(b[1..][..k]), b[1..][k..]))
  }

  function SignOf(b: seq<Byte>): Option<Byte> {
    if b != [] && (b[0] == 43 || b[0] == MINUS) then Some(b[0]) else None
  }

  /** The exponent's digits, after its letter and sign. */
  function ExpDigits(e: Byte, sign: Option<Byte>, c: seq<Byte>): (r: Option<(Option<Exp>, seq<Byte>)>)
    ensures r.Some? ==> |r.value.1| <= |c|
  {
    var k := DigitRun(c);
    if k == 0 then None else Some((Some(Exp(e, sign, c[..k])), c[k..]))
  }

  function ExpLit(b: seq<Byte>): (r: Option<(Option<Exp>, seq<Byte>)>)
    ensures r.Some? ==> |r.value.1| <= |b|
  {
    if b == [] || !(b[0] == 101 || b[0] == 69) then Some((None, b))
    else if SignOf(b[1..]).Some? then ExpDigits(b[0], SignOf(b[1..]), b[2..])
    else ExpDigits(b[0], None, b[1..])
  }

  /** After the integer part: fraction and exponent. */
  function NumberTail(neg: bool, ip: seq<Byte>, b: seq<Byte>): (r: Option<(Number, seq<Byte>)>)
    ensures r.Some? ==> |r.value.1| <= |b| && r.value.0.ip == ip
  {
    var f := FracLit(b);
    if f.None? then None
    else
      var x := ExpLit(f.value.1);
      if x.None? then None else Some((Number(neg, ip, f.value.0, x.value.0), x.value.1))
  }

  /** After the sign. */
  function Unsigned(neg: bool, c: seq<Byte>): (r: Option<(Number, seq<Byte>)>)
    ensures r.Some? ==> |r.value.1| < |c|
  {
    var k := DigitRun(c);
    if k == 0 || (c[0] == ZERO && k > 1) then None else NumberTail(neg, c[..k], c[k..])
  }

  function NumberLit(b: seq<Byte>): (r: Option<(Number, seq<Byte>)>)
    ensures r.Some? ==> |r.value.1| < |b|
  {
    if b != [] && b[0] == MINUS then Unsigned(true, b[1..]) else Unsigned(false, b)
  }

  // ---- values ---------------------------------------------------------------------------------

  function Literal(b: seq<Byte>): (r: Res)
    ensures r.Ok? ==> |r.rest| < |b|
  {
    if TRUE_TEXT <= b then Ok(TTrue, b[4..])
    else if FALSE_TEXT <= b then Ok(TFalse, b[5..])
    else if NULL_TEXT <= b then Ok(TNull, b[4..])
    else Fail
  }

  /** A value with `depth` containers open around it. */
  function Value(b: seq<Byte>, depth: nat): (r: Res)
    ensures r.Ok? ==> |r.rest| < |b|
    decreases |b|, 1
  {
    ValueAt(SkipWs(b), depth)
  }

  /** A value at the front. */
  function ValueAt(c: seq<Byte>, depth: nat): (r: Res)
    ensures r.Ok? ==> |r.rest| < |c|
    decreases |c|, 0
  {
    if c == [] then Fail
    else if c[0] == OPEN_OBJ || c[0] == OPEN_ARR then
      if depth >= MAX_DEPTH then Fail else Opened(c[0] == OPEN_OBJ, SkipWs(c[1..]), depth + 1)
    else Scalar(c)
  }

  /** After an opening bracket: nothing inside, or a first item. */
  function Opened(isObj: bool, e: seq<Byte>, depth: nat): (r: Res)
    ensures r.Ok? ==> |r.rest| < |e|
    decreases |e|, 3
  {
    if e != [] && e[0] == Closer(isObj) then Ok(if isObj then TObj([]) else TArr([]), e[1..])
    else if isObj then MembersFrom(e, depth, [], [])
    else ElemsFrom(e, depth, [])
  }

  function Closer(isObj: bool): Byte {
    if isObj then CLOSE_OBJ else CLOSE_ARR
  }

  function Scalar(c: seq<Byte>): (r: Res)
    requires c != []
    ensures r.Ok? ==> |r.rest| < |c|
  {
    if c[0] == QUOTE then
      var s := StringLit(c[1..]);
      if s.None? then Fail else Ok(TStr(s.value.0), s.value.1)
    else if c[0] == 116 || c[0] == 102 || c[0] == 110 then Literal(c)
    else if c[0] == MINUS || IsDigit(c[0]) then
      var n := NumberLit(c);
      if n.None? then Fail
      else
        Ok(NumberTree(n.value.0), n.value.1)
    else Fail
  }

  /** The elements from here on, after those already read. */
  function ElemsFrom(b: seq<Byte>, depth: nat, vals: seq<Tree>): (r: Res)
    ensures r.Ok? ==> |r.rest| < |b|
    decreases |b|, 2
  {
    var v := Value(b, depth);
    if v.Fail? then Fail else ElemsAfter(v.rest, depth, vals + [v.t])
  }

  /** After an element: a comma and more, or the end. */
  function ElemsAfter(b: seq<Byte>, depth: nat, vals: seq<Tree>): (r: Res)
    ensures r.Ok? ==> |r.rest| < |b|
    decreases |b|, 0
  {
    var c := SkipWs(b);
    if c == [] then Fail
    else if c[0] == COMMA then ElemsFrom(c[1..], depth, vals)
    else if c[0] == CLOSE_ARR then CloseArr(vals, c[1..])
    else Fail
  }

  function CloseArr(vals: seq<Tree>, rest: seq<Byte>): Res {
    if |vals| > MAX_ITEMS then Fail else Ok(TArr(vals), rest)
  }

  function CloseObj(keys: seq<seq<Byte>>, vals: seq<Tree>, rest: seq<Byte>): Res {
    if |vals| > MAX_ITEMS || |keys| != |vals| then Fail else Ok(TObj(Pairs(keys, vals)), rest)
  }

  /** A key that has been read, up to its colon. */
  function KeyColon(s: Option<(seq<Byte>, seq<Byte>)>): (r: Option<(seq<Byte>, seq<Byte>)>)
    ensures r.Some? ==> s.Some? && |r.value.1| < |s.value.1|
  {
    if s.None? then None
    else
      var e := SkipWs(s.value.1);
      if e == [] || e[0] != COLON then None else Some((s.value.0, e[1..]))
  }

  function KeyLit(b: seq<Byte>): (r: Option<(seq<Byte>, seq<Byte>)>)
    ensures r.Some? ==> |r.value.1| < |b|
  {
    var c := SkipWs(b);
    if c == [] || c[0] != QUOTE then None else KeyColon(StringLit(c[1..]))
  }

  function MembersFrom(b: seq<Byte>, depth: nat, keys: seq<seq<Byte>>, vals: seq<Tree>): (r: Res)
    ensures r.Ok? ==> |r.rest| < |b|
    decreases |b|, 2
  {
    var k := KeyLit(b);
    if k.None? then Fail
    else
      var v := Value(k.value.1, depth);
      if v.Fail? then Fail else MembersAfter(v.rest, depth, keys + [k.value.0], vals + [v.t])
  }

  function MembersAfter(b: seq<Byte>, depth: nat, keys: seq<seq<Byte>>, vals: seq<Tree>): (r: Res)
    ensures r.Ok? ==> |r.rest| < |b|
    decreases |b|, 0
  {
    var c := SkipWs(b);
    if c == [] then Fail
    else if c[0] == COMMA then MembersFrom(c[1..], depth, keys, vals)
    else if c[0] == CLOSE_OBJ then CloseObj(keys, vals, c[1..])
    else Fail
  }

  function StripBom(b: seq<Byte>): seq<Byte> {
    if BOM <= b then b[3..] else b
  }

  /** What is left after the only value must be whitespace. */
  function Finish(r: Res): Option<Tree> {
    if r.Ok? && SkipWs(r.rest) == [] then Some(r.t) else None
  }

  function ParseDoc(b: seq<Byte>): Option<Tree> {
    Finish(Value(StripBom(b), 0))
  }
}
