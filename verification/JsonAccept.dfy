/** Values and whole texts: reading and printing are inverse, in both directions. */
module JsonAccept {
  import opened Basics
  import opened JsonGrammar
  import opened JsonParse
  import opened JsonSound

  // ---- complete: every grammatical text is read back ---------------------------------------

  /** The first byte of a value tells what it is. */
  predicate Starts(b: Byte) {
    b == QUOTE || b == MINUS || IsDigit(b) || b == 116 || b == 102 || b == 110 || b == OPEN_ARR || b == OPEN_OBJ
  }

  lemma NumberStart(n: Number)
    requires GoodNumber(n)
    ensures NumberText(n) != [] && (NumberText(n)[0] == MINUS || IsDigit(NumberText(n)[0]))
  {
    hide FracText, ExpText;
    if n.neg {
      assert NumberText(n)[0] == MINUS;
    } else {
      assert NumberText(n)[0] == n.ip[0];
    }
  }

  lemma PrintStart(c: Cst, depth: nat)
    requires Good(c, depth)
    ensures Print(c) != [] && Starts(Print(c)[0]) && !IsWs(Print(c)[0])
  {
    if c.CNum? {
      NumberStart(c.n);
    }
  }

  lemma LastElemText(pre: seq<Byte>, v: Cst, post: seq<Byte>, tail: seq<Byte>)
    ensures PrintElems(LastElem(pre, v, post)) + tail == pre + (Print(v) + (post + tail))
  {
    hide Print;
  }

  lemma MoreElemsText(pre: seq<Byte>, v: Cst, post: seq<Byte>, more: Elems, tail: seq<Byte>)
    ensures PrintElems(MoreElems(pre, v, post, more)) + tail
         == pre + (Print(v) + (post + ([COMMA] + (PrintElems(more) + tail))))
  {
    hide Print;
  }

  /** A member from its key on. */
  function MemberText(key: seq<Piece>, mid: seq<Byte>, wsv: seq<Byte>, v: Cst, tail: seq<Byte>): seq<Byte> {
    [QUOTE] + (Text(key) + [QUOTE] + (mid + ([COLON] + (wsv + (Print(v) + tail)))))
  }

  lemma LastMemberText(pre: seq<Byte>, key: seq<Piece>, mid: seq<Byte>, wsv: seq<Byte>, v: Cst, post: seq<Byte>,
                       tail: seq<Byte>)
    ensures PrintMembers(LastMember(pre, key, mid, wsv, v, post)) + tail ==
      pre + MemberText(key, mid, wsv, v, post + tail)
  {
    hide Print, Text;
  }

  lemma MoreMembersText(pre: seq<Byte>, key: seq<Piece>, mid: seq<Byte>, wsv: seq<Byte>, v: Cst, post: seq<Byte>,
                        more: Members, tail: seq<Byte>)
    ensures PrintMembers(MoreMembers(pre, key, mid, wsv, v, post, more)) + tail
         == pre + MemberText(key, mid, wsv, v, post + ([COMMA] + (PrintMembers(more) + tail)))
  {
    hide Print, Text;
  }

  lemma ValueOver(w: seq<Byte>, b: seq<Byte>, depth: nat)
    requires AllWs(w) && b != [] && !IsWs(b[0])
    ensures SkipWs(w + b) == b && SkipWs(b) == b && Value(w + b, depth) == Value(b, depth)
  {
    hide ValueAt;
    SkipWsOver(w, b);
    SkipWsOver([], b);
    assert [] + b == b;
  }

  /** Nothing that can follow a value in a text belongs to a number. */
  lemma StopsAt(post: seq<Byte>, tail: seq<Byte>)
    requires AllWs(post)
    requires tail == [] || tail[0] == COMMA || tail[0] == CLOSE_ARR || tail[0] == CLOSE_OBJ
    ensures Stops(post + tail)
  {
    if post != [] {
      assert IsWs(post[0]) && (post + tail)[0] == post[0];
    } else {
      assert post + tail == tail;
    }
  }

  lemma ScalarComplete(c: Cst, depth: nat, rest: seq<Byte>)
    requires Good(c, depth) && (c.CNull? || c.CTrue? || c.CFalse? || c.CNum? || c.CStr?)
    requires c.CNum? ==> Stops(rest)
    ensures Print(c) + rest != [] && Scalar(Print(c) + rest) == Ok(TreeOf(c, depth), rest)
  {
    hide Literal, StringLit, NumberLit, Text, StrBytes;
    var b := Print(c) + rest;
    PrintStart(c, depth);
    match c
    case CNull =>
      LiteralComplete(rest);
    case CTrue =>
      LiteralComplete(rest);
    case CFalse =>
      LiteralComplete(rest);
    case CNum(n) =>
      NumberStart(n);
      NumberComplete(n, rest);
    case CStr(ps) =>
      assert b[1..] == Text(ps) + [QUOTE] + rest;
      StringComplete(ps, rest);
  }

  lemma LiteralComplete(rest: seq<Byte>)
    ensures Literal(NULL_TEXT + rest) == Ok(TNull, rest)
    ensures Literal(TRUE_TEXT + rest) == Ok(TTrue, rest)
    ensures Literal(FALSE_TEXT + rest) == Ok(TFalse, rest)
  {
    assert (NULL_TEXT + rest)[0] == 110 && TRUE_TEXT[0] == 116 && FALSE_TEXT[0] == 102;
    assert (FALSE_TEXT + rest)[0] == 102;
    assert (NULL_TEXT + rest)[4..] == rest && (TRUE_TEXT + rest)[4..] == rest && (FALSE_TEXT + rest)[5..] == rest;
  }

  /** What stands at the front needs no skipping. */
  lemma FrontValue(b: seq<Byte>, depth: nat)
    requires b != [] && !IsWs(b[0])
    ensures Value(b, depth) == ValueAt(b, depth)
  {
    hide ValueAt;
    SkipWsOver([], b);
    assert [] + b == b;
  }

  function Opener(isObj: bool): Byte {
    if isObj then OPEN_OBJ else OPEN_ARR
  }

  lemma OpenValue(isObj: bool, inner: seq<Byte>, depth: nat)
    requires depth < MAX_DEPTH
    ensures Value([Opener(isObj)] + inner, depth) == Opened(isObj, SkipWs(inner), depth + 1)
  {
    hide Value, Opened, Scalar, SkipWs;
    var b := [Opener(isObj)] + inner;
    assert b[1..] == inner && !IsWs(b[0]);
    FrontValue(b, depth);
  }

  lemma EmptyValue(isObj: bool, ws: seq<Byte>, rest: seq<Byte>, depth: nat)
    requires depth < MAX_DEPTH && AllWs(ws)
    ensures Value([Opener(isObj)] + (ws + ([Closer(isObj)] + rest)), depth)
         == Ok(if isObj then TObj([]) else TArr([]), rest)
  {
    hide Value, ElemsFrom, MembersFrom, SkipWs;
    var e := [Closer(isObj)] + rest;
    SkipWsOver(ws, e);
    OpenValue(isObj, ws + e, depth);
    assert e[1..] == rest;
  }

  /** A scalar at the front. */
  lemma ScalarValue(b: seq<Byte>, depth: nat)
    requires b != [] && !IsWs(b[0]) && b[0] != OPEN_OBJ && b[0] != OPEN_ARR
    ensures Value(b, depth) == Scalar(b)
  {
    hide Scalar, Value, Opened;
    FrontValue(b, depth);
  }

  lemma ArrText(es: Elems, rest: seq<Byte>)
    ensures Print(CArr(es)) + rest == [OPEN_ARR] + (PrintElems(es) + ([CLOSE_ARR] + rest))
  {
    hide PrintElems;
  }

  lemma ObjText(ms: Members, rest: seq<Byte>)
    ensures Print(CObj(ms)) + rest == [OPEN_OBJ] + (PrintMembers(ms) + ([CLOSE_OBJ] + rest))
  {
    hide PrintMembers;
  }

  lemma EmptyText(ws: seq<Byte>, rest: seq<Byte>)
    ensures Print(CEmptyArr(ws)) + rest == [OPEN_ARR] + (ws + ([CLOSE_ARR] + rest))
    ensures Print(CEmptyObj(ws)) + rest == [OPEN_OBJ] + (ws + ([CLOSE_OBJ] + rest))
  {
  }

  lemma {:induction false} ValueComplete(c: Cst, depth: nat, rest: seq<Byte>)
    requires Good(c, depth) && (c.CNum? ==> Stops(rest))
    ensures Value(Print(c) + rest, depth) == Ok(TreeOf(c, depth), rest)
    decreases c, 1
  {
    hide Value, Print, Stops, Scalar;
    match c
    case CEmptyArr(ws) =>
      EmptyText(ws, rest);
      EmptyValue(false, ws, rest, depth);
    case CEmptyObj(ws) =>
      EmptyText(ws, rest);
      EmptyValue(true, ws, rest, depth);
    case CArr(es) =>
      ArrText(es, rest);
      ArrComplete(es, depth, rest);
    case CObj(ms) =>
      ObjText(ms, rest);
      ObjComplete(ms, depth, rest);
    case _ =>
      PrintStart(c, depth);
      ScalarStart(c, depth);
      assert (Print(c) + rest)[0] == Print(c)[0];
      ScalarValue(Print(c) + rest, depth);
      ScalarComplete(c, depth, rest);
  }

  lemma ScalarStart(c: Cst, depth: nat)
    requires Good(c, depth) && (c.CNull? || c.CTrue? || c.CFalse? || c.CNum? || c.CStr?)
    ensures Print(c) != [] && Print(c)[0] != OPEN_ARR && Print(c)[0] != OPEN_OBJ
  {
    if c.CNum? {
      NumberStart(c.n);
    }
  }

  lemma {:induction false} ArrComplete(es: Elems, depth: nat, rest: seq<Byte>)
    requires depth < MAX_DEPTH && ElemCount(es) <= MAX_ITEMS && GoodElems(es, depth + 1)
    ensures Value([OPEN_ARR] + (PrintElems(es) + ([CLOSE_ARR] + rest)), depth) ==
      Ok(TArr(ElemTrees(es, depth + 1)), rest)
    decreases es, 3
  {
    hide Value, ElemsFrom, PrintElems, SkipWs, MembersFrom;
    var inner := PrintElems(es) + ([CLOSE_ARR] + rest);
    ElemsComplete(es, depth + 1, [], rest);
    ElemsOpen(es, depth + 1, [CLOSE_ARR] + rest);
    OpenValue(false, inner, depth);
    ElemsSkip(inner, depth + 1, []);
    assert [] + ElemTrees(es, depth + 1) == ElemTrees(es, depth + 1);
  }

  lemma {:induction false} ObjComplete(ms: Members, depth: nat, rest: seq<Byte>)
    requires depth < MAX_DEPTH && MemberCount(ms) <= MAX_ITEMS && GoodMembers(ms, depth + 1)
    ensures Value([OPEN_OBJ] + (PrintMembers(ms) + ([CLOSE_OBJ] + rest)), depth)
         == Ok(TObj(Pairs(MemberKeys(ms, depth + 1), MemberTrees(ms, depth + 1))), rest)
    decreases ms, 3
  {
    hide Value, MembersFrom, PrintMembers, SkipWs, ElemsFrom;
    var inner := PrintMembers(ms) + ([CLOSE_OBJ] + rest);
    MembersComplete(ms, depth + 1, [], [], rest);
    MembersOpen(ms, depth + 1, [CLOSE_OBJ] + rest);
    OpenValue(true, inner, depth);
    MembersSkip(inner, depth + 1, [], []);
    assert [] + MemberKeys(ms, depth + 1) == MemberKeys(ms, depth + 1);
    assert [] + MemberTrees(ms, depth + 1) == MemberTrees(ms, depth + 1);
  }

  lemma {:induction false} SkipTwice(b: seq<Byte>)
    ensures SkipWs(SkipWs(b)) == SkipWs(b)
  {
    SkipWsOver([], SkipWs(b));
    assert [] + SkipWs(b) == SkipWs(b);
  }

  /** Leading whitespace makes no difference. */
  lemma ValueSkip(b: seq<Byte>, depth: nat)
    ensures Value(SkipWs(b), depth) == Value(b, depth)
  {
    hide ValueAt, SkipWs;
    SkipTwice(b);
  }

  lemma ElemsSkip(b: seq<Byte>, depth: nat, vals: seq<Tree>)
    ensures ElemsFrom(SkipWs(b), depth, vals) == ElemsFrom(b, depth, vals)
  {
    hide Scalar, ElemsAfter, MembersFrom, SkipWs;
    ValueSkip(b, depth);
  }

  lemma KeySkip(b: seq<Byte>)
    ensures KeyLit(SkipWs(b)) == KeyLit(b)
  {
    hide StringLit, SkipWs, KeyColon;
    SkipTwice(b);
  }

  lemma MembersSkip(b: seq<Byte>, depth: nat, keys: seq<seq<Byte>>, vals: seq<Tree>)
    ensures MembersFrom(SkipWs(b), depth, keys, vals) == MembersFrom(b, depth, keys, vals)
  {
    hide Scalar, MembersAfter, ElemsFrom, SkipWs, KeyLit;
    KeySkip(b);
  }

  /** The inside of a non-empty array starts with a value. */
  lemma ElemsOpen(es: Elems, depth: nat, rest: seq<Byte>)
    requires GoodElems(es, depth)
    ensures SkipWs(PrintElems(es) + rest) != [] && SkipWs(PrintElems(es) + rest)[0] != CLOSE_ARR
  {
    hide Print, SkipWs, PrintElems;
    var tail := if es.LastElem? then es.post + rest else es.post + ([COMMA] + (PrintElems(es.rest) + rest));
    if es.LastElem? {
      LastElemText(es.pre, es.v, es.post, rest);
    } else {
      MoreElemsText(es.pre, es.v, es.post, es.rest, rest);
    }
    PrintStart(es.v, depth);
    assert (Print(es.v) + tail)[0] == Print(es.v)[0];
    SkipWsOver(es.pre, Print(es.v) + tail);
  }

  lemma MembersOpen(ms: Members, depth: nat, rest: seq<Byte>)
    requires GoodMembers(ms, depth)
    ensures SkipWs(PrintMembers(ms) + rest) != [] && SkipWs(PrintMembers(ms) + rest)[0] != CLOSE_OBJ
  {
    hide Print, SkipWs, PrintMembers, Text;
    var tail := if ms.LastMember? then ms.post + rest else ms.post + ([COMMA] + (PrintMembers(ms.rest) + rest));
    if ms.LastMember? {
      LastMemberText(ms.pre, ms.key, ms.mid, ms.wsv, ms.v, ms.post, rest);
    } else {
      MoreMembersText(ms.pre, ms.key, ms.mid, ms.wsv, ms.v, ms.post, ms.rest, rest);
    }
    SkipWsOver(ms.pre, MemberText(ms.key, ms.mid, ms.wsv, ms.v, tail));
  }

  lemma ElemsUnfold(b: seq<Byte>, depth: nat, vals: seq<Tree>)
    ensures ElemsFrom(b, depth, vals) == var v := Value(b, depth);
            if v.Fail? then Fail else ElemsAfter(v.rest, depth, vals + [v.t])
  {
    hide Value, ElemsAfter;
  }

  lemma AfterElem(post: seq<Byte>, tail: seq<Byte>, depth: nat, vals: seq<Tree>)
    requires AllWs(post) && tail != [] && (tail[0] == COMMA || tail[0] == CLOSE_ARR)
    ensures ElemsAfter(post + tail, depth, vals)
         == if tail[0] == COMMA then ElemsFrom(tail[1..], depth, vals) else CloseArr(vals, tail[1..])
  {
    hide ElemsFrom, CloseArr;
    SkipWsOver(post, tail);
  }

  /** One element and what follows it. */
  lemma ElemStep(pre: seq<Byte>, v: Cst, post: seq<Byte>, depth: nat, vals: seq<Tree>, tail: seq<Byte>)
    requires AllWs(pre) && AllWs(post) && Good(v, depth)
    requires tail != [] && (tail[0] == COMMA || tail[0] == CLOSE_ARR)
    requires Value(Print(v) + (post + tail), depth) == Ok(TreeOf(v, depth), post + tail)
    ensures ElemsFrom(pre + (Print(v) + (post + tail)), depth, vals)
         == if tail[0] == COMMA then ElemsFrom(tail[1..], depth, vals + [TreeOf(v, depth)])
            else CloseArr(vals + [TreeOf(v, depth)], tail[1..])
  {
    hide Print, Good, TreeOf, Value, ElemsFrom, ElemsAfter, CloseArr, SkipWs;
    PrintStart(v, depth);
    var b := Print(v) + (post + tail);
    assert b[0] == Print(v)[0];
    ValueOver(pre, b, depth);
    ElemsUnfold(pre + b, depth, vals);
    AfterElem(post, tail, depth, vals + [TreeOf(v, depth)]);
  }

  lemma {:induction false} ElemsComplete(es: Elems, depth: nat, vals: seq<Tree>, rest: seq<Byte>)
    requires GoodElems(es, depth)
    ensures ElemsFrom(PrintElems(es) + ([CLOSE_ARR] + rest), depth, vals) == CloseArr(vals + ElemTrees(es, depth), rest)
    decreases es, 2
  {
    hide Value, ElemsFrom, Print, PrintElems, Stops, CloseArr;
    var close := [CLOSE_ARR] + rest;
    match es
    case LastElem(pre, v, post) =>
      LastElemText(pre, v, post, close);
      StopsAt(post, close);
      ValueComplete(v, depth, post + close);
      ElemStep(pre, v, post, depth, vals, close);
    case MoreElems(pre, v, post, more) =>
      var tail := [COMMA] + (PrintElems(more) + close);
      MoreElemsText(pre, v, post, more, close);
      StopsAt(post, tail);
      ValueComplete(v, depth, post + tail);
      ElemStep(pre, v, post, depth, vals, tail);
      ElemsComplete(more, depth, vals + [TreeOf(v, depth)], rest);
      assert tail[1..] == PrintElems(more) + close;
      assert vals + [TreeOf(v, depth)] + ElemTrees(more, depth) == vals + ElemTrees(es, depth);
  }

  lemma KeyComplete(pre: seq<Byte>, key: seq<Piece>, mid: seq<Byte>, tail: seq<Byte>)
    requires AllWs(pre) && AllWs(mid) && GoodString(key)
    ensures KeyLit(pre + ([QUOTE] + (Text(key) + [QUOTE] + (mid + ([COLON] + tail))))) == Some((StrBytes(key), tail))
  {
    hide StringLit, Text, StrBytes;
    var after := mid + ([COLON] + tail);
    var b := [QUOTE] + (Text(key) + [QUOTE] + after);
    SkipWsOver(pre, b);
    assert b[1..] == Text(key) + [QUOTE] + after;
    StringComplete(key, after);
    SkipWsOver(mid, [COLON] + tail);
    assert ([COLON] + tail)[1..] == tail;
  }

  lemma MembersUnfold(b: seq<Byte>, depth: nat, keys: seq<seq<Byte>>, vals: seq<Tree>)
    requires KeyLit(b).Some? && Value(KeyLit(b).value.1, depth).Ok?
    ensures var k, v := KeyLit(b).value, Value(KeyLit(b).value.1, depth);
            MembersFrom(b, depth, keys, vals) == MembersAfter(v.rest, depth, keys + [k.0], vals + [v.t])
  {
    hide Value, KeyLit, MembersAfter;
  }

  lemma AfterMember(post: seq<Byte>, tail: seq<Byte>, depth: nat, keys: seq<seq<Byte>>, vals: seq<Tree>)
    requires AllWs(post) && tail != [] && (tail[0] == COMMA || tail[0] == CLOSE_OBJ)
    ensures MembersAfter(post + tail, depth, keys, vals)
         == if tail[0] == COMMA then MembersFrom(tail[1..], depth, keys, vals) else CloseObj(keys, vals, tail[1..])
  {
    hide MembersFrom, CloseObj;
    SkipWsOver(post, tail);
  }

  /** One member and what follows it. */
  lemma MemberStep(pre: seq<Byte>, key: seq<Piece>, mid: seq<Byte>, wsv: seq<Byte>, v: Cst, post: seq<Byte>,
                   depth: nat, keys: seq<seq<Byte>>, vals: seq<Tree>, tail: seq<Byte>)
    requires AllWs(pre) && AllWs(mid) && AllWs(wsv) && AllWs(post) && GoodString(key) && Good(v, depth)
    requires tail != [] && (tail[0] == COMMA || tail[0] == CLOSE_OBJ)
    requires Value(Print(v) + (post + tail), depth) == Ok(TreeOf(v, depth), post + tail)
    ensures MembersFrom(pre + MemberText(key, mid, wsv, v, post + tail), depth, keys, vals)
         == if tail[0] == COMMA then MembersFrom(tail[1..], depth, keys + [StrBytes(key)], vals + [TreeOf(v, depth)])
            else CloseObj(keys + [StrBytes(key)], vals + [TreeOf(v, depth)], tail[1..])
  {
    hide Print, Good, TreeOf, Value, MembersFrom, MembersAfter, KeyLit, CloseObj, SkipWs, Text, StrBytes;
    PrintStart(v, depth);
    var b := Print(v) + (post + tail);
    assert b[0] == Print(v)[0];
    KeyComplete(pre, key, mid, wsv + b);
    ValueOver(wsv, b, depth);
    MembersUnfold(pre + MemberText(key, mid, wsv, v, post + tail), depth, keys, vals);
    AfterMember(post, tail, depth, keys + [StrBytes(key)], vals + [TreeOf(v, depth)]);
  }

  lemma {:induction false} MembersComplete(ms: Members, depth: nat, keys: seq<seq<Byte>>, vals: seq<Tree>,
                                           rest: seq<Byte>)
    requires GoodMembers(ms, depth)
    ensures MembersFrom(PrintMembers(ms) + ([CLOSE_OBJ] + rest), depth, keys, vals)
         == CloseObj(keys + MemberKeys(ms, depth), vals + MemberTrees(ms, depth), rest)
    decreases ms, 2
  {
    hide Value, MembersFrom, Print, PrintMembers, Stops, CloseObj, MemberText;
    var close := [CLOSE_OBJ] + rest;
    match ms
    case LastMember(pre, key, mid, wsv, v, post) =>
      LastMemberText(pre, key, mid, wsv, v, post, close);
      StopsAt(post, close);
      ValueComplete(v, depth, post + close);
      MemberStep(pre, key, mid, wsv, v, post, depth, keys, vals, close);
    case MoreMembers(pre, key, mid, wsv, v, post, more) =>
      var tail := [COMMA] + (PrintMembers(more) + close);
      MoreMembersText(pre, key, mid, wsv, v, post, more, close);
      StopsAt(post, tail);
      ValueComplete(v, depth, post + tail);
      MemberStep(pre, key, mid, wsv, v, post, depth, keys, vals, tail);
      MembersComplete(more, depth, keys + [StrBytes(key)], vals + [TreeOf(v, depth)], rest);
      assert tail[1..] == PrintMembers(more) + close;
      assert keys + [StrBytes(key)] + MemberKeys(more, depth) == keys + MemberKeys(ms, depth);
      assert vals + [TreeOf(v, depth)] + MemberTrees(more, depth) == vals + MemberTrees(ms, depth);
  }

  // ---- sound: whatever is read is grammatical ----------------------------------------------

  lemma LiteralSound(b: seq<Byte>) returns (c: Cst)
    requires Literal(b).Ok?
    ensures (c.CNull? || c.CTrue? || c.CFalse?) && b == Print(c) + Literal(b).rest
    ensures forall depth: nat :: Good(c, depth) && TreeOf(c, depth) == Literal(b).t
  {
    if TRUE_TEXT <= b {
      c := CTrue;
      assert b == b[..4] + b[4..];
    } else if FALSE_TEXT <= b {
      c := CFalse;
      assert b == b[..5] + b[5..];
    } else {
      c := CNull;
      assert b == b[..4] + b[4..];
    }
  }

  lemma ScalarSound(b: seq<Byte>, depth: nat) returns (c: Cst)
    requires b != [] && Scalar(b).Ok?
    ensures Good(c, depth) && TreeOf(c, depth) == Scalar(b).t && b == Print(c) + Scalar(b).rest
  {
    hide StringLit, NumberLit, Literal, GoodNumber, GoodString, NumberText, StrBytes;
    if b[0] == QUOTE {
      var ps := StringLitSound(b[1..]);
      c := CStr(ps);
      assert b == [QUOTE] + b[1..];
    } else if b[0] == 116 || b[0] == 102 || b[0] == 110 {
      c := LiteralSound(b);
    } else {
      NumberSound(b);
      c := CNum(NumberLit(b).value.0);
    }
  }

  /** The pieces around one reading: skipped whitespace, then a given first byte. */
  lemma Cut(b: seq<Byte>)
    requires SkipWs(b) != []
    ensures AllWs(WsOf(b)) && b == WsOf(b) + ([SkipWs(b)[0]] + SkipWs(b)[1..])
  {
    hide SkipWs;
    WsOfIsWs(b);
    assert SkipWs(b) == [SkipWs(b)[0]] + SkipWs(b)[1..];
  }

  lemma {:induction false} ValueSound(b: seq<Byte>, depth: nat) returns (pre: seq<Byte>, c: Cst)
    requires Value(b, depth).Ok?
    ensures AllWs(pre) && Good(c, depth) && TreeOf(c, depth) == Value(b, depth).t
    ensures b == pre + (Print(c) + Value(b, depth).rest)
    decreases |b|, 2
  {
    hide ValueAt, Print, TreeOf, Good, SkipWs;
    pre := WsOf(b);
    WsOfIsWs(b);
    c := FrontSound(SkipWs(b), depth);
  }

  lemma FrontSound(s: seq<Byte>, depth: nat) returns (c: Cst)
    requires ValueAt(s, depth).Ok?
    ensures Good(c, depth) && TreeOf(c, depth) == ValueAt(s, depth).t
    ensures s == Print(c) + ValueAt(s, depth).rest
    decreases |s|, 1
  {
    hide Print, TreeOf, Good, Opened, Scalar, SkipWs;
    if s[0] == OPEN_OBJ || s[0] == OPEN_ARR {
      c := OpenedSound(s[0] == OPEN_OBJ, s[1..], depth);
      assert s == [s[0]] + s[1..];
    } else {
      c := ScalarSound(s, depth);
    }
  }

  lemma {:induction false} OpenedSound(isObj: bool, b: seq<Byte>, depth: nat) returns (c: Cst)
    requires depth < MAX_DEPTH && Opened(isObj, SkipWs(b), depth + 1).Ok?
    ensures Good(c, depth) && TreeOf(c, depth) == Opened(isObj, SkipWs(b), depth + 1).t
    ensures [Opener(isObj)] + b == Print(c) + Opened(isObj, SkipWs(b), depth + 1).rest
    decreases |b|, 6
  {
    hide ElemsFrom, MembersFrom, SkipWs, Print, PrintMembers, PrintElems, GoodMembers, GoodElems, MemberKeys,
         MemberTrees, ElemTrees, Pairs, Value;
    var e := SkipWs(b);
    if e != [] && e[0] == Closer(isObj) {
      Cut(b);
      c := if isObj then CEmptyObj(WsOf(b)) else CEmptyArr(WsOf(b));
      EmptyText(WsOf(b), e[1..]);
    } else if isObj {
      MembersSkip(b, depth + 1, [], []);
      var ms := MembersSound(b, depth + 1, [], []);
      c := CObj(ms);
      ObjText(ms, MembersFrom(b, depth + 1, [], []).rest);
      assert [] + MemberKeys(ms, depth + 1) == MemberKeys(ms, depth + 1);
      assert [] + MemberTrees(ms, depth + 1) == MemberTrees(ms, depth + 1);
    } else {
      ElemsSkip(b, depth + 1, []);
      var es := ElemsSound(b, depth + 1, []);
      c := CArr(es);
      ArrText(es, ElemsFrom(b, depth + 1, []).rest);
      assert [] + ElemTrees(es, depth + 1) == ElemTrees(es, depth + 1);
    }
  }

  lemma {:induction false} ElemsSound(b: seq<Byte>, depth: nat, vals: seq<Tree>) returns (es: Elems)
    requires ElemsFrom(b, depth, vals).Ok?
    ensures GoodElems(es, depth) && |vals| + ElemCount(es) <= MAX_ITEMS
    ensures ElemsFrom(b, depth, vals).t == TArr(vals + ElemTrees(es, depth))
    ensures b == PrintElems(es) + ([CLOSE_ARR] + ElemsFrom(b, depth, vals).rest)
    decreases |b|, 3
  {
    hide Value, Print, Good, TreeOf, SkipWs;
    var v := Value(b, depth);
    var pre, c := ValueSound(b, depth);
    var post, s := WsOf(v.rest), SkipWs(v.rest);
    WsOfIsWs(v.rest);
    assert s == [s[0]] + s[1..];
    if s[0] == COMMA {
      var more := ElemsSound(s[1..], depth, vals + [v.t]);
      es := MoreElems(pre, c, post, more);
      assert vals + [v.t] + ElemTrees(more, depth) == vals + ElemTrees(es, depth);
      MoreElemsText(pre, c, post, more, [CLOSE_ARR] + ElemsFrom(b, depth, vals).rest);
    } else {
      es := LastElem(pre, c, post);
      LastElemText(pre, c, post, s);
    }
  }

  lemma KeySound(b: seq<Byte>) returns (pre: seq<Byte>, key: seq<Piece>, mid: seq<Byte>)
    requires KeyLit(b).Some?
    ensures AllWs(pre) && AllWs(mid) && GoodString(key) && StrBytes(key) == KeyLit(b).value.0
    ensures b == pre + ([QUOTE] + (Text(key) + [QUOTE] + (mid + ([COLON] + KeyLit(b).value.1))))
  {
    hide StringLit, SkipWs, GoodString, StrBytes, Text;
    Cut(b);
    pre := WsOf(b);
    key := StringLitSound(SkipWs(b)[1..]);
    mid := WsOf(StringLit(SkipWs(b)[1..]).value.1);
    Cut(StringLit(SkipWs(b)[1..]).value.1);
  }

  /** The value after a key, and what stands behind it. */
  lemma MemberSound(b: seq<Byte>, depth: nat)
    returns (pre: seq<Byte>, key: seq<Piece>, mid: seq<Byte>, wsv: seq<Byte>, c: Cst, post: seq<Byte>)
    requires KeyLit(b).Some? && Value(KeyLit(b).value.1, depth).Ok?
    ensures var v := Value(KeyLit(b).value.1, depth);
            && AllWs(pre) && AllWs(mid) && AllWs(wsv) && AllWs(post) && GoodString(key) && Good(c, depth)
            && StrBytes(key) == KeyLit(b).value.0 && TreeOf(c, depth) == v.t
            && b == pre + MemberText(key, mid, wsv, c, post + SkipWs(v.rest))
    decreases |b|, 3
  {
    hide Value, Print, Good, TreeOf, SkipWs, KeyLit, GoodString, StrBytes, Text;
    pre, key, mid := KeySound(b);
    wsv, c := ValueSound(KeyLit(b).value.1, depth);
    post := WsOf(Value(KeyLit(b).value.1, depth).rest);
    WsOfIsWs(Value(KeyLit(b).value.1, depth).rest);
  }

  /** The members read from b, after those in keys and vals, are ms. */
  ghost predicate MembersMean(b: seq<Byte>, depth: nat, keys: seq<seq<Byte>>, vals: seq<Tree>, ms: Members) {
    && MembersFrom(b, depth, keys, vals).Ok? && |keys| == |vals|
    && GoodMembers(ms, depth) && |vals| + MemberCount(ms) <= MAX_ITEMS
    && MembersFrom(b, depth, keys, vals).t == TObj(Pairs(keys + MemberKeys(ms, depth), vals + MemberTrees(ms, depth)))
    && b == PrintMembers(ms) + ([CLOSE_OBJ] + MembersFrom(b, depth, keys, vals).rest)
  }

  lemma LastMemberMeans(b: seq<Byte>, depth: nat, keys: seq<seq<Byte>>, vals: seq<Tree>) returns (ms: Members)
    requires |keys| == |vals| && KeyLit(b).Some? && Value(KeyLit(b).value.1, depth).Ok?
    requires MembersFrom(b, depth, keys, vals).Ok?
    requires var s := SkipWs(Value(KeyLit(b).value.1, depth).rest); s != [] && s[0] != COMMA
    ensures MembersMean(b, depth, keys, vals, ms)
    decreases |b|, 4
  {
    hide Value, Print, Good, TreeOf, SkipWs, KeyLit, Pairs, MemberText, StrBytes;
    var pre, key, mid, wsv, c, post := MemberSound(b, depth);
    var s := SkipWs(Value(KeyLit(b).value.1, depth).rest);
    assert s == [s[0]] + s[1..];
    ms := LastMember(pre, key, mid, wsv, c, post);
    LastMemberText(pre, key, mid, wsv, c, post, s);
  }

  lemma MembersComma(b: seq<Byte>, depth: nat, keys: seq<seq<Byte>>, vals: seq<Tree>)
    requires KeyLit(b).Some? && Value(KeyLit(b).value.1, depth).Ok?
    requires var s := SkipWs(Value(KeyLit(b).value.1, depth).rest); s != [] && s[0] == COMMA
    ensures var k, v := KeyLit(b).value, Value(KeyLit(b).value.1, depth);
            MembersFrom(b, depth, keys, vals)
            == MembersFrom(SkipWs(v.rest)[1..], depth, keys + [k.0], vals + [v.t])
  {
    hide Value, KeyLit, SkipWs;
    MembersUnfold(b, depth, keys, vals);
  }

  lemma MoreMembersCons(pre: seq<Byte>, key: seq<Piece>, mid: seq<Byte>, wsv: seq<Byte>, v: Cst, post: seq<Byte>,
                        more: Members, depth: nat, keys: seq<seq<Byte>>, vals: seq<Tree>)
    requires AllWs(pre) && AllWs(mid) && AllWs(wsv) && AllWs(post) && GoodString(key) && Good(v, depth)
    requires GoodMembers(more, depth)
    ensures var ms := MoreMembers(pre, key, mid, wsv, v, post, more);
            && GoodMembers(ms, depth) && MemberCount(ms) == 1 + MemberCount(more)
            && keys + [StrBytes(key)] + MemberKeys(more, depth) == keys + MemberKeys(ms, depth)
            && vals + [TreeOf(v, depth)] + MemberTrees(more, depth) == vals + MemberTrees(ms, depth)
  {
    hide Good, TreeOf, StrBytes;
  }

  lemma MoreMembersMean(b: seq<Byte>, depth: nat, keys: seq<seq<Byte>>, vals: seq<Tree>, more: Members)
    returns (ms: Members)
    requires KeyLit(b).Some? && Value(KeyLit(b).value.1, depth).Ok? && |keys| == |vals|
    requires var s := SkipWs(Value(KeyLit(b).value.1, depth).rest); s != [] && s[0] == COMMA
    requires var k, v := KeyLit(b).value, Value(KeyLit(b).value.1, depth);
             MembersMean(SkipWs(v.rest)[1..], depth, keys + [k.0], vals + [v.t], more)
    ensures MembersMean(b, depth, keys, vals, ms)
    decreases |b|, 4
  {
    hide Value, Print, Good, TreeOf, SkipWs, KeyLit, Pairs, MemberText, StrBytes, MembersFrom, GoodMembers, MemberCount,
         MemberKeys, MemberTrees, PrintMembers;
    MembersComma(b, depth, keys, vals);
    var pre, key, mid, wsv, c, post := MemberSound(b, depth);
    var k, v := KeyLit(b).value, Value(KeyLit(b).value.1, depth);
    var s := SkipWs(v.rest);
    assert s == [COMMA] + s[1..];
    ms := MoreMembers(pre, key, mid, wsv, c, post, more);
    MoreMembersCons(pre, key, mid, wsv, c, post, more, depth, keys, vals);
    MoreMembersText(pre, key, mid, wsv, c, post, more, [CLOSE_OBJ] + MembersFrom(b, depth, keys, vals).rest);
  }

  lemma {:induction false} MembersSound(b: seq<Byte>, depth: nat, keys: seq<seq<Byte>>, vals: seq<Tree>)
    returns (ms: Members)
    requires MembersFrom(b, depth, keys, vals).Ok? && |keys| == |vals|
    ensures MembersMean(b, depth, keys, vals, ms)
    decreases |b|, 5
  {
    hide Value, SkipWs, KeyLit, MembersMean;
    var k, v := KeyLit(b).value, Value(KeyLit(b).value.1, depth);
    var s := SkipWs(v.rest);
    if s[0] == COMMA {
      var more := MembersSound(s[1..], depth, keys + [k.0], vals + [v.t]);
      ms := MoreMembersMean(b, depth, keys, vals, more);
    } else {
      ms := LastMemberMeans(b, depth, keys, vals);
    }
  }

  // ---- whole texts -----------------------------------------------------------------------------

  lemma BomStripped(d: Doc)
    requires GoodDoc(d)
    ensures StripBom(DocText(d)) == d.pre + (Print(d.v) + d.post)
  {
    hide Print;
    var b := d.pre + (Print(d.v) + d.post);
    PrintStart(d.v, 0);
    if d.bom {
      assert DocText(d) == BOM + b && (BOM + b)[3..] == b;
    } else {
      assert DocText(d) == b;
      assert b[0] != 0xEF by {
        if d.pre == [] {
          assert b == Print(d.v) + d.post;
        } else {
          assert b[0] == d.pre[0] && IsWs(d.pre[0]);
        }
      }
    }
  }

  /** Parsing any printed text returns the value it denotes. */
  lemma DocComplete(d: Doc)
    requires GoodDoc(d)
    ensures ParseDoc(DocText(d)) == Some(TreeOf(d.v, 0))
  {
    hide Value, Print, TreeOf, StripBom, DocText;
    BomStripped(d);
    PrintStart(d.v, 0);
    assert (Print(d.v) + d.post)[0] == Print(d.v)[0];
    StopsAt(d.post, []);
    assert d.post + [] == d.post;
    ValueOver(d.pre, Print(d.v) + d.post, 0);
    ValueComplete(d.v, 0, d.post);
    SkipWsOver(d.post, []);
  }

  lemma BomSplit(b: seq<Byte>)
    ensures b == (if BOM <= b then BOM else []) + StripBom(b)
  {
  }

  /** Whatever is accepted is a grammatical text denoting that value. */
  lemma DocSound(b: seq<Byte>) returns (d: Doc)
    requires ParseDoc(b).Some?
    ensures GoodDoc(d) && DocText(d) == b && TreeOf(d.v, 0) == ParseDoc(b).value
  {
    hide Value, Print, TreeOf, Good, SkipWs, StripBom;
    BomSplit(b);
    var pre, c := ValueSound(StripBom(b), 0);
    var post := Value(StripBom(b), 0).rest;
    WsOfIsWs(post);
    assert WsOf(post) == post;
    d := Doc(BOM <= b, pre, c, post);
  }

  /** Accepted exactly when grammatical, and then with the value it denotes. */
  lemma AcceptsExactly(b: seq<Byte>, t: Tree)
    ensures ParseDoc(b) == Some(t) <==> exists d :: GoodDoc(d) && DocText(d) == b && TreeOf(d.v, 0) == t
  {
    if ParseDoc(b) == Some(t) {
      var d := DocSound(b);
    }
    if d :| GoodDoc(d) && DocText(d) == b && TreeOf(d.v, 0) == t {
      DocComplete(d);
    }
  }
}
