/** The parser against the alphabet: what every byte it tells apart is as a character, what the escapes
    denote, and a writer whose texts are read back as the values they were written from. */
module JsonText {
  import opened Basics
  import opened JsonGrammar
  import opened JsonParse
  import opened JsonAccept
  import opened HttpHead

  // ---- the alphabet ------------------------------------------------------------------------------

  /** Structure, literals and whitespace of sections 2 and 3 of RFC 8259. */
  lemma Alphabet()
    ensures Bytes("\"\\,:-.0u[]{}/")
         == [QUOTE, BACKSLASH, COMMA, COLON, MINUS, DOT, ZERO, LOWER_U, OPEN_ARR, CLOSE_ARR, OPEN_OBJ, CLOSE_OBJ, 47]
    ensures TRUE_TEXT == Bytes("true") && FALSE_TEXT == Bytes("false") && NULL_TEXT == Bytes("null")
  {
  }

  lemma Classes(b: Byte)
    ensures IsWs(b) <==> b in [' ' as int, '\t' as int, '\n' as int, '\r' as int]
    ensures IsDigit(b) <==> '0' as int <= b <= '9' as int
  {
  }

  /** The two-character escapes of section 7. */
  lemma Escapes(e: Byte)
    ensures Simple(e) == match e as char
                         case '"' => Some('"' as int)
                         case '\\' => Some('\\' as int)
                         case '/' => Some('/' as int)
                         case 'b' => Some(8)
                         case 'f' => Some(12)
                         case 'n' => Some('\n' as int)
                         case 'r' => Some('\r' as int)
                         case 't' => Some('\t' as int)
                         case _ => None
  {
  }

  // ---- hexadecimal -------------------------------------------------------------------------------

  const LOWER: string := "0123456789abcdef"
  const UPPER: string := "0123456789ABCDEF"

  /** The digits are these, in either case, and nothing else is one. */
  lemma HexDigits(b: Byte, d: nat)
    requires d < 16
    ensures HexDigit(b) == Some(d) <==> b == LOWER[d] as int || b == UPPER[d] as int
  {
  }

  function Four(v: nat): (h: seq<Byte>)
    requires v < 65536
    ensures |h| == 4
  {
    [LOWER[v / 4096] as int % 256, LOWER[v / 256 % 16] as int % 256, LOWER[v / 16 % 16] as int % 256,
     LOWER[v % 16] as int % 256]
  }

  lemma LetterRead(d: nat)
    requires d < 16
    ensures HexDigit(LOWER[d] as int % 256) == Some(d)
  {
    HexDigits(LOWER[d] as int, d);
  }

  lemma FourRead(v: nat)
    requires v < 65536
    ensures Hex4(Four(v)) == Some(v)
  {
    hide HexDigit;
    LetterRead(v / 4096);
    LetterRead(v / 256 % 16);
    LetterRead(v / 16 % 16);
    LetterRead(v % 16);
    Sixteens(v);
  }

  lemma Sixteens(v: nat)
    requires v < 65536
    ensures v == 4096 * (v / 4096) + 256 * (v / 256 % 16) + 16 * (v / 16 % 16) + v % 16
  {
    var a, b, c := v / 16, v / 256, v / 4096;
    assert b == a / 16 && c == b / 16;
  }

  // ---- surrogates --------------------------------------------------------------------------------

  /** UTF-16: the pair of a code point from 0x10000 up is read as that code point. */
  lemma PairInverts(cp: nat)
    requires 0x10000 <= cp < 0x110000
    ensures var hi, lo := 0xD800 + (cp - 0x10000) / 1024, 0xDC00 + (cp - 0x10000) % 1024;
            IsHigh(hi) && IsLow(lo) && PairValue(hi, lo) == cp
  {
  }

  // ---- strings -----------------------------------------------------------------------------------

  lemma QuoteTexts()
    ensures Bytes("\"") == [QUOTE] && Bytes("\\u") == [BACKSLASH, LOWER_U]
    ensures Bytes("\"\\u") == [QUOTE, BACKSLASH, LOWER_U]
  {
  }

  /** A text of one string literal of one piece. */
  lemma OnePiece(p: Piece)
    requires GoodPiece(p)
    ensures ParseDoc([QUOTE] + PieceText(p) + [QUOTE]) == Some(TStr(PieceBytes(p)))
  {
    hide ParseDoc, Text, StrBytes, GoodPiece, PieceText, PieceBytes, AllWs, GoodPieces;
    var d := Doc(false, [], CStr([p]), []);
    NoWs();
    OneText(p);
    assert Good(d.v, 0) && TreeOf(d.v, 0) == TStr(PieceBytes(p));
    DocComplete(d);
    assert DocText(d) == [] + [] + ([QUOTE] + Text([p]) + [QUOTE]) + [];
    assert [] + [] + ([QUOTE] + PieceText(p) + [QUOTE]) + [] == [QUOTE] + PieceText(p) + [QUOTE];
  }

  lemma OneText(p: Piece)
    requires GoodPiece(p)
    ensures GoodString([p]) && Text([p]) == PieceText(p) && StrBytes([p]) == PieceBytes(p)
  {
    hide GoodPiece, PieceBytes;
    assert Text([p]) == PieceText(p) + Text([]);
    assert StrBytes([p]) == PieceBytes(p) + StrBytes([]);
    assert GoodPiece([p][0]);
    assert |PieceText(p)| <= 12 by {
      PieceSize(p);
    }
  }

  lemma PieceSize(p: Piece)
    requires GoodPiece(p)
    ensures |PieceText(p)| <= 12
  {
    hide Hex4;
  }

  /** A code point below 0x10000 that is no surrogate, escaped, is read as its UTF-8 bytes. */
  lemma UnitRead(cp: nat)
    requires cp < 0x10000 && !(0xD800 <= cp <= 0xDFFF)
    ensures ParseDoc(Bytes("\"\\u") + Four(cp) + Bytes("\"")) == Some(TStr(Utf8(cp)))
  {
    hide ParseDoc, Utf8, Four, Bytes;
    QuoteTexts();
    FourRead(cp);
    OnePiece(Uni(Four(cp)));
    assert Bytes("\"\\u") + Four(cp) + Bytes("\"") == [QUOTE] + ([BACKSLASH, LOWER_U] + Four(cp)) + [QUOTE];
  }

  /** Any other code point is read from its two UTF-16 escapes. */
  lemma SurrogatesRead(cp: nat)
    requires 0x10000 <= cp < 0x110000
    ensures var hi, lo := 0xD800 + (cp - 0x10000) / 1024, 0xDC00 + (cp - 0x10000) % 1024;
            ParseDoc(Bytes("\"\\u") + Four(hi) + Bytes("\\u") + Four(lo) + Bytes("\"")) == Some(TStr(Utf8(cp)))
  {
    PairInverts(cp);
    PairRead(0xD800 + (cp - 0x10000) / 1024, 0xDC00 + (cp - 0x10000) % 1024);
  }

  lemma PairRead(hi: nat, lo: nat)
    requires IsHigh(hi) && IsLow(lo)
    ensures ParseDoc(Bytes("\"\\u") + Four(hi) + Bytes("\\u") + Four(lo) + Bytes("\""))
         == Some(TStr(Utf8(PairValue(hi, lo))))
  {
    hide ParseDoc, Utf8, Four, Bytes, Hex4, PairValue;
    QuoteTexts();
    FourRead(hi);
    FourRead(lo);
    OnePiece(Pair(Four(hi), Four(lo)));
    assert Bytes("\"\\u") + Four(hi) + Bytes("\\u") + Four(lo) + Bytes("\"")
        == [QUOTE] + ([BACKSLASH, LOWER_U] + Four(hi) + [BACKSLASH, LOWER_U] + Four(lo)) + [QUOTE];
  }

  lemma KnownUnits()
    ensures Four(0xD83D) == [100, 56, 51, 100] && Four(0xDE00) == [100, 101, 48, 48]
  {
    assert LOWER[13] == 'd' && LOWER[8] == '8' && LOWER[3] == '3' && LOWER[14] == 'e' && LOWER[0] == '0';
  }

  lemma KnownText()
    ensures Bytes("\"\\ud83d\\ude00\"") == [34, 92, 117, 100, 56, 51, 100, 92, 117, 100, 101, 48, 48, 34]
  {
  }

  /** For one: U+1F600. */
  lemma KnownPair()
    ensures ParseDoc(Bytes("\"\\ud83d\\ude00\"")) == Some(TStr([0xF0, 0x9F, 0x98, 0x80]))
  {
    hide ParseDoc, Bytes, Four;
    PairRead(0xD83D, 0xDE00);
    QuoteTexts();
    KnownUnits();
    KnownText();
    assert Bytes("\"\\ud83d\\ude00\"")
        == Bytes("\"\\u") + Four(0xD83D) + Bytes("\\u") + Four(0xDE00) + Bytes("\"");
  }

  // ---- a writer ------------------------------------------------------------------------------------

  function Escaped(b: Byte): seq<Byte> {
    if b == '"' as int then Bytes("\\\"")
    else if b == '\\' as int then Bytes("\\\\")
    else if b == '\n' as int then Bytes("\\n")
    else if b == '\r' as int then Bytes("\\r")
    else if b == '\t' as int then Bytes("\\t")
    else if b == 8 then Bytes("\\b")
    else if b == 12 then Bytes("\\f")
    else if b < 32 then Bytes("\\u") + Four(b)
    else [b]
  }

  function AllEscaped(s: seq<Byte>): seq<Byte> {
    if s == [] then [] else Escaped(s[0]) + AllEscaped(s[1..])
  }

  function Quoted(s: seq<Byte>): seq<Byte> {
    Bytes("\"") + AllEscaped(s) + Bytes("\"")
  }

  function Integer(i: int): seq<Byte> {
    if i < 0 then Bytes("-") + Dec(-i) else Dec(i)
  }

  function Written(t: Tree): seq<Byte>
    decreases t, 1
  {
    match t
    case TNull => Bytes("null")
    case TFalse => Bytes("false")
    case TTrue => Bytes("true")
    case TInt(i) => Integer(i)
    case TNum(token) => token
    case TStr(s) => Quoted(s)
    case TArr(a) => Bytes("[") + WrittenItems(a) + Bytes("]")
    case TObj(o) => Bytes("{") + WrittenMembers(o) + Bytes("}")
  }

  function WrittenItems(a: seq<Tree>): seq<Byte>
    decreases a, 0
  {
    if a == [] then []
    else if |a| == 1 then Written(a[0])
    else Written(a[0]) + Bytes(",") + WrittenItems(a[1..])
  }

  function WrittenMember(m: (seq<Byte>, Tree)): seq<Byte>
    decreases m, 2
  {
    Quoted(m.0) + Bytes(":") + Written(m.1)
  }

  function WrittenMembers(o: seq<(seq<Byte>, Tree)>): seq<Byte>
    decreases o, 0
  {
    if o == [] then []
    else if |o| == 1 then WrittenMember(o[0])
    else WrittenMember(o[0]) + Bytes(",") + WrittenMembers(o[1..])
  }

  /** Values the parser has room for: integers of 64 bits, literals of fewer than 2^32 bytes, fewer than 2^31
      items a container, and containers nested at most 2^20 deep.  Numbers that are no such integers are
      not written. */
  predicate Roomy(t: Tree, depth: nat)
    decreases t
  {
    match t
    case TNull => true
    case TFalse => true
    case TTrue => true
    case TInt(i) => -9223372036854775808 <= i <= 9223372036854775807
    case TNum(_) => false
    case TStr(s) => |AllEscaped(s)| < 4294967296
    case TArr(a) => depth < 1048576 && |a| < 2147483648 && forall i: nat :: i < |a| ==> Roomy(a[i], depth + 1)
    case TObj(o) =>
      depth < 1048576 && |o| < 2147483648
      && forall i: nat :: i < |o| ==> |AllEscaped(o[i].0)| < 4294967296 && Roomy(o[i].1, depth + 1)
  }

  // ---- the writer's texts are grammatical ------------------------------------------------------------

  function PieceOf(b: Byte): Piece {
    if b == 34 then Esc(34)
    else if b == 92 then Esc(92)
    else if b == 10 then Esc(110)
    else if b == 13 then Esc(114)
    else if b == 9 then Esc(116)
    else if b == 8 then Esc(98)
    else if b == 12 then Esc(102)
    else if b < 32 then Uni(Four(b))
    else Raw(b)
  }

  lemma EscapeTexts()
    ensures Bytes("\\\"") == [92, 34] && Bytes("\\\\") == [92, 92] && Bytes("\\n") == [92, 110]
    ensures Bytes("\\r") == [92, 114] && Bytes("\\t") == [92, 116] && Bytes("\\b") == [92, 98]
    ensures Bytes("\\f") == [92, 102]
  {
  }

  lemma PieceIs(b: Byte)
    ensures GoodPiece(PieceOf(b)) && PieceText(PieceOf(b)) == Escaped(b) && PieceBytes(PieceOf(b)) == [b]
  {
    hide Bytes, Four, Hex4;
    EscapeTexts();
    QuoteTexts();
    if b < 32 {
      FourRead(b);
    }
  }

  function PiecesOf(s: seq<Byte>): seq<Piece> {
    if s == [] then [] else [PieceOf(s[0])] + PiecesOf(s[1..])
  }

  lemma {:induction false} PiecesAre(s: seq<Byte>)
    ensures GoodPieces(PiecesOf(s)) && Text(PiecesOf(s)) == AllEscaped(s) && StrBytes(PiecesOf(s)) == s
  {
    hide PieceOf, GoodPiece, PieceText, PieceBytes, Escaped;
    if s != [] {
      PieceIs(s[0]);
      PiecesAre(s[1..]);
      assert PiecesOf(s)[1..] == PiecesOf(s[1..]);
    }
  }

  lemma {:induction false} DecDigits(n: nat)
    ensures AllDigits(Dec(n)) && Digits(Dec(n)) == n
    decreases n
  {
    if n >= 10 {
      DecDigits(n / 10);
      assert Dec(n)[..|Dec(n)| - 1] == Dec(n / 10);
    }
  }

  function NumberOf(i: int): Number {
    Number(i < 0, Dec(if i < 0 then -i else i), None, None)
  }

  lemma ZeroText()
    ensures Dec(0) == [48] && Bytes("-") == [MINUS]
  {
  }

  lemma NumberIs(i: int)
    requires -9223372036854775808 <= i <= 9223372036854775807
    ensures GoodNumber(NumberOf(i)) && NumberText(NumberOf(i)) == Integer(i) && NumberTree(NumberOf(i)) == TInt(i)
  {
    hide Dec, Digits, AllDigits, Bytes;
    var m := if i < 0 then -i else i;
    DecDigits(m);
    DecRoundTrip(m);
    ZeroText();
    assert Dec(m) + [] + [] == Dec(m) && [] + Dec(m) == Dec(m);
    assert [MINUS] + Dec(m) + [] + [] == [MINUS] + Dec(m);
  }

  function CstOf(t: Tree): Cst
    decreases t, 1
  {
    match t
    case TNull => CNull
    case TFalse => CFalse
    case TTrue => CTrue
    case TInt(i) => CNum(NumberOf(i))
    case TNum(_) => CNull
    case TStr(s) => CStr(PiecesOf(s))
    case TArr(a) => if a == [] then CEmptyArr([]) else CArr(ElemsOf(a))
    case TObj(o) => if o == [] then CEmptyObj([]) else CObj(MembersOf(o))
  }

  function ElemsOf(a: seq<Tree>): Elems
    requires a != []
    decreases a, 0
  {
    if |a| == 1 then LastElem([], CstOf(a[0]), []) else MoreElems([], CstOf(a[0]), [], ElemsOf(a[1..]))
  }

  function MembersOf(o: seq<(seq<Byte>, Tree)>): Members
    requires o != []
    decreases o, 0
  {
    if |o| == 1 then LastMember([], PiecesOf(o[0].0), [], [], MemberCst(o[0]), [])
    else MoreMembers([], PiecesOf(o[0].0), [], [], MemberCst(o[0]), [], MembersOf(o[1..]))
  }

  function MemberCst(m: (seq<Byte>, Tree)): Cst
    decreases m, 2
  {
    CstOf(m.1)
  }

  /** The tree is good, prints as what is written, and denotes the value. */
  ghost predicate Means(t: Tree, depth: nat) {
    Good(CstOf(t), depth) && Print(CstOf(t)) == Written(t) && TreeOf(CstOf(t), depth) == t
  }

  ghost predicate ElemsMean(a: seq<Tree>, depth: nat)
    requires a != []
  {
    && GoodElems(ElemsOf(a), depth) && PrintElems(ElemsOf(a)) == WrittenItems(a)
    && ElemCount(ElemsOf(a)) == |a| && ElemTrees(ElemsOf(a), depth) == a
  }

  ghost predicate MembersMean(o: seq<(seq<Byte>, Tree)>, depth: nat)
    requires o != []
  {
    var ms := MembersOf(o);
    && GoodMembers(ms, depth) && PrintMembers(ms) == WrittenMembers(o) && MemberCount(ms) == |o|
    && (forall i: nat :: i < |o| ==> MemberKeys(ms, depth)[i] == o[i].0 && MemberTrees(ms, depth)[i] == o[i].1)
  }

  lemma ArrMeans(a: seq<Tree>, depth: nat)
    requires depth < 1048576 && |a| < 2147483648 && (a != [] ==> ElemsMean(a, depth + 1))
    ensures Means(TArr(a), depth)
  {
    hide WrittenItems, PrintElems, GoodElems, ElemTrees, ElemsOf, Bytes, AllWs;
    BracketTexts();
    NoWs();
    NothingWritten();
  }

  lemma NothingWritten()
    ensures WrittenItems([]) == [] && WrittenMembers([]) == []
  {
  }

  lemma ObjMeans(o: seq<(seq<Byte>, Tree)>, depth: nat)
    requires depth < 1048576 && |o| < 2147483648 && (o != [] ==> MembersMean(o, depth + 1))
    ensures Means(TObj(o), depth)
  {
    hide WrittenMembers, PrintMembers, GoodMembers, MemberKeys, MemberTrees, MembersOf, Bytes, AllWs;
    BracketTexts();
    NoWs();
    NothingWritten();
    if o != [] {
      var ms := MembersOf(o);
      assert Pairs(MemberKeys(ms, depth + 1), MemberTrees(ms, depth + 1)) == o;
    }
  }

  lemma NoWs()
    ensures AllWs([])
  {
  }

  lemma BracketTexts()
    ensures Bytes("[") == [OPEN_ARR] && Bytes("]") == [CLOSE_ARR] && Bytes(",") == [COMMA]
    ensures Bytes("{") == [OPEN_OBJ] && Bytes("}") == [CLOSE_OBJ] && Bytes(":") == [COLON]
  {
  }

  lemma ScalarMeans(t: Tree, depth: nat)
    requires Roomy(t, depth) && !t.TArr? && !t.TObj?
    ensures Means(t, depth)
  {
    hide Bytes, GoodNumber, NumberText, NumberTree, Integer, NumberOf;
    WordTexts();
    QuoteTexts();
    match t
    case TInt(i) => NumberIs(i);
    case TStr(s) => PiecesAre(s);
    case _ =>
  }

  lemma WordTexts()
    ensures TRUE_TEXT == Bytes("true") && FALSE_TEXT == Bytes("false") && NULL_TEXT == Bytes("null")
  {
  }

  lemma {:induction false} TreeMeans(t: Tree, depth: nat)
    requires Roomy(t, depth)
    ensures Means(t, depth)
    decreases t, 1
  {
    hide Means, ElemsMean, MembersMean;
    match t
    case TArr(a) =>
      if a != [] {
        ItemsMean(a, depth + 1);
      }
      ArrMeans(a, depth);
    case TObj(o) =>
      if o != [] {
        AllMembersMean(o, depth + 1);
      }
      ObjMeans(o, depth);
    case _ =>
      ScalarMeans(t, depth);
  }

  /** One item more at the front. */
  lemma ItemsCons(a: seq<Tree>, depth: nat)
    requires a != [] && Means(a[0], depth) && (|a| > 1 ==> ElemsMean(a[1..], depth))
    ensures ElemsMean(a, depth)
  {
    hide CstOf, Print, Good, TreeOf, Written, Bytes, AllWs;
    BracketTexts();
    NoWs();
    if |a| > 1 {
      assert [] + Print(CstOf(a[0])) + [] + [COMMA] + PrintElems(ElemsOf(a[1..]))
          == Written(a[0]) + [COMMA] + WrittenItems(a[1..]);
    } else {
      assert [] + Print(CstOf(a[0])) + [] == Written(a[0]);
    }
  }

  lemma {:induction false} ItemsMean(a: seq<Tree>, depth: nat)
    requires a != [] && forall i: nat :: i < |a| ==> Roomy(a[i], depth)
    ensures ElemsMean(a, depth)
    decreases a, 0
  {
    hide Means, ElemsMean, Roomy;
    TreeMeans(a[0], depth);
    if |a| > 1 {
      ItemsMean(a[1..], depth);
    }
    ItemsCons(a, depth);
  }

  ghost predicate MemberMeans(m: (seq<Byte>, Tree), depth: nat) {
    && GoodString(PiecesOf(m.0)) && StringText(PiecesOf(m.0)) == Quoted(m.0) && StrBytes(PiecesOf(m.0)) == m.0
    && Means(m.1, depth)
  }

  lemma {:induction false} OneMemberMeans(m: (seq<Byte>, Tree), depth: nat)
    requires |AllEscaped(m.0)| < 4294967296 && Roomy(m.1, depth)
    ensures MemberMeans(m, depth)
    decreases m, 2
  {
    hide Means;
    QuoteTexts();
    PiecesAre(m.0);
    TreeMeans(m.1, depth);
  }

  lemma MemberCstIs(m: (seq<Byte>, Tree), depth: nat)
    requires Means(m.1, depth)
    ensures var c := MemberCst(m);
            Good(c, depth) && Print(c) == Written(m.1) && TreeOf(c, depth) == m.1
  {
  }

  lemma LastMean(o: seq<(seq<Byte>, Tree)>, depth: nat)
    requires |o| == 1 && MemberMeans(o[0], depth)
    ensures MembersMean(o, depth)
  {
    hide Means, Bytes, AllWs, GoodString, StringText, PiecesOf, StrBytes, Quoted, MemberCst;
    BracketTexts();
    NoWs();
    MemberCstIs(o[0], depth);
    assert [] + Quoted(o[0].0) + [] + [COLON] + [] + Written(o[0].1) + [] == Quoted(o[0].0) + [COLON] + Written(o[0].1);
    var ms := MembersOf(o);
    assert GoodMembers(ms, depth);
    assert PrintMembers(ms) == [] + StringText(PiecesOf(o[0].0)) + [] + [COLON] + [] + Print(MemberCst(o[0])) + [];
    assert WrittenMember(o[0]) == Quoted(o[0].0) + [COLON] + Written(o[0].1);
  }

  lemma MoreMean(o: seq<(seq<Byte>, Tree)>, depth: nat)
    requires |o| > 1 && MemberMeans(o[0], depth) && MembersMean(o[1..], depth)
    ensures MembersMean(o, depth)
  {
    hide Means, Bytes, AllWs, GoodString, StringText, PiecesOf, StrBytes, Quoted, MemberCst;
    BracketTexts();
    NoWs();
    MemberCstIs(o[0], depth);
    var k, v := Quoted(o[0].0), Written(o[0].1);
    var ms, more := MembersOf(o), MembersOf(o[1..]);
    assert [] + k + [] + [COLON] + [] + v + [] + [COMMA] + PrintMembers(more)
        == k + [COLON] + v + [COMMA] + WrittenMembers(o[1..]);
    assert PrintMembers(ms) == [] + StringText(PiecesOf(o[0].0)) + [] + [COLON] + [] + Print(MemberCst(o[0])) + []
                               + [COMMA] + PrintMembers(more);
    assert WrittenMember(o[0]) == k + [COLON] + v;
    assert GoodMembers(ms, depth);
    forall i: nat | i < |o|
      ensures MemberKeys(ms, depth)[i] == o[i].0 && MemberTrees(ms, depth)[i] == o[i].1
    {
      if i > 0 {
        assert MemberKeys(ms, depth)[i] == MemberKeys(more, depth)[i - 1];
        assert MemberTrees(ms, depth)[i] == MemberTrees(more, depth)[i - 1];
      }
    }
  }

  lemma {:induction false} AllMembersMean(o: seq<(seq<Byte>, Tree)>, depth: nat)
    requires o != []
    requires forall i: nat :: i < |o| ==> |AllEscaped(o[i].0)| < 4294967296 && Roomy(o[i].1, depth)
    ensures MembersMean(o, depth)
    decreases o, 0
  {
    hide MemberMeans, MembersMean, Roomy, AllEscaped;
    OneMemberMeans(o[0], depth);
    if |o| > 1 {
      AllMembersMean(o[1..], depth);
      MoreMean(o, depth);
    } else {
      LastMean(o, depth);
    }
  }

  /** What is written is read back. */
  lemma WrittenIsRead(t: Tree)
    requires Roomy(t, 0)
    ensures ParseDoc(Written(t)) == Some(t)
  {
    hide ParseDoc, CstOf, Written, Good, Print, TreeOf;
    TreeMeans(t, 0);
    var d := Doc(false, [], CstOf(t), []);
    DocComplete(d);
    assert DocText(d) == Written(t);
  }

  // ---- nothing beyond the caps is accepted -------------------------------------------------------------

  /** What an accepted text denotes, whatever its spelling.  A number token that is kept as text is never
      the text of a 64-bit integer. */
  ghost predicate Within(t: Tree, depth: nat)
    decreases t
  {
    match t
    case TNull => true
    case TFalse => true
    case TTrue => true
    case TInt(i) => -9223372036854775808 <= i <= 9223372036854775807
    case TNum(token) => Kept(token)
    case TStr(s) => |s| < 4294967296
    case TArr(a) => depth < 1048576 && |a| < 2147483648 && forall i: nat :: i < |a| ==> Within(a[i], depth + 1)
    case TObj(o) =>
      depth < 1048576 && |o| < 2147483648
      && forall i: nat :: i < |o| ==> |o[i].0| < 4294967296 && Within(o[i].1, depth + 1)
  }

  ghost predicate Kept(token: seq<Byte>) {
    forall i: int :: -9223372036854775808 <= i <= 9223372036854775807 ==> token != Integer(i)
  }

  /** A fraction or an exponent shows in the text. */
  lemma OnlyDigits(n: Number)
    requires GoodNumber(n)
    ensures var ds := n.ip + FracText(n.frac) + ExpText(n.exp);
            if n.frac.None? && n.exp.None? then ds == n.ip else !AllDigits(ds)
  {
    var ds := n.ip + FracText(n.frac) + ExpText(n.exp);
    if n.frac.Some? {
      assert ds[|n.ip|] == DOT;
    } else if n.exp.Some? {
      assert ds == n.ip + ExpText(n.exp);
      assert ds[|n.ip|] == n.exp.value.e;
    } else {
      assert n.ip + [] + [] == n.ip;
    }
  }

  lemma SignIs(n: Number, i: int, m: nat)
    requires GoodNumber(n) && NumberText(n) == Integer(i) && m == (if i < 0 then -i else i) && AllDigits(Dec(m))
    ensures n.neg == (i < 0) && n.ip + FracText(n.frac) + ExpText(n.exp) == Dec(m)
  {
    hide Dec, Digits, Bytes, FracText, ExpText;
    var sign, t := if n.neg then [MINUS] else [], NumberText(n);
    var rest := n.ip + FracText(n.frac) + ExpText(n.exp);
    SignTexts();
    assert t == sign + rest;
    assert Dec(m)[0] != MINUS && n.ip[0] != MINUS;
    assert t[0] == if n.neg then MINUS else n.ip[0];
    assert t[0] == if i < 0 then MINUS else Dec(m)[0];
    assert t[|sign|..] == rest;
  }

  /** Of an integer's text, the sign and the magnitude are known. */
  lemma IntegerIs(n: Number, i: int)
    requires GoodNumber(n) && NumberText(n) == Integer(i)
    ensures n.frac.None? && n.exp.None? && IntValue(n) == i
  {
    hide GoodNumber, NumberText, Integer, Digits, AllDigits, Dec, FracText, ExpText;
    var m := if i < 0 then -i else i;
    DecDigits(m);
    SignIs(n, i, m);
    OnlyDigits(n);
  }

  lemma SignTexts()
    ensures Bytes("-") == [MINUS] && MINUS == 45
  {
  }

  lemma NumberWithin(n: Number, depth: nat)
    requires GoodNumber(n)
    ensures Within(NumberTree(n), depth)
  {
    hide IntValue, NumberText, Integer;
    if NumberTree(n).TNum? {
      forall i: int | -9223372036854775808 <= i <= 9223372036854775807 ensures NumberText(n) != Integer(i) {
        if NumberText(n) == Integer(i) {
          IntegerIs(n, i);
        }
      }
    }
  }

  lemma {:induction false} StringWithin(ps: seq<Piece>)
    requires GoodPieces(ps)
    ensures |StrBytes(ps)| <= |Text(ps)|
  {
    hide GoodPiece, PieceBytes, PieceText;
    if ps != [] {
      StringWithin(ps[1..]);
      Shrinks(ps[0]);
    }
  }

  lemma Shrinks(p: Piece)
    requires GoodPiece(p)
    ensures |PieceBytes(p)| <= |PieceText(p)|
  {
    hide Hex4, Simple;
  }

  lemma {:induction false} TreeWithin(c: Cst, depth: nat)
    requires Good(c, depth)
    ensures Within(TreeOf(c, depth), depth)
    decreases c
  {
    hide GoodNumber, NumberTree, StrBytes, GoodPieces, Text;
    match c
    case CNull =>
    case CTrue =>
    case CFalse =>
    case CEmptyArr(_) =>
    case CEmptyObj(_) =>
    case CNum(n) => NumberWithin(n, depth);
    case CStr(ps) => StringWithin(ps);
    case CArr(es) => ElemsWithin(es, depth + 1);
    case CObj(ms) => MembersWithin(ms, depth + 1);
  }

  lemma {:induction false} ElemsWithin(es: Elems, depth: nat)
    requires GoodElems(es, depth)
    ensures forall i: nat :: i < ElemCount(es) ==> Within(ElemTrees(es, depth)[i], depth)
    decreases es
  {
    hide Within;
    TreeWithin(es.v, depth);
    if es.MoreElems? {
      ElemsWithin(es.rest, depth);
    }
  }

  lemma {:induction false} MembersWithin(ms: Members, depth: nat)
    requires GoodMembers(ms, depth)
    ensures forall i: nat :: i < MemberCount(ms) ==>
      |MemberKeys(ms, depth)[i]| < 4294967296 && Within(MemberTrees(ms, depth)[i], depth)
    decreases ms
  {
    hide Within, StrBytes, GoodPieces, Text;
    TreeWithin(ms.v, depth);
    StringWithin(ms.key);
    if ms.MoreMembers? {
      MembersWithin(ms.rest, depth);
    }
  }

  /** No text is accepted whose value is beyond the caps, and no integer of 64 bits is left as text. */
  lemma AcceptedIsWithin(b: seq<Byte>)
    requires ParseDoc(b).Some?
    ensures Within(ParseDoc(b).value, 0)
  {
    hide Within, ParseDoc, Good, TreeOf, Print;
    var d := DocSound(b);
    TreeWithin(d.v, 0);
  }
}
