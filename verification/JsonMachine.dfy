/** The parser itself: a goto machine over an input buffer and three stacks (values, pending
    keys, open containers), proved to return exactly what the recursive reading returns. */
module JsonMachine {
  import opened Basics
  import opened JsonGrammar
  import opened JsonParse
  import JsonAccept
  import JsonScan

  /** An open container: where its values and keys start on their stacks. */
  datatype Cent = Cent(isObj: bool, vbase: nat, kbase: nat)

  datatype Label = WantValue | WantKey | CloseContainer | HaveValue

  datatype Next = Goto(l: Label) | Done(t: Tree) | Stop(st: Status)

  /** What the recursive reading makes of the rest, once the value in progress is r. */
  function Resume(vs: seq<Tree>, ks: seq<seq<Byte>>, cs: seq<Cent>, r: Res): Option<Tree>
    decreases |cs|
  {
    if r.Fail? then None
    else if cs == [] then Finish(r)
    else
      var top := cs[|cs| - 1];
      if top.vbase > |vs| || top.kbase > |ks| then None
      else
        Resume(vs[..top.vbase], ks[..top.kbase], cs[..|cs| - 1],
               if top.isObj then MembersAfter(r.rest, |cs|, ks[top.kbase..], vs[top.vbase..] + [r.t])
               else ElemsAfter(r.rest, |cs|, vs[top.vbase..] + [r.t]))
  }

  /** Every open object has one key more than values, open arrays have none: a value is due. */
  predicate Shape(nv: nat, nk: nat, cs: seq<Cent>)
    decreases |cs|
  {
    if cs == [] then nv == 0 && nk == 0
    else
      var top := cs[|cs| - 1];
      && top.vbase <= nv && top.kbase <= nk
      && (if top.isObj then nk - top.kbase == nv - top.vbase + 1 else nk == top.kbase)
      && Shape(top.vbase, top.kbase, cs[..|cs| - 1])
  }

  /** One frame of the continuation. */
  lemma ResumeOne(vs: seq<Tree>, ks: seq<seq<Byte>>, cs: seq<Cent>, r: Res)
    requires cs != [] && cs[|cs| - 1].vbase <= |vs| && cs[|cs| - 1].kbase <= |ks|
    ensures var top := cs[|cs| - 1];
            Resume(vs, ks, cs, r)
            == Resume(vs[..top.vbase], ks[..top.kbase], cs[..|cs| - 1],
                      if r.Fail? then Res.Fail
                      else if top.isObj then MembersAfter(r.rest, |cs|, ks[top.kbase..], vs[top.vbase..] + [r.t])
                      else ElemsAfter(r.rest, |cs|, vs[top.vbase..] + [r.t]))
  {
    hide MembersAfter, ElemsAfter, Finish;
  }

  /** A value has just been completed inside an open container. */
  lemma HaveUnfold(vs: seq<Tree>, ks: seq<seq<Byte>>, cs: seq<Cent>, rest: seq<Byte>)
    requires vs != [] && cs != [] && Shape(|vs| - 1, |ks|, cs)
    ensures var top := cs[|cs| - 1];
            Resume(vs[..|vs| - 1], ks, cs, Ok(vs[|vs| - 1], rest))
            == Resume(vs[..top.vbase], ks[..top.kbase], cs[..|cs| - 1],
                      if top.isObj then MembersAfter(rest, |cs|, ks[top.kbase..], vs[top.vbase..])
                      else ElemsAfter(rest, |cs|, vs[top.vbase..]))
  {
    hide MembersAfter, ElemsAfter, Resume;
    var top := cs[|cs| - 1];
    var v0 := vs[..|vs| - 1];
    ResumeOne(v0, ks, cs, Ok(vs[|vs| - 1], rest));
    assert v0[top.vbase..] + [vs[|vs| - 1]] == vs[top.vbase..];
    assert v0[..top.vbase] == vs[..top.vbase];
  }

  /** A value is due inside an open array. */
  lemma ElemDue(vs: seq<Tree>, ks: seq<seq<Byte>>, cs: seq<Cent>, b: seq<Byte>)
    requires cs != [] && Shape(|vs|, |ks|, cs) && !cs[|cs| - 1].isObj
    ensures var top := cs[|cs| - 1];
            Resume(vs, ks, cs, Value(b, |cs|))
            == Resume(vs[..top.vbase], ks[..top.kbase], cs[..|cs| - 1], ElemsFrom(b, |cs|, vs[top.vbase..]))
  {
    hide Value, ElemsAfter, Resume;
    ResumeOne(vs, ks, cs, Value(b, |cs|));
  }

  lemma MembersFromKey(b: seq<Byte>, depth: nat, keys: seq<seq<Byte>>, vals: seq<Tree>)
    ensures KeyLit(b).None? ==> MembersFrom(b, depth, keys, vals) == Res.Fail
    ensures KeyLit(b).Some? ==>
      var (k, rest) := KeyLit(b).value;
      MembersFrom(b, depth, keys, vals)
      == var v := Value(rest, depth);
         if v.Fail? then Res.Fail else MembersAfter(v.rest, depth, keys + [k], vals + [v.t])
  {
    hide Value, MembersAfter, KeyLit;
  }

  lemma SliceSnoc<T>(s: seq<T>, x: T, i: nat)
    requires i <= |s|
    ensures (s + [x])[i..] == s[i..] + [x] && (s + [x])[..i] == s[..i]
  {
  }

  lemma ResumeMember(vs: seq<Tree>, ks: seq<seq<Byte>>, cs: seq<Cent>, k: seq<Byte>, v: Res)
    requires cs != [] && cs[|cs| - 1].isObj && cs[|cs| - 1].vbase <= |vs| && cs[|cs| - 1].kbase <= |ks|
    ensures var top := cs[|cs| - 1];
            Resume(vs, ks + [k], cs, v)
            == Resume(vs[..top.vbase], ks[..top.kbase], cs[..|cs| - 1],
                      if v.Fail? then Res.Fail
                      else MembersAfter(v.rest, |cs|, ks[top.kbase..] + [k], vs[top.vbase..] + [v.t]))
  {
    hide ElemsAfter, MembersAfter, Resume;
    ResumeOne(vs, ks + [k], cs, v);
    SliceSnoc(ks, k, cs[|cs| - 1].kbase);
  }

  /** A key has just been read inside an open object. */
  lemma MemberDue(vs: seq<Tree>, ks: seq<seq<Byte>>, cs: seq<Cent>, b: seq<Byte>)
    requires cs != [] && cs[|cs| - 1].isObj && KeyLit(b).Some?
    requires cs[|cs| - 1].vbase <= |vs| && cs[|cs| - 1].kbase <= |ks|
    ensures var top := cs[|cs| - 1];
            Resume(vs, ks + [KeyLit(b).value.0], cs, Value(KeyLit(b).value.1, |cs|))
            == Resume(vs[..top.vbase], ks[..top.kbase], cs[..|cs| - 1],
                      MembersFrom(b, |cs|, ks[top.kbase..], vs[top.vbase..]))
  {
    hide Value, MembersAfter, KeyLit, MembersFrom, Resume;
    var top := cs[|cs| - 1];
    ResumeMember(vs, ks, cs, KeyLit(b).value.0, Value(KeyLit(b).value.1, |cs|));
    MembersFromKey(b, |cs|, ks[top.kbase..], vs[top.vbase..]);
  }

  /** What is due after a value, by the kind of container. */
  lemma ShapeHave(nv: nat, nk: nat, cs: seq<Cent>)
    requires nv > 0 && cs != [] && Shape(nv - 1, nk, cs)
    ensures var top := cs[|cs| - 1];
            && top.vbase <= nv && top.kbase <= nk && Shape(top.vbase, top.kbase, cs[..|cs| - 1])
            && (if top.isObj then nk - top.kbase == nv - top.vbase && Shape(nv, nk + 1, cs)
                else nk == top.kbase && Shape(nv, nk, cs))
  {
  }

  /** After an item and whitespace: a comma, the closing bracket, or neither. */
  function ItemEnd(c: seq<Byte>, depth: nat, isObj: bool, keys: seq<seq<Byte>>, vals: seq<Tree>): Res {
    if c != [] && c[0] == COMMA then
      if isObj then MembersFrom(c[1..], depth, keys, vals) else ElemsFrom(c[1..], depth, vals)
    else if c != [] && c[0] == Closer(isObj) then
      if isObj then CloseObj(keys, vals, c[1..]) else CloseArr(vals, c[1..])
    else Res.Fail
  }

  lemma AfterItem(b: seq<Byte>, depth: nat, isObj: bool, keys: seq<seq<Byte>>, vals: seq<Tree>)
    ensures (if isObj then MembersAfter(b, depth, keys, vals) else ElemsAfter(b, depth, vals))
         == ItemEnd(SkipWs(b), depth, isObj, keys, vals)
  {
    hide SkipWs, MembersFrom, ElemsFrom, CloseObj, CloseArr;
  }

  /** A completed value inside a container, seen past the whitespace behind it. */
  lemma ItemDue(vs: seq<Tree>, ks: seq<seq<Byte>>, cs: seq<Cent>, rest: seq<Byte>)
    requires vs != [] && cs != [] && Shape(|vs| - 1, |ks|, cs)
    requires cs[|cs| - 1].vbase <= |vs| && cs[|cs| - 1].kbase <= |ks|
    ensures var top := cs[|cs| - 1];
            Resume(vs[..|vs| - 1], ks, cs, Ok(vs[|vs| - 1], rest))
            == Resume(vs[..top.vbase], ks[..top.kbase], cs[..|cs| - 1],
                      ItemEnd(SkipWs(rest), |cs|, top.isObj, ks[top.kbase..], vs[top.vbase..]))
  {
    hide Resume, SkipWs, Shape, ElemsAfter, MembersAfter, ItemEnd;
    var top := cs[|cs| - 1];
    HaveUnfold(vs, ks, cs, rest);
    AfterItem(rest, |cs|, top.isObj, ks[top.kbase..], vs[top.vbase..]);
  }

  /** A bracket at the front. */
  lemma BracketIs(c: seq<Byte>, depth: nat)
    requires c != [] && (c[0] == OPEN_OBJ || c[0] == OPEN_ARR)
    ensures ValueAt(c, depth)
         == if depth >= MAX_DEPTH then Res.Fail else Opened(c[0] == OPEN_OBJ, SkipWs(c[1..]), depth + 1)
  {
    hide Opened, SkipWs;
  }

  /** Opening a container hides the stacks below it. */
  lemma PushOpens(vs: seq<Tree>, ks: seq<seq<Byte>>, cs: seq<Cent>, isObj: bool)
    requires Shape(|vs|, |ks|, cs)
    ensures var cs' := cs + [Cent(isObj, |vs|, |ks|)];
            && cs'[..|cs'| - 1] == cs && vs[..|vs|] == vs && ks[..|ks|] == ks && vs[|vs|..] == [] && ks[|ks|..] == []
            && (isObj ==> Shape(|vs|, |ks| + 1, cs')) && (!isObj ==> Shape(|vs|, |ks|, cs'))
  {
  }

  lemma CloseNothing(isObj: bool, rest: seq<Byte>)
    ensures (if isObj then CloseObj([], [], rest) else CloseArr([], rest)) ==
      Ok(if isObj then TObj([]) else TArr([]), rest)
  {
    assert Pairs([], []) == [];
  }

  /** Past the byte order mark, a whole text's value is due. */
  lemma AtStart(buf: seq<Byte>, p: nat)
    requires p == if |buf| >= 3 && buf[0] == 0xEF && buf[1] == 0xBB && buf[2] == 0xBF then 3 else 0
    ensures buf[p..] == StripBom(buf) && Resume([], [], [], Value(StripBom(buf), 0)) == ParseDoc(buf)
  {
    hide Value;
    assert BOM <= buf <==> p == 3;
  }

  lemma SkipWsNext(b: seq<Byte>)
    ensures SkipWs(b) == if b != [] && IsWs(b[0]) then SkipWs(b[1..]) else b
  {
  }

  class Parser {
    const buf: seq<Byte>
    var p: nat
    var vs: seq<Tree>
    var ks: seq<seq<Byte>>
    var cs: seq<Cent>

    function Rest(): seq<Byte>
      reads this
      requires p <= |buf|
    {
      buf[p..]
    }

    ghost predicate AtValue(target: Option<Tree>)
      reads this
    {
      && p <= |buf| && Shape(|vs|, |ks|, cs)
      && target == Resume(vs, ks, cs, Value(Rest(), |cs|))
    }

    function Top(): Cent
      reads this
      requires cs != []
    {
      cs[|cs| - 1]
    }

    ghost predicate AtKey(target: Option<Tree>)
      reads this
    {
      && p <= |buf| && cs != [] && Top().isObj && Shape(|vs|, |ks| + 1, cs)
      && Top().kbase <= |ks|
      && target == Resume(vs[..Top().vbase], ks[..Top().kbase], cs[..|cs| - 1],
                          MembersFrom(Rest(), |cs|, ks[Top().kbase..], vs[Top().vbase..]))
    }

    ghost predicate AtHave(target: Option<Tree>)
      reads this
    {
      && p <= |buf| && vs != [] && Shape(|vs| - 1, |ks|, cs)
      && target == Resume(vs[..|vs| - 1], ks, cs, Ok(vs[|vs| - 1], Rest()))
    }

    ghost predicate AtClose(target: Option<Tree>)
      reads this
    {
      && p <= |buf| && cs != [] && Top().vbase <= |vs| && Top().kbase <= |ks|
      && (if Top().isObj then |ks| - Top().kbase == |vs| - Top().vbase else |ks| == Top().kbase)
      && Shape(Top().vbase, Top().kbase, cs[..|cs| - 1])
      && target == Resume(vs[..Top().vbase], ks[..Top().kbase], cs[..|cs| - 1],
                          if Top().isObj then CloseObj(ks[Top().kbase..], vs[Top().vbase..], Rest())
                          else CloseArr(vs[Top().vbase..], Rest()))
    }

    ghost predicate At(l: Label, target: Option<Tree>)
      reads this
    {
      match l
      case WantValue => AtValue(target)
      case WantKey => AtKey(target)
      case CloseContainer => AtClose(target)
      case HaveValue => AtHave(target)
    }

    /** Where a step leads keeps the target; a stop delivers it. */
    ghost predicate Led(n: Next, target: Option<Tree>)
      reads this
    {
      match n
      case Goto(l) => At(l, target)
      case Done(t) => target == Some(t)
      case Stop(st) => st == Format && target == None
    }

    constructor (buf: seq<Byte>)
      ensures this.buf == buf && AtValue(ParseDoc(buf))
    {
      hide ParseDoc, StripBom, Value, Resume;
      this.buf := buf;
      p := if |buf| >= 3 && buf[0] == 0xEF && buf[1] == 0xBB && buf[2] == 0xBF then 3 else 0;
      vs, ks, cs := [], [], [];
      new;
      AtStart(buf, p);
    }

    /** skip_ws. */
    method SkipWhite()
      requires p <= |buf|
      modifies `p
      ensures old(p) <= p <= |buf| && Rest() == SkipWs(old(Rest()))
    {
      hide SkipWs;
      while p < |buf| && IsWs(buf[p])
        invariant old(p) <= p <= |buf| && SkipWs(Rest()) == SkipWs(old(Rest()))
      {
        SkipWsNext(Rest());
        assert Rest()[1..] == buf[p + 1..];
        p := p + 1;
      }
      SkipWsNext(Rest());
    }

    /** A bracket: push an open container. */
    method Open(ghost target: Option<Tree>) returns (n: Next)
      requires p < |buf| && (buf[p] == OPEN_OBJ || buf[p] == OPEN_ARR) && Shape(|vs|, |ks|, cs)
      requires target == Resume(vs, ks, cs, ValueAt(Rest(), |cs|))
      modifies `p, `cs
      ensures Led(n, target) && p >= old(p) && (n.Goto? ==> p > old(p))
    {
      hide Shape, Opened, ValueAt, Resume, Parser.At, SkipWs;
      var isObj := buf[p] == OPEN_OBJ;
      BracketIs(Rest(), |cs|);
      FailIsNone(vs, ks, cs);
      if |cs| >= MAX_DEPTH {
        return Stop(Format);
      }
      assert Rest()[1..] == buf[p + 1..];
      p := p + 1;
      SkipWhite();
      n := Inside(isObj, target);
    }

    /** The first thing inside a new container. */
    method Inside(isObj: bool, ghost target: Option<Tree>) returns (n: Next)
      requires p <= |buf| && Shape(|vs|, |ks|, cs)
      requires target == Resume(vs, ks, cs, Opened(isObj, Rest(), |cs| + 1))
      modifies `p, `cs
      ensures Led(n, target) && p >= old(p) && (n == Goto(CloseContainer) ==> p > old(p)) && n.Goto?
    {
      hide Shape, MembersFrom, ElemsFrom, Resume;
      PushOpens(vs, ks, cs, isObj);
      cs := cs + [Cent(isObj, |vs|, |ks|)];
      assert cs[..|cs| - 1] == old(cs);
      if p < |buf| && buf[p] == Closer(isObj) {
        CloseNothing(isObj, buf[p + 1..]);
        assert Rest()[1..] == buf[p + 1..];
        p := p + 1;
        return Goto(CloseContainer);
      }
      if isObj {
        return Goto(WantKey);
      }
      ElemDue(vs, ks, cs, Rest());
      return Goto(WantValue);
    }

    /** A scalar: push it. */
    method StepScalar(ghost target: Option<Tree>) returns (n: Next)
      requires p < |buf| && Shape(|vs|, |ks|, cs) && target == Resume(vs, ks, cs, Scalar(Rest()))
      modifies `p, `vs
      ensures Led(n, target) && p >= old(p) && (n.Goto? ==> p > old(p))
    {
      hide Resume, StringLit, NumberLit, NumberTree, Literal, Shape;
      FailIsNone(vs, ks, cs);
      var c := buf[p];
      assert Rest()[0] == c && Rest()[1..] == buf[p + 1..];
      var ok, t, q := false, TNull, p;
      if c == QUOTE {
        var str;
        ok, str, q := JsonScan.ParseString(buf, p + 1);
        t := TStr(str);
      } else if c == 116 || c == 102 || c == 110 {
        ok, t, q := LiteralAt();
      } else if c == MINUS || IsDigit(c) {
        ok, t, q := JsonScan.ParseNumber(buf, p);
      }
      if !ok {
        return Stop(Format);
      }
      p := q;
      vs := vs + [t];
      assert vs[..|vs| - 1] == old(vs);
      return Goto(HaveValue);
    }

    method LiteralAt() returns (ok: bool, t: Tree, q: nat)
      requires p < |buf|
      ensures ok <==> Literal(Rest()).Ok?
      ensures ok ==> p < q <= |buf| && Literal(Rest()) == Ok(t, buf[q..])
    {
      ok, t, q := true, TNull, p;
      if |buf| - p >= 4 && buf[p..p + 4] == TRUE_TEXT {
        assert Rest()[..4] == TRUE_TEXT && Rest()[4..] == buf[p + 4..];
        t, q := TTrue, p + 4;
      } else if |buf| - p >= 5 && buf[p..p + 5] == FALSE_TEXT {
        assert Rest()[..5] == FALSE_TEXT && Rest()[5..] == buf[p + 5..];
        assert Rest()[0] == 102;
        t, q := TFalse, p + 5;
      } else if |buf| - p >= 4 && buf[p..p + 4] == NULL_TEXT {
        assert Rest()[..4] == NULL_TEXT && Rest()[4..] == buf[p + 4..];
        assert Rest()[0] == 110;
        t, q := TNull, p + 4;
      } else {
        assert |buf| - p >= 4 ==> Rest()[..4] == buf[p..p + 4];
        assert |buf| - p >= 5 ==> Rest()[..5] == buf[p..p + 5];
        ok := false;
      }
    }

    /** want_value. */
    method StepValue(ghost target: Option<Tree>) returns (n: Next)
      requires AtValue(target)
      modifies `p, `vs, `cs
      ensures Led(n, target) && p >= old(p) && (n.Goto? ==> p > old(p))
    {
      hide Shape, Scalar, Resume, Value, ValueAt, SkipWs;
      ValueIs(Rest(), |cs|);
      FailIsNone(vs, ks, cs);
      SkipWhite();
      if p >= |buf| {
        return Stop(Format);
      }
      if buf[p] == OPEN_OBJ || buf[p] == OPEN_ARR {
        n := Open(target);
      } else {
        n := StepScalar(target);
      }
    }

    method Colon(key: seq<Byte>) returns (ok: bool)
      requires p <= |buf|
      modifies `p
      ensures old(p) <= p <= |buf|
      ensures ok <==> KeyColon(Some((key, old(Rest())))).Some?
      ensures ok ==> KeyColon(Some((key, old(Rest())))) == Some((key, Rest()))
    {
      hide SkipWs;
      SkipWhite();
      if p >= |buf| || buf[p] != COLON {
        return false;
      }
      assert Rest()[1..] == buf[p + 1..];
      p := p + 1;
      ok := true;
    }

    /** A key up to its colon. */
    method ReadKey() returns (ok: bool, key: seq<Byte>)
      requires p <= |buf|
      modifies `p
      ensures old(p) <= p <= |buf|
      ensures ok <==> KeyLit(old(Rest())).Some?
      ensures ok ==> p > old(p) && KeyLit(old(Rest())) == Some((key, Rest()))
    {
      hide StringLit, SkipWs, KeyColon;
      SkipWhite();
      ok, key := false, [];
      if p >= |buf| || buf[p] != QUOTE {
        return;
      }
      assert Rest()[1..] == buf[p + 1..];
      var q;
      ok, key, q := JsonScan.ParseString(buf, p + 1);
      if !ok {
        return;
      }
      p := q;
      ok := Colon(key);
    }

    /** want_key. */
    method StepKey(ghost target: Option<Tree>) returns (n: Next)
      requires AtKey(target)
      modifies `p, `ks
      ensures Led(n, target) && p >= old(p) && (n.Goto? ==> p > old(p))
    {
      hide Resume, Value, MembersFrom, KeyLit, MembersAfter, ElemsAfter, ItemEnd, ValueAt;
      ghost var b := Rest();
      FailIsNone(vs[..Top().vbase], ks[..Top().kbase], cs[..|cs| - 1]);
      MembersFromKey(b, |cs|, ks[Top().kbase..], vs[Top().vbase..]);
      var ok, key := ReadKey();
      if !ok {
        return Stop(Format);
      }
      MemberDue(vs, ks, cs, b);
      ks := ks + [key];
      return Goto(WantValue);
    }

    /** close_container: the container's items leave the stacks, the container takes their place. */
    method StepClose(ghost target: Option<Tree>) returns (n: Next)
      requires AtClose(target)
      modifies `vs, `ks, `cs
      ensures Led(n, target) && (n.Goto? ==> n.l == HaveValue)
    {
      hide Resume, Shape;
      FailIsNone(vs[..Top().vbase], ks[..Top().kbase], cs[..|cs| - 1]);
      var top := Top();
      var nv := |vs| - top.vbase;
      if nv > MAX_ITEMS {
        return Stop(Format);
      }
      var t;
      if top.isObj {
        var nk := |ks| - top.kbase;
        if nk != nv {
          assert false;
        }
        var pairs := BuildPairs(top);
        t := TObj(pairs);
        ks := ks[..top.kbase];
      } else {
        t := TArr(vs[top.vbase..]);
        assert ks[..top.kbase] == ks;
      }
      vs := vs[..top.vbase] + [t];
      cs := cs[..|cs| - 1];
      assert vs[..|vs| - 1] == old(vs[..top.vbase]);
      return Goto(HaveValue);
    }

    method BuildPairs(top: Cent) returns (pairs: seq<(seq<Byte>, Tree)>)
      requires top.vbase <= |vs| && top.kbase <= |ks| && |ks| - top.kbase == |vs| - top.vbase
      ensures pairs == Pairs(ks[top.kbase..], vs[top.vbase..])
    {
      pairs := [];
      var i := 0;
      while i < |vs| - top.vbase
        invariant 0 <= i <= |vs| - top.vbase
        invariant |pairs| == i && forall j: nat :: j < i ==> pairs[j] == (ks[top.kbase + j], vs[top.vbase + j])
      {
        pairs := pairs + [(ks[top.kbase + i], vs[top.vbase + i])];
        i := i + 1;
      }
    }

    /** have_value. */
    method StepHave(ghost target: Option<Tree>) returns (n: Next)
      requires AtHave(target)
      modifies `p
      ensures Led(n, target) && p >= old(p) && (n.Goto? ==> p > old(p))
    {
      hide Parser.AtHave, Parser.At;
      if cs == [] {
        n := StepDone(target);
      } else {
        n := StepItem(target);
      }
    }

    method StepItem(ghost target: Option<Tree>) returns (n: Next)
      requires AtHave(target) && cs != []
      modifies `p
      ensures Led(n, target) && p >= old(p) && (n.Goto? ==> p > old(p))
    {
      hide Resume, SkipWs, Shape, ItemEnd, Parser.At, Parser.Led;
      ShapeHave(|vs|, |ks|, cs);
      ItemDue(vs, ks, cs, Rest());
      SkipWhite();
      n := Separator(target);
    }

    /** A comma goes on, a matching bracket closes. */
    method Separator(ghost target: Option<Tree>) returns (n: Next)
      requires p <= |buf| && vs != [] && cs != [] && Shape(|vs| - 1, |ks|, cs)
      requires Top().vbase <= |vs| && Top().kbase <= |ks|
      requires target == Resume(vs[..Top().vbase], ks[..Top().kbase], cs[..|cs| - 1],
                                ItemEnd(Rest(), |cs|, Top().isObj, ks[Top().kbase..], vs[Top().vbase..]))
      modifies `p
      ensures Led(n, target) && p >= old(p) && (n.Goto? ==> p > old(p))
    {
      hide Resume, Value, ElemsFrom, MembersFrom, Shape, CloseArr, CloseObj;
      ShapeHave(|vs|, |ks|, cs);
      FailIsNone(vs[..Top().vbase], ks[..Top().kbase], cs[..|cs| - 1]);
      if p >= |buf| {
        return Stop(Format);
      }
      var c, inObj := buf[p], Top().isObj;
      assert Rest()[0] == c && Rest()[1..] == buf[p + 1..];
      if c == COMMA {
        p := p + 1;
        if inObj {
          return Goto(WantKey);
        }
        ElemDue(vs, ks, cs, Rest());
        return Goto(WantValue);
      }
      if c == Closer(inObj) {
        p := p + 1;
        return Goto(CloseContainer);
      }
      return Stop(Format);
    }

    /** done: only whitespace may follow, and the value stack holds the root alone. */
    method StepDone(ghost target: Option<Tree>) returns (n: Next)
      requires AtHave(target) && cs == []
      modifies `p
      ensures Led(n, target) && !n.Goto? && p >= old(p)
    {
      SkipWhite();
      if p != |buf| {
        return Stop(Format);
      }
      if |vs| != 1 {
        assert false;
      }
      return Done(vs[0]);
    }

    method Step(l: Label, ghost target: Option<Tree>) returns (n: Next)
      requires At(l, target)
      modifies this
      ensures Led(n, target) && p >= old(p)
      ensures n.Goto? ==> p <= |buf| && (p > old(p) || (l == CloseContainer && n.l == HaveValue))
    {
      hide Resume, Shape;
      match l {
        case WantValue => n := StepValue(target);
        case WantKey => n := StepKey(target);
        case CloseContainer => n := StepClose(target);
        case HaveValue => n := StepHave(target);
      }
    }

    lemma StartsAt(target: Option<Tree>)
      requires AtValue(target)
      ensures At(WantValue, target) && p <= |buf|
    {
    }

    /** s2p_json_parse: the machine stops, and with exactly the recursive reading's answer. */
    method Parse() returns (n: Next)
      requires AtValue(ParseDoc(buf))
      modifies this
      ensures if n.Done? then ParseDoc(buf) == Some(n.t) else n == Stop(Format) && ParseDoc(buf) == None
    {
      hide Parser.At, Parser.AtValue, ParseDoc;
      ghost var target := ParseDoc(buf);
      StartsAt(target);
      n := Goto(WantValue);
      while n.Goto?
        invariant Led(n, target) && (n.Goto? ==> p <= |buf|)
        decreases |buf| - p, if n == Goto(CloseContainer) then 1 else 0, if n.Goto? then 1 else 0
      {
        n := Step(n.l, target);
      }
    }
  }

  /** A value by its first byte. */
  lemma ValueIs(b: seq<Byte>, depth: nat)
    ensures var c := SkipWs(b);
            Value(b, depth) == ValueAt(c, depth)
            && (c == [] ==> ValueAt(c, depth) == Res.Fail)
            && (c != [] && c[0] != OPEN_OBJ && c[0] != OPEN_ARR ==> ValueAt(c, depth) == Scalar(c))
  {
    hide Scalar, Opened, SkipWs;
  }

  lemma FailIsNone(vs: seq<Tree>, ks: seq<seq<Byte>>, cs: seq<Cent>)
    ensures Resume(vs, ks, cs, Res.Fail) == None
  {
  }

  /** The parser accepts exactly the grammar's texts, and returns the value each denotes. */
  method ParseText(buf: seq<Byte>) returns (st: Status, t: Tree)
    ensures st == OK || st == Format
    ensures st == OK <==> exists d :: GoodDoc(d) && DocText(d) == buf
    ensures st == OK ==> exists d :: GoodDoc(d) && DocText(d) == buf && TreeOf(d.v, 0) == t
  {
    var parser := new Parser(buf);
    var n := parser.Parse();
    if n.Done? {
      ghost var d := JsonAccept.DocSound(buf);
      return OK, n.t;
    }
    forall d | GoodDoc(d) && DocText(d) == buf ensures false {
      JsonAccept.DocComplete(d);
    }
    return Format, TNull;
  }
}
