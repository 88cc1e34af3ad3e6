/** A batched push against pushing the sessions one after another, for any roster. */
module BatchAgree {
  import opened Basics
  import opened Kernels
  import opened Codec
  import opened Whole
  import opened Scratch
  import opened Incremental
  import opened Tables
  import opened BatchWalk
  import opened Batch

  // ---- the frames fed determine the state ---------------------------------------------------

  /** Two devices with the same first n key and value rows in every layer and the same convolution
      histories. */
  ghost predicate SameHistories(n: nat, a: Device, b: Device) {
    && |a.kh| == |b.kh| && (forall l: nat :: l < |a.kh| ==>
      n <= |a.kh[l]| && n <= |b.kh[l]| && a.kh[l][..n] == b.kh[l][..n])
    && |a.vh| == |b.vh| && (forall l: nat :: l < |a.vh| ==>
      n <= |a.vh[l]| && n <= |b.vh[l]| && a.vh[l][..n] == b.vh[l][..n])
    && a.cnx == b.cnx && a.c0 == b.c0 && a.up == b.up && a.ru == b.ru && a.cf == b.cf
  }

  /** Two streams no later push or collect can tell apart. */
  ghost predicate SameState(a: Inc, b: Inc)
    reads a, b
  {
    && a.pos == b.pos && a.kvLen == b.kvLen && a.pending == b.pending && SameHistories(a.kvLen, a.dev, b.dev)
    && (a.pending > 0 ==> a.dev.pcm == b.dev.pcm)
  }

  /** Two streams of one codec that have taken the same frames are in the same state. */
  lemma SameFramesSameState(a: Inc, b: Inc)
    requires a.Valid() && b.Valid() && a.dac.net == b.dac.net && a.fed == b.fed && a.pending == b.pending
    ensures SameState(a, b)
  {
    hide StateIs, Decode, SameHistories;
    StateDetermined(a.dac.net, Latents(a.dac.net, a.fed), a.dev, b.dev);
    if a.pending > 0 {
      var head := Decode(a.dac.net, a.fed[..|a.fed| - a.pending]);
      assert (head + a.dev.pcm)[|head|..] == a.dev.pcm;
      assert (head + b.dev.pcm)[|head|..] == b.dev.pcm;
    }
  }

  lemma StateDetermined(net: Net, z: seq<Col>, a: Device, b: Device)
    requires StateIs(net, z, a) && StateIs(net, z, b)
    ensures SameHistories(Keep(|z|), a, b)
  {
    hide HistOf, UpHist, RuHist, KeyTail, ValueTail;
    var x := Cnx1(net, z);
    forall l: nat | l < net.layers
      ensures KvIs(net, l, z, a.kh[l], a.vh[l]) && KvIs(net, l, z, b.kh[l], b.vh[l])
    {
    }
    forall i: nat | i < 4
      ensures a.up[i] == b.up[i] && a.ru[i] == b.ru[i]
    {
      assert RuIs(net, i, x, a.ru[i]) && RuIs(net, i, x, b.ru[i]);
    }
  }

  // ---- one after another --------------------------------------------------------------------

  /** What a session held before the pushes. */
  datatype Was = Was(pos: nat, pending: nat, fed: seq<Frame>)

  predicate Fits(w: Was, tn: nat) {
    PushStatus(w.pos, w.pending, tn) == OK
  }

  /** The answer to a push of a session that was, or was not, pushed earlier in the roster. */
  function EachStatus(w: Was, again: bool, tn: nat): Status {
    if again && Fits(w, tn) then WrongState else PushStatus(w.pos, w.pending, tn)
  }

  /** The answers to pushes of the sessions in turn. */
  ghost predicate Answered(ss: seq<Inc>, was: seq<Was>, sts: seq<Status>, tn: nat) {
    |sts| == |ss| == |was| && forall i: nat :: i < |ss| ==> sts[i] == EachStatus(was[i], ss[i] in ss[..i], tn)
  }

  /** Two rosters that name their sessions alike. */
  ghost predicate NamedAlike(a: seq<Inc>, b: seq<Inc>) {
    |a| == |b| && forall i: nat, j: nat :: i < |a| && j < |a| ==> (a[i] == a[j] <==> b[i] == b[j])
  }

  ghost function Before(ss: seq<Inc>): (was: seq<Was>)
    reads ss
    ensures |was| == |ss|
  {
    seq(|ss|, j requires 0 <= j < |ss| reads ss => Was(ss[j].pos, ss[j].pending, ss[j].fed))
  }

  /** A session that was pushed, or was not, since it was as `w`. */
  ghost predicate Since(c: Inc, w: Was, pushed: bool, tn: nat)
    reads c
  {
    && c.Valid()
    && (if pushed && Fits(w, tn) then c.pos == w.pos + tn && c.pending == tn
        else c.pos == w.pos && c.pending == w.pending && c.fed == w.fed)
  }

  /** Roster positions below i have been pushed. */
  ghost predicate EachAt(ss: seq<Inc>, i: nat, tn: nat, codes: seq<int>, was: seq<Was>)
    requires i <= |ss| == |was| && |codes| == |ss| * (10 * tn)
    reads ss
  {
    && (forall j: nat :: j < |ss| ==> Since(ss[j], was[j], ss[j] in ss[..i], tn))
    && (forall j: nat :: j < i && ss[j] !in ss[..j] && Fits(was[j], tn) ==>
      ss[j].fed == was[j].fed + Share(codes, j, |ss|, tn))
  }

  method EachNext(ss: seq<Inc>, i: nat, tn: nat, codes: seq<int>, ghost was: seq<Was>) returns (st: Status)
    requires i < |ss| == |was| && 1 <= tn <= MAX_TN && |codes| == |ss| * (10 * tn) && EachAt(ss, i, tn, codes, was)
    requires forall j: nat, k: nat :: j < |ss| && k < |ss| && ss[j] == ss[k] ==> was[j] == was[k]
    modifies ss[i], ss[i].dac
    ensures EachAt(ss, i + 1, tn, codes, was) && st == EachStatus(was[i], ss[i] in ss[..i], tn)
  {
    hide StateIs, Decode, FrameMajor, Packed, Inc.Valid;
    assert Since(ss[i], was[i], ss[i] in ss[..i], tn);
    assert ss[..i + 1] == ss[..i] + [ss[i]];
    st := ss[i].PushAsync(Packed(codes, i, |ss|, tn), tn);
    forall j: nat | j < |ss|
      ensures Since(ss[j], was[j], ss[j] in ss[..i + 1], tn)
    {
      assert old(Since(ss[j], was[j], ss[j] in ss[..i], tn));
    }
  }

  /** s2pd_inc_push_async for every session in turn. */
  method PushEach(ss: seq<Inc>, tn: nat, codes: seq<int>) returns (sts: seq<Status>)
    requires forall i: nat :: i < |ss| ==> ss[i].Valid()
    requires 1 <= tn <= MAX_TN && |codes| == |ss| * (10 * tn)
    modifies ss, set c | c in ss :: c.dac
    ensures Answered(ss, old(Before(ss)), sts, tn)
    ensures EachAt(ss, |ss|, tn, codes, old(Before(ss)))
  {
    hide StateIs, Decode, Share, Inc.Valid;
    ghost var was := Before(ss);
    sts := [];
    for i := 0 to |ss|
      invariant |sts| == i && EachAt(ss, i, tn, codes, was)
      invariant forall j: nat :: j < i ==> sts[j] == EachStatus(was[j], ss[j] in ss[..j], tn)
    {
      var st := EachNext(ss, i, tn, codes, was);
      sts := sts + [st];
    }
  }

  // ---- together against one after another --------------------------------------------------------

  /** Every stream has room for the push below the position limit, which the batch does not check. */
  predicate Roomy(was: seq<Was>, tn: nat) {
    forall i: nat :: i < |was| ==> was[i].pos + tn <= INT32_MAX / 4
  }

  /** No stream could take the push on its own. */
  predicate NoneFits(was: seq<Was>, tn: nat) {
    forall i: nat :: i < |was| ==> !Fits(was[i], tn)
  }

  /** Two rosters of different streams that name them alike and hold the same, position by position. */
  ghost predicate Twins(a: seq<Inc>, b: seq<Inc>)
    reads a, b
  {
    && NamedAlike(a, b) && Before(a) == Before(b)
    && (forall i: nat, j: nat :: i < |a| && j < |b| ==> a[i] != b[j])
    && forall i: nat :: i < |a| ==> a[i].Valid() && b[i].Valid() && a[i].dac.net == b[i].dac.net
  }

  lemma Repeats(ss: seq<Inc>)
    ensures forall i: nat :: i < |ss| ==> Times(ss, ss[i]) >= 1
    ensures Distinct(ss) <==> forall i: nat :: i < |ss| ==> Times(ss, ss[i]) == 1
  {
    if Distinct(ss) {
      TimesAll(ss);
    } else {
      var i: nat, j: nat :| i < j < |ss| && ss[i] == ss[j];
      assert ss == ss[..j] + [ss[j]] + ss[j + 1..];
      assert ss[i] in ss[..j];
      assert Times(ss, ss[j]) >= 2;
    }
  }

  /** Where the batch leaves every stream. */
  ghost function Batched(ss: seq<Inc>, was: seq<Was>, ready: bool, tn: nat): (p: seq<nat>)
    requires |was| == |ss|
    ensures |p| == |ss|
  {
    seq(|ss|, i requires 0 <= i < |ss| == |was| => was[i].pos + if ready then tn * Times(ss, ss[i]) else 0)
  }

  /** Where the single pushes leave every stream. */
  ghost function Single(was: seq<Was>, tn: nat): (p: seq<nat>)
    ensures |p| == |was|
  {
    seq(|was|, i requires 0 <= i < |was| => was[i].pos + if Fits(was[i], tn) then tn else 0)
  }

  /** The two leave the same positions exactly when the roster is distinct and in room, or when the
      batch is refused and no stream would have been accepted alone. */
  lemma SamePositions(ss: seq<Inc>, was: seq<Was>, ready: bool, tn: nat)
    requires |was| == |ss| && 1 <= tn <= MAX_TN && (ready ==> forall i: nat :: i < |was| ==> was[i].pending == 0)
    ensures Batched(ss, was, ready, tn) == Single(was, tn) <==>
      if ready then Distinct(ss) && Roomy(was, tn) else NoneFits(was, tn)
  {
    hide Times, Distinct;
    Repeats(ss);
    var b, s := Batched(ss, was, ready, tn), Single(was, tn);
    if b == s {
      forall i: nat | i < |ss|
        ensures ready ==> Times(ss, ss[i]) == 1 && was[i].pos + tn <= INT32_MAX / 4
        ensures !ready ==> !Fits(was[i], tn)
      {
        assert b[i] == s[i];
        OneTime(tn, Times(ss, ss[i]));
      }
    } else {
      var i: nat :| i < |ss| && b[i] != s[i];
    }
  }

  lemma OneTime(tn: nat, k: nat)
    requires tn >= 1 && k >= 1
    ensures tn * k >= tn && (tn * k == tn <==> k == 1)
  {
    if k >= 2 {
      assert tn * k >= tn * 2;
    }
  }

  /** All single pushes are accepted exactly when no stream is named twice and each fits. */
  lemma AllAccepted(ss: seq<Inc>, was: seq<Was>, sts: seq<Status>, tn: nat)
    requires Answered(ss, was, sts, tn)
    ensures (forall i: nat :: i < |ss| ==> sts[i] == OK) <==> Distinct(ss) && forall i: nat :: i < |ss| ==>
      Fits(was[i], tn)
  {
    if forall i: nat :: i < |ss| ==> sts[i] == OK {
      forall i: nat, j: nat | i < j < |ss|
        ensures ss[i] != ss[j]
      {
        assert sts[j] == OK;
        assert ss[i] in ss[..j];
      }
      forall i: nat | i < |ss|
        ensures Fits(was[i], tn)
      {
        assert sts[i] == OK;
      }
    }
  }

  ghost function Positions(ss: seq<Inc>): (p: seq<nat>)
    reads ss
  {
    seq(|ss|, i requires 0 <= i < |ss| reads ss => ss[i].pos)
  }

  /** What a batched push leaves, whether accepted or not. */
  ghost predicate BatchLeft(ss: seq<Inc>, was: seq<Was>, st: Status, tn: nat, codes: seq<int>)
    requires |was| == |ss| && |codes| == |ss| * (10 * tn)
    reads ss
  {
    && Positions(ss) == Batched(ss, was, st == OK, tn)
    && (st == OK && Distinct(ss) ==> forall i: nat :: i < |ss| ==>
         ss[i].Valid() && ss[i].pending == tn && ss[i].fed == was[i].fed + Share(codes, i, |ss|, tn))
  }

  method PushTogether(ss: seq<Inc>, tab: PointerTable, tn: nat, codes: seq<int>) returns (st: Status)
    requires |ss| >= 2 && (forall i: nat :: i < |ss| ==> ss[i].Valid()) && Placed(ss) && tab.Valid()
    requires 1 <= tn <= MAX_TN && |codes| == |ss| * (10 * tn)
    modifies ss, ss[0].dac, tab, tab.pin, tab.dev
    ensures (st == OK <==> old(Ready(ss))) && BatchLeft(ss, old(Before(ss)), st, tn, codes)
  {
    hide StateIs, Decode, Share, Inc.Valid, Times, Distinct, BatchLeft, Describes, Placed;
    ghost var was := Before(ss);
    st := PushBatch(ss, tab, tn, codes);
    LeavesThis(ss, was, st, tn, codes);
  }

  lemma LeavesThis(ss: seq<Inc>, was: seq<Was>, st: Status, tn: nat, codes: seq<int>)
    requires |was| == |ss| && |codes| == |ss| * (10 * tn)
    requires forall i: nat :: i < |ss| ==> ss[i].pos == was[i].pos + if st == OK then tn * Times(ss, ss[i]) else 0
    requires st == OK && Distinct(ss) ==> forall i: nat :: i < |ss| ==>
      ss[i].Valid() && ss[i].pending == tn && ss[i].fed == was[i].fed + Share(codes, i, |ss|, tn)
    ensures BatchLeft(ss, was, st, tn, codes)
  {
    hide Inc.Valid, Share, Times, Distinct;
    assert Positions(ss) == Batched(ss, was, st == OK, tn);
  }

  lemma EachPositions(ss: seq<Inc>, tn: nat, codes: seq<int>, was: seq<Was>)
    requires |was| == |ss| && |codes| == |ss| * (10 * tn) && EachAt(ss, |ss|, tn, codes, was)
    ensures Positions(ss) == Single(was, tn)
  {
    hide Inc.Valid, Share;
    assert ss[..|ss|] == ss;
    forall i: nat | i < |ss|
      ensures Positions(ss)[i] == Single(was, tn)[i]
    {
      assert Since(ss[i], was[i], ss[i] in ss[..|ss|], tn);
    }
  }

  /** Streams pushed with the batch, and their twins pushed alone. */
  lemma TwinStates(a: seq<Inc>, b: seq<Inc>, was: seq<Was>, tn: nat, codes: seq<int>)
    requires |a| == |b| == |was| && |codes| == |a| * (10 * tn)
    requires BatchLeft(a, was, OK, tn, codes) && Distinct(a) && EachAt(b, |b|, tn, codes, was) && Distinct(b)
    requires forall i: nat :: i < |a| ==> Fits(was[i], tn) && a[i].dac.net == b[i].dac.net
    ensures forall i: nat :: i < |a| ==> SameState(a[i], b[i])
  {
    hide StateIs, Decode, Share, Inc.Valid, SameState;
    forall i: nat | i < |a|
      ensures SameState(a[i], b[i])
    {
      assert Since(b[i], was[i], b[i] in b[..|b|], tn) && b[..|b|] == b;
      assert b[i] !in b[..i];
      SameFramesSameState(a[i], b[i]);
    }
  }

  lemma TwinsDistinct(a: seq<Inc>, b: seq<Inc>)
    requires NamedAlike(a, b)
    ensures Distinct(a) <==> Distinct(b)
  {
  }

  /** What follows from the two, position by position and stream by stream. */
  lemma Verdict(a: seq<Inc>, b: seq<Inc>, was: seq<Was>, st: Status, sts: seq<Status>, tn: nat, codes: seq<int>)
    requires |a| == |b| == |was| == |sts| && 1 <= tn <= MAX_TN && |codes| == |a| * (10 * tn)
    requires NamedAlike(a, b)
    requires forall i: nat :: i < |a| ==> a[i].dac.net == b[i].dac.net
    requires BatchLeft(a, was, st, tn, codes) && EachAt(b, |b|, tn, codes, was)
    requires Answered(b, was, sts, tn)
    requires st == OK ==> forall i: nat :: i < |was| ==> was[i].pending == 0
    ensures (st == OK && forall i: nat :: i < |b| ==> sts[i] == OK) <==> st == OK && Distinct(a) && Roomy(was, tn)
    ensures Positions(a) == Batched(a, was, st == OK, tn) && Positions(b) == Single(was, tn)
    ensures Positions(a) == Positions(b) <==> if st == OK then Distinct(a) && Roomy(was, tn) else NoneFits(was, tn)
    ensures st == OK && (forall i: nat :: i < |b| ==> sts[i] == OK) ==> forall i: nat :: i < |a| ==>
      SameState(a[i], b[i])
  {
    hide StateIs, Decode, Share, Inc.Valid, Times, Distinct, SameState, EachAt, Batched, Single;
    EachPositions(b, tn, codes, was);
    SamePositions(a, was, st == OK, tn);
    AllAccepted(b, was, sts, tn);
    TwinsDistinct(a, b);
    if st == OK && forall i: nat :: i < |b| ==> sts[i] == OK {
      TwinStates(a, b, was, tn, codes);
    }
  }

  /** A batched push of one roster and single pushes of its twin.  All are accepted if and only if the
      streams are distinct, idle, of one codec and in room, and then each stream ends in its twin's
      state.  The two leave the same positions also when the batch is refused and no stream would
      have been accepted alone, and in no other case. */
  method PushBoth(a: seq<Inc>, b: seq<Inc>, tab: PointerTable, tn: nat, codes: seq<int>)
    returns (st: Status, sts: seq<Status>)
    requires |a| >= 2 && Twins(a, b) && Placed(a) && tab.Valid()
    requires 1 <= tn <= MAX_TN && |codes| == |a| * (10 * tn)
    modifies a, a[0].dac, b, (set c | c in b :: c.dac), tab, tab.pin, tab.dev
    ensures st == OK <==> old(Ready(a))
    ensures Answered(b, old(Before(b)), sts, tn)
    ensures (st == OK && forall i: nat :: i < |b| ==> sts[i] == OK) <==>
      Distinct(a) && old(Ready(a)) && Roomy(old(Before(a)), tn)
    ensures Positions(a) == Batched(a, old(Before(a)), st == OK, tn) && Positions(b) == Single(old(Before(b)), tn)
    ensures Positions(a) == Positions(b)
       <==> if old(Ready(a)) then Distinct(a) && Roomy(old(Before(a)), tn) else NoneFits(old(Before(a)), tn)
    ensures st == OK && (forall i: nat :: i < |b| ==> sts[i] == OK) ==> forall i: nat :: i < |a| ==>
      SameState(a[i], b[i])
  {
    hide StateIs, Decode, Inc.Valid, Distinct, SameState, Placed, Describes, EachAt, BatchLeft, Batched, Single;
    hide EachStatus, Roomy, NoneFits;
    ghost var was := Before(a);
    st := PushTogether(a, tab, tn, codes);
    sts := PushEach(b, tn, codes);
    Verdict(a, b, was, st, sts, tn, codes);
  }

  // ---- the two ways they differ ------------------------------------------------------------------

  /** A new stream that has been fed 8 * n frames. */
  method FedStream(d: Dac, base: int, n: nat) returns (c: Inc)
    requires 8 * n <= INT32_MAX / 4
    modifies d
    ensures fresh(c) && c.Valid() && c.dac == d && c.base == base && c.pos == 8 * n && c.pending == 0
    ensures c.fed == seq(8 * n, _ => ZERO_FRAME)
  {
    hide StateIs, Decode, Inc.Valid, FrameMajor;
    c := new Inc(d, base);
    for i := 0 to n
      invariant c.Valid() && c.pos == 8 * i && c.pending == 0 && c.fed == seq(8 * i, _ => ZERO_FRAME)
    {
      ZeroFrames(8);
      var st := c.PushAsync(seq(80, _ => 0), 8);
      var pcm := c.Collect();
    }
  }

  const ZERO_FRAME: Frame := seq(10, _ => 0)

  lemma ZeroFrames(tn: nat)
    ensures FrameMajor(seq(10 * tn, _ => 0), tn) == seq(tn, _ => ZERO_FRAME)
  {
    var z, fs := FrameMajor(seq(10 * tn, _ => 0), tn), seq(tn, _ => ZERO_FRAME);
    forall t: nat | t < tn
      ensures z[t] == fs[t]
    {
    }
  }

  /** Two different streams that hold the same. */
  ghost predicate Alike(x: Inc, y: Inc)
    reads x, y
  {
    && x.Valid() && y.Valid() && x != y && x.dac == y.dac
    && x.pos == y.pos && x.pending == y.pending == 0 && x.fed == y.fed
  }

  lemma TwiceNamed(x: Inc, y: Inc)
    requires Alike(x, y)
    ensures Twins([x, x], [y, y]) && Placed([x, x]) && Ready([x, x]) && Times([x, x], x) == 2
    ensures [y, y][..1] == [y]
  {
    hide Inc.Valid;
    var a, b := [x, x], [y, y];
    assert Before(a) == Before(b);
    assert forall i: nat :: i < 2 ==> a[i] == x && b[i] == y;
  }

  method PushTwice(x: Inc, y: Inc, tab: PointerTable) returns (st: Status, sts: seq<Status>)
    requires Alike(x, y) && tab.Valid() && x.pos < INT32_MAX / 4
    modifies x, x.dac, y, tab, tab.pin, tab.dev
    ensures st == OK && sts == [OK, WrongState] && x.pos == old(x.pos) + 2 && y.pos == old(y.pos) + 1
  {
    hide StateIs, Decode, Inc.Valid, Describes, Twins, SameState, Times, Ready, Placed, PointerTable.Valid;
    var a, b := [x, x], [y, y];
    TwiceNamed(x, y);
    ghost var was := Before(b);
    st, sts := PushBoth(a, b, tab, 1, seq(20, _ => 0));
    assert sts[0] == EachStatus(was[0], b[0] in b[..0], 1) && sts[1] == EachStatus(was[1], b[1] in b[..1], 1);
    assert Positions(a)[0] == x.pos && Positions(b)[0] == y.pos;
  }

  /** A session named twice: the batch accepts it and moves it on twice, while the second single push
      is refused. */
  method RepeatedSession(net: Net) returns (st: Status, sts: seq<Status>, batched: nat, single: nat)
    ensures st == OK && sts == [OK, WrongState] && batched == 2 && single == 1
  {
    hide StateIs, Decode, Inc.Valid, Describes;
    var d := new Dac(net);
    var x := FedStream(d, 0, 0);
    var y := FedStream(d, SCRATCH, 0);
    var tab := new PointerTable();
    st, sts := PushTwice(x, y, tab);
    batched, single := x.pos, y.pos;
  }

  lemma PairTwins(x0: Inc, x1: Inc, y0: Inc, y1: Inc)
    requires Alike(x0, y0) && Alike(x1, y1) && x0.dac == x1.dac && BasesApart(x0.base, x1.base)
    requires x0 != y1 && x1 != y0 && x0 != x1 && y0 != y1
    ensures Twins([x0, x1], [y0, y1]) && Placed([x0, x1]) && Ready([x0, x1])
  {
    hide Inc.Valid;
    var a, b := [x0, x1], [y0, y1];
    assert Before(a) == Before(b);
    assert a[0] == x0 && a[1] == x1 && b[0] == y0 && b[1] == y1;
  }

  method PushPair(x0: Inc, x1: Inc, y0: Inc, y1: Inc, tab: PointerTable) returns (st: Status, sts: seq<Status>)
    requires Alike(x0, y0) && Alike(x1, y1) && x0.dac == x1.dac && BasesApart(x0.base, x1.base) && tab.Valid()
    requires x0 != y1 && x1 != y0 && x0 != x1 && y0 != y1
    requires x0.pos + MAX_TN > INT32_MAX / 4 && x1.pos + MAX_TN > INT32_MAX / 4
    modifies x0, x1, x0.dac, y0, y1, tab, tab.pin, tab.dev
    ensures st == OK && sts == [Invalid, Invalid]
  {
    hide StateIs, Decode, Inc.Valid, Describes, Twins, SameState, Times, Ready, Placed;
    var a, b := [x0, x1], [y0, y1];
    PairTwins(x0, x1, y0, y1);
    ghost var was := Before(b);
    st, sts := PushBoth(a, b, tab, 8, seq(160, _ => 0));
    assert sts[0] == EachStatus(was[0], b[0] in b[..0], 8) && sts[1] == EachStatus(was[1], b[1] in b[..1], 8);
  }

  /** Two sessions too near the position limit for eight frames more: each single push is refused,
      the batch goes through. */
  method PastLimit(net: Net) returns (st: Status, sts: seq<Status>)
    ensures st == OK && sts == [Invalid, Invalid]
  {
    hide StateIs, Decode, Inc.Valid, Describes;
    var d := new Dac(net);
    var n := INT32_MAX / 32;
    var x0 := FedStream(d, 0, n);
    var x1 := FedStream(d, SCRATCH, n);
    var y0 := FedStream(d, 2 * SCRATCH, n);
    var y1 := FedStream(d, 3 * SCRATCH, n);
    var tab := new PointerTable();
    st, sts := PushPair(x0, x1, y0, y1, tab);
  }
}
