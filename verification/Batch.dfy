/** The cross-session batched push: one stage-walk for several streams. */
module Batch {
  import opened Basics
  import opened Kernels
  import opened Codec
  import opened Whole
  import opened Scratch
  import opened Incremental
  import opened Ops
  import opened OpsSound
  import opened Tables
  import opened BatchWalk

  ghost predicate Distinct(ss: seq<Inc>) {
    forall i: nat, j: nat :: i < j < |ss| ==> ss[i] != ss[j]
  }

  /** Every session owns its scratch allocation. */
  ghost predicate Placed(ss: seq<Inc>) {
    forall i: nat, j: nat :: i < |ss| && j < |ss| && ss[i] != ss[j] ==> BasesApart(ss[i].base, ss[j].base)
  }

  lemma PlacedApart(ss: seq<Inc>)
    requires Placed(ss) && Distinct(ss)
    ensures Apart(ss)
  {
    forall i: nat, j: nat | i < j < |ss|
      ensures BasesApart(ss[i].base, ss[j].base)
    {
      assert ss[i] != ss[j];
    }
  }

  /** What the roster check looks for: idle streams of one codec. */
  ghost predicate Ready(ss: seq<Inc>)
    reads ss
  {
    forall i: nat :: i < |ss| ==> ss[i].dac == ss[0].dac && ss[i].pending == 0
  }

  ghost function Codecs(ss: seq<Inc>): (cs: seq<Dac>)
    ensures |cs| == |ss|
  {
    seq(|ss|, i requires 0 <= i < |ss| => ss[i].dac)
  }

  ghost function Pendings(ss: seq<Inc>): (ps: seq<nat>)
    reads ss
    ensures |ps| == |ss|
  {
    seq(|ss|, i requires 0 <= i < |ss| reads ss => ss[i].pending)
  }

  /** The first offender from position i on decides: another codec than the first is Invalid, a push
      in flight is WrongState. */
  ghost function Offence(cs: seq<Dac>, ps: seq<nat>, i: nat): Status
    requires |cs| == |ps| && i <= |cs|
    decreases |cs| - i
  {
    if i == |cs| then OK
    else if cs[i] != cs[0] then Invalid
    else if ps[i] != 0 then WrongState
    else Offence(cs, ps, i + 1)
  }

  /** The first session that offends decides for all. */
  lemma {:induction false} FirstOffence(cs: seq<Dac>, ps: seq<nat>, i: nat, k: nat)
    requires |cs| == |ps| && i <= k < |cs| && (cs[k] != cs[0] || ps[k] > 0)
    requires forall j: nat :: i <= j < k ==> cs[j] == cs[0] && ps[j] == 0
    ensures Offence(cs, ps, i) == if cs[k] != cs[0] then Invalid else WrongState
    decreases k - i
  {
    if i < k {
      FirstOffence(cs, ps, i + 1, k);
    }
  }

  lemma {:induction false} NoOffence(cs: seq<Dac>, ps: seq<nat>, i: nat)
    requires |cs| == |ps| && i <= |cs|
    ensures Offence(cs, ps, i) == OK <==> forall j: nat :: i <= j < |cs| ==> cs[j] == cs[0] && ps[j] == 0
    decreases |cs| - i
  {
    if i < |cs| && cs[i] == cs[0] && ps[i] == 0 {
      NoOffence(cs, ps, i + 1);
    }
  }

  lemma ReadyRoster(ss: seq<Inc>)
    requires |ss| > 0
    ensures Offence(Codecs(ss), Pendings(ss), 0) == OK <==> Ready(ss)
  {
    var cs, ps := Codecs(ss), Pendings(ss);
    NoOffence(cs, ps, 0);
    forall i: nat | i < |ss|
      ensures cs[i] == ss[i].dac && ps[i] == ss[i].pending
    {
    }
    if Offence(cs, ps, 0) == OK {
      assert forall i: nat :: i < |ss| ==> ss[i].dac == cs[i] == cs[0] && ss[i].pending == ps[i] == 0;
    }
  }

  method CheckRoster(ss: seq<Inc>) returns (st: Status, maxPos: nat)
    requires |ss| > 0
    ensures st == Offence(Codecs(ss), Pendings(ss), 0) && (st == OK <==> Ready(ss))
    ensures st == OK ==> forall i: nat :: i < |ss| ==> ss[i].pos <= maxPos
  {
    ghost var cs, ps := Codecs(ss), Pendings(ss);
    ReadyRoster(ss);
    maxPos := 0;
    for i := 0 to |ss|
      invariant Offence(cs, ps, 0) == Offence(cs, ps, i)
      invariant forall j: nat :: j < i ==> ss[j].pos <= maxPos
    {
      if ss[i].dac != ss[0].dac {
        return Invalid, maxPos;
      }
      if ss[i].pending != 0 {
        return WrongState, maxPos;
      }
      if ss[i].pos > maxPos {
        maxPos := ss[i].pos;
      }
    }
    st := OK;
  }

  // ---- the walk of a roster --------------------------------------------------------------

  /** Operations leave a single push's buffers alone. */
  lemma {:induction false} RunBuf(net: Net, ops: seq<Op>, v: Sess)
    requires AllReady(ops)
    ensures Run(net, ops, v).d.buf == v.d.buf
  {
    if ops != [] {
      var n: nat := |ops| - 1;
      RunBuf(net, ops[..n], v);
      DoBuf(net, ops[n], Run(net, ops[..n], v));
    }
  }

  lemma DoBuf(net: Net, op: Op, v: Sess)
    requires Ops.Ready(op)
    ensures Do(net, op, v).d.buf == v.d.buf
  {
    hide AttendParts, Write, Read;
  }

  /** A valid stream with the latents of its new frames in scratch stands before the first stage. */
  lemma StreamStarts(net: Net, c: Inc, fs: seq<Frame>, s: Sess)
    requires c.Valid() && c.dac.net == net && 1 <= |fs| <= MAX_TN
    requires s.d == c.dev && s.pos == c.pos && s.hl == c.kvLen && Holds(s.loc, Latents(net, fs))
    ensures StageAt(net, 0, Latents(net, c.fed), Latents(net, c.fed + fs), |fs|, s)
  {
    hide KvUpto, CnxIs, BlocksUpto, HistOf, Decode, FlightIs, Cnx1;
    FlightStarts(net, c.fed, fs, AsDevice(s));
    var p, q := Latents(net, c.fed), Latents(net, c.fed + fs);
    assert p == q[..|p|];
  }

  /** After the program its device holds the longer sequence's state and the new samples. */
  lemma StreamLands(net: Net, p: seq<Col>, q: seq<Col>, tn: nat, v: Sess)
    requires StageAt(net, 8, p, q, tn, v) && |v.d.buf| == ROLES
    ensures FlightIs(net, 8, p, q, v.d)
  {
    hide KvUpto, CnxIs, BlocksUpto, HistOf, Cnx1, Pcm;
  }

  /** The frames of session i in this push. */
  function Share(codes: seq<int>, i: nat, nb: nat, tn: nat): (fs: seq<Frame>)
    requires i < nb && |codes| == nb * (10 * tn)
    ensures |fs| == tn
  {
    FrameMajor(Packed(codes, i, nb, tn), tn)
  }

  /** Codes are packed session by session, frame by frame, ten to a frame. */
  lemma ShareIs(codes: seq<int>, i: nat, nb: nat, tn: nat, t: nat, q: nat)
    requires i < nb && |codes| == nb * (10 * tn) && t < tn && q < 10
    ensures 10 * (i * tn + t) + q < |codes| && Share(codes, i, nb, tn)[t][q] == codes[10 * (i * tn + t) + q]
  {
    RowGap(i, nb, 10 * tn);
    assert i * (10 * tn) == 10 * (i * tn);
  }

  /** A stream as its walk begins. */
  ghost predicate Begins(net: Net, c: Inc, fs: seq<Frame>, s: Sess)
    reads c
  {
    s.d == c.dev && s.pos == c.pos && s.hl == c.kvLen && Holds(s.loc, Latents(net, fs))
  }

  /** The operations end with the histories of the longer sequence and the new samples. */
  ghost predicate EndsBy(net: Net, ops: seq<Op>, fed: seq<Frame>, fs: seq<Frame>, s: Sess) {
    AllReady(ops) && FlightIs(net, 8, Latents(net, fed), Latents(net, fed + fs), Run(net, ops, s).d)
  }

  ghost predicate Ends(net: Net, fed: seq<Frame>, fs: seq<Frame>, s: Sess) {
    EndsBy(net, Program(net, |fs|), fed, fs, s)
  }

  lemma SessionLands(net: Net, c: Inc, fs: seq<Frame>, s: Sess)
    requires c.Valid() && c.dac.net == net && 1 <= |fs| <= MAX_TN && Begins(net, c, fs, s)
    ensures Ends(net, c.fed, fs, s)
  {
    hide StageAt, FlightIs, Run, Program, Holds, Decode, Latents;
    StreamStarts(net, c, fs, s);
    ProgramSound(net, |fs|, Latents(net, c.fed), Latents(net, c.fed + fs), s);
    RunBuf(net, Program(net, |fs|), s);
    StreamLands(net, Latents(net, c.fed), Latents(net, c.fed + fs), |fs|, Run(net, Program(net, |fs|), s));
  }

  // ---- the batched push ----------------------------------------------------------------

  /** All stages of a session's push are done, and it has not been accounted for. */
  ghost predicate Committable(c: Inc, tn: nat, fed: seq<Frame>, fs: seq<Frame>)
    reads c
  {
    c.Landed(tn, fs) && c.fed == fed
  }

  ghost predicate Committed(c: Inc, tn: nat, fed: seq<Frame>, fs: seq<Frame>)
    reads c
  {
    c.Valid() && c.pending == tn && c.fed == fed + fs
  }

  /** The stage-walk over all sessions; those whose scratch is apart end with all samples computed. */
  method WalkRoster(net: Net, ss: seq<Inc>, tab: seq<int>, tn: nat, codes: seq<int>)
    requires |ss| > 0 && Describes(tab, Bases(ss)) && 1 <= tn <= MAX_TN && |codes| == |ss| * (10 * tn)
    requires forall i: nat :: i < |ss| ==> ss[i].Valid() && ss[i].dac.net == net
    modifies ss`dev
    ensures Apart(ss) ==> forall i: nat :: i < |ss| ==>
      Committable(ss[i], tn, old(ss[i].fed), Share(codes, i, |ss|, tn))
  {
    hide FlightIs, StateIs, Decode, Latents, FrameMajor, Packed, Holds, Run, Program, Describes, Contained;
    var w := new Walk(net, ss, tab);
    w.LoadCodes(tn, codes);
    ghost var start := w.start;
    if Apart(ss) {
      forall i: nat | i < |ss|
        ensures Ends(net, ss[i].fed, Share(codes, i, |ss|, tn), start[i])
      {
        SessionLands(net, ss[i], Share(codes, i, |ss|, tn), start[i]);
      }
    }
    w.WalkAll(tn);
    forall i: nat | i < |ss| && Apart(ss)
      ensures Committable(ss[i], tn, old(ss[i].fed), Share(codes, i, |ss|, tn))
    {
      assert View(w.mem, ss[i]) == Run(net, w.done, start[i]);
    }
  }

  /** How often a session stands in the roster. */
  ghost function Times(ss: seq<Inc>, c: Inc): nat {
    multiset(ss)[c]
  }

  lemma TimesSnoc(ss: seq<Inc>, i: nat)
    requires i < |ss|
    ensures forall c: Inc :: Times(ss[..i + 1], c) == Times(ss[..i], c) + if c == ss[i] then 1 else 0
    ensures Distinct(ss) ==> ss[i] !in ss[..i] && ss[i] !in ss[i + 1..]
  {
    assert ss[..i + 1] == ss[..i] + [ss[i]];
  }

  lemma TimesAll(ss: seq<Inc>)
    ensures ss[..|ss|] == ss && forall c: Inc :: Times(ss[..0], c) == 0
    ensures forall i: nat :: i < |ss| ==> ss[i] in ss
    ensures Distinct(ss) ==> forall i: nat :: i < |ss| ==> Times(ss, ss[i]) == 1
  {
    if Distinct(ss) {
      forall i: nat | i < |ss|
        ensures Times(ss, ss[i]) == 1
      {
        assert ss == ss[..i] + [ss[i]] + ss[i + 1..];
        assert ss[i] !in ss[..i] && ss[i] !in ss[i + 1..];
      }
    }
  }

  /** Sessions before position i have been accounted for; `was` holds the positions before. */
  ghost predicate Counted(ss: seq<Inc>, i: nat, tn: nat, was: seq<nat>)
    requires i <= |ss| == |was|
    reads ss
  {
    forall j: nat :: j < |ss| ==>
      ss[j].pos == was[j] + tn * Times(ss[..i], ss[j]) && (ss[j] in ss[..i] ==> ss[j].pending == tn)
  }

  /** Sessions below i are accounted for, the others still to be. */
  ghost predicate CommitAt(ss: seq<Inc>, i: nat, tn: nat, feds: seq<seq<Frame>>, fss: seq<seq<Frame>>)
    requires |feds| == |fss| == |ss|
    reads ss
  {
    && (forall j: nat :: j < i && j < |ss| ==> Committed(ss[j], tn, feds[j], fss[j]))
    && (forall j: nat :: i <= j < |ss| ==> Committable(ss[j], tn, feds[j], fss[j]))
  }

  method CommitNext(ss: seq<Inc>, i: nat, tn: nat, ghost feds: seq<seq<Frame>>, ghost fss: seq<seq<Frame>>,
                    ghost was: seq<nat>)
    requires |feds| == |fss| == |ss| == |was| && i < |ss| && Counted(ss, i, tn, was)
    modifies ss`pending, ss`pos, ss`kvLen, ss`fed
    ensures Counted(ss, i + 1, tn, was)
    ensures Distinct(ss) && old(CommitAt(ss, i, tn, feds, fss)) ==> CommitAt(ss, i + 1, tn, feds, fss)
  {
    hide FlightIs, StateIs, Decode, Times, Inc.Landed, Inc.Valid;
    TimesSnoc(ss, i);
    ghost var c := ss[i];
    ss[i].Commit(tn, fss[i]);
    assert Distinct(ss) ==> forall j: nat :: j < |ss| && j != i ==> ss[j] != c;
  }

  lemma CountFrom(ss: seq<Inc>, tn: nat, was: seq<nat>)
    requires |was| == |ss| && forall j: nat :: j < |ss| ==> ss[j].pos == was[j]
    ensures Counted(ss, 0, tn, was)
  {
    hide Times;
    TimesAll(ss);
  }

  lemma CountTo(ss: seq<Inc>, tn: nat, was: seq<nat>)
    requires |was| == |ss| && Counted(ss, |ss|, tn, was)
    ensures forall j: nat :: j < |ss| ==> ss[j].pos == was[j] + tn * Times(ss, ss[j]) && ss[j].pending == tn
  {
    hide Times;
    TimesAll(ss);
  }

  /** Account for the frames, in roster order: a session named twice is counted twice. */
  method CommitAll(ss: seq<Inc>, tn: nat, ghost feds: seq<seq<Frame>>, ghost fss: seq<seq<Frame>>)
    requires |feds| == |fss| == |ss|
    modifies ss`pending, ss`pos, ss`kvLen, ss`fed
    ensures forall j: nat :: j < |ss| ==> ss[j].pos == old(ss[j].pos) + tn * Times(ss, ss[j]) && ss[j].pending == tn
    ensures Distinct(ss) && old(CommitAt(ss, 0, tn, feds, fss)) ==> CommitAt(ss, |ss|, tn, feds, fss)
  {
    hide CommitAt, Times, Distinct, Counted;
    ghost var was := seq(|ss|, j requires 0 <= j < |ss| reads ss => ss[j].pos);
    CountFrom(ss, tn, was);
    for i := 0 to |ss|
      invariant Counted(ss, i, tn, was)
      invariant Distinct(ss) && old(CommitAt(ss, 0, tn, feds, fss)) ==> CommitAt(ss, i, tn, feds, fss)
    {
      CommitNext(ss, i, tn, feds, fss, was);
    }
    CountTo(ss, tn, was);
  }

  /** s2pd_inc_push_batch.  A roster of distinct sessions is pushed as if each were pushed alone; a
      session named twice is pushed once but moved on twice. */
  method PushBatch(ss: seq<Inc>, tab: PointerTable, tn: int, codes: seq<int>) returns (st: Status)
    requires forall i: nat :: i < |ss| ==> ss[i].Valid()
    requires Placed(ss) && tab.Valid()
    requires 1 <= tn <= MAX_TN ==> |codes| == |ss| * (10 * tn)
    modifies ss, (if |ss| > 0 then {ss[0].dac} else {}), tab, tab.pin, tab.dev
    ensures (tab.pin == old(tab.pin) || fresh(tab.pin)) && (tab.dev == old(tab.dev) || fresh(tab.dev))
    ensures tab.Valid()
    ensures |ss| == 0 || tn < 1 || tn > MAX_TN ==> st == Invalid
    ensures |ss| == 1 ==> st == PushStatus(old(ss[0].pos), old(ss[0].pending), tn)
    ensures |ss| >= 2 && 1 <= tn <= MAX_TN ==>
      st == old(Offence(Codecs(ss), Pendings(ss), 0)) && (st == OK <==> old(Ready(ss)))
    ensures st == OK ==> forall i: nat :: i < |ss| ==>
      ss[i].pending == tn && ss[i].pos == old(ss[i].pos) + tn * Times(ss, ss[i])
    ensures st == OK && Distinct(ss) ==> forall i: nat :: i < |ss| ==>
      ss[i].Valid() && ss[i].fed == old(ss[i].fed) + Share(codes, i, |ss|, tn)
    ensures st == OK && |ss| >= 2 ==> tab.nb == |ss| && Describes(tab.dev[..], Bases(ss))
    ensures st != OK ==> forall i: nat :: i < |ss| ==> Untouched(ss[i])
  {
    hide FlightIs, StateIs, Decode, FrameMajor, Inc.Valid;
    if |ss| < 1 || tn < 1 || tn > MAX_TN {
      return Invalid;
    }
    if |ss| == 1 {
      assert Packed(codes, 0, 1, tn) == codes;
      SingleRoster(ss);
      st := ss[0].PushAsync(codes, tn);
      return;
    }
    st := PushMany(ss, tab, tn, codes);
  }

  /** Nothing of the stream has changed. */
  twostate predicate Untouched(c: Inc)
    reads c
  {
    c.Valid() && c.fed == old(c.fed) && c.pending == old(c.pending) && c.pos == old(c.pos) && c.dev == old(c.dev)
  }

  lemma SingleRoster(ss: seq<Inc>)
    requires |ss| == 1
    ensures Times(ss, ss[0]) == 1
  {
  }

  method PushMany(ss: seq<Inc>, tab: PointerTable, tn: nat, codes: seq<int>) returns (st: Status)
    requires forall i: nat :: i < |ss| ==> ss[i].Valid()
    requires |ss| >= 2 && Placed(ss) && tab.Valid() && 1 <= tn <= MAX_TN && |codes| == |ss| * (10 * tn)
    modifies ss, ss[0].dac, tab, tab.pin, tab.dev
    ensures (tab.pin == old(tab.pin) || fresh(tab.pin)) && (tab.dev == old(tab.dev) || fresh(tab.dev))
    ensures tab.Valid() && st == old(Offence(Codecs(ss), Pendings(ss), 0)) && (st == OK <==> old(Ready(ss)))
    ensures st == OK ==> forall i: nat :: i < |ss| ==>
      ss[i].pending == tn && ss[i].pos == old(ss[i].pos) + tn * Times(ss, ss[i])
    ensures st == OK && Distinct(ss) ==> forall i: nat :: i < |ss| ==>
      ss[i].Valid() && ss[i].fed == old(ss[i].fed) + Share(codes, i, |ss|, tn)
    ensures st == OK ==> tab.nb == |ss| && Describes(tab.dev[..], Bases(ss))
    ensures st != OK ==> forall i: nat :: i < |ss| ==> unchanged(ss[i])
  {
    hide FlightIs, StateIs, Decode, Inc.Valid;
    var maxPos;
    st, maxPos := CheckRoster(ss);
    if st != OK {
      return;
    }
    ss[0].dac.RopeEnsure(maxPos + tn);
    tab.Ready(Bases(ss));
    PushReady(ss, tab.dev[..], tn, codes);
  }

  /** A roster that has passed the check, with its table on the device. */
  method PushReady(ss: seq<Inc>, dev: seq<int>, tn: nat, codes: seq<int>)
    requires |ss| > 0 && |codes| == |ss| * (10 * tn) && 1 <= tn <= MAX_TN && Placed(ss) && Describes(dev, Bases(ss))
    requires Ready(ss) && forall i: nat :: i < |ss| ==> ss[i].Valid()
    modifies ss
    ensures forall i: nat :: i < |ss| ==> ss[i].pending == tn && ss[i].pos == old(ss[i].pos) + tn * Times(ss, ss[i])
    ensures Distinct(ss) ==> forall i: nat :: i < |ss| ==>
      ss[i].Valid() && ss[i].fed == old(ss[i].fed) + Share(codes, i, |ss|, tn)
  {
    hide FlightIs, StateIs, Decode, Share, Inc.Valid, Inc.Landed, Describes, Times;
    ghost var feds := seq(|ss|, i requires 0 <= i < |ss| reads ss => ss[i].fed);
    ghost var fss := seq(|ss|, i requires 0 <= i < |ss| && |codes| == |ss| * (10 * tn) => Share(codes, i, |ss|, tn));
    WalkRoster(ss[0].dac.net, ss, dev, tn, codes);
    if Distinct(ss) {
      PlacedApart(ss);
      assert CommitAt(ss, 0, tn, feds, fss);
    }
    CommitAll(ss, tn, feds, fss);
    assert Distinct(ss) ==> forall i: nat :: i < |ss| ==> Committed(ss[i], tn, feds[i], fss[i]);
  }
}
