/** The cross-session front-end push: every stream gathers its frame, and the due streams are flushed
    together, one engine batch per group size. */
module StreamBatch {
  import opened Basics
  import opened Codec
  import opened Scratch
  import opened Incremental
  import opened Tables
  import opened Batch
  import opened BatchWalk
  import opened Front
  import opened FrontBatch
  import opened Stream

  /** Distinct streams, each with its own engine. */
  ghost predicate Separate(strs: seq<Stream>) {
    forall i: nat, j: nat :: i < j < |strs| ==> strs[i] != strs[j] && BasesApart(strs[i].inc.base, strs[j].inc.base)
  }

  function Engines(grp: seq<Stream>): (incs: seq<Inc>)
    ensures |incs| == |grp| && forall g: nat :: g < |grp| ==> incs[g] == grp[g].inc
  {
    seq(|grp|, g requires 0 <= g < |grp| => grp[g].inc)
  }

  ghost function Views(strs: seq<Stream>): (ws: seq<Front>)
    reads strs, Engines(strs)
    ensures |ws| == |strs| && forall i: nat :: i < |strs| ==> ws[i] == strs[i].View()
  {
    seq(|strs|, i requires 0 <= i < |strs| reads strs, Engines(strs) => strs[i].View())
  }

  /** Every engine is between calls. */
  ghost predicate EnginesValid(strs: seq<Stream>)
    reads Engines(strs)
  {
    forall i: nat :: i < |strs| ==> Engines(strs)[i].Valid()
  }

  lemma EnginesDistinct(grp: seq<Stream>)
    requires Separate(grp)
    ensures Distinct(Engines(grp)) && Placed(Engines(grp))
    ensures forall i: nat, j: nat :: i < j < |grp| ==> grp[i].inc != grp[j].inc
  {
    var incs := Engines(grp);
    forall i: nat, j: nat | i < j < |grp|
      ensures grp[i].inc != grp[j].inc
    {
      assert BasesApart(grp[i].inc.base, grp[j].inc.base);
    }
    forall i: nat, j: nat | i < |incs| && j < |incs| && incs[i] != incs[j]
      ensures BasesApart(incs[i].base, incs[j].base)
    {
      if i < j {
        assert BasesApart(grp[i].inc.base, grp[j].inc.base);
      } else {
        assert BasesApart(grp[j].inc.base, grp[i].inc.base);
      }
    }
  }

  // ---- gathering ------------------------------------------------------------------------------

  /** Gather one frame into every stream in turn; a finished stream stops the call there. */
  method AppendAll(strs: seq<Stream>, frames: seq<Frame>) returns (st: Status)
    requires Separate(strs) && |frames| == |strs|
    requires forall i: nat :: i < FirstFinished(Views(strs)) ==> |strs[i].bat| < BATCH_MAX
    modifies strs
    ensures Views(strs) == GatherTo(old(Views(strs)), frames, FirstFinished(old(Views(strs))))
    ensures st == if FirstFinished(old(Views(strs))) < |strs| then Invalid else OK
  {
    hide FirstFinished, Gather;
    ghost var ws := Views(strs);
    ghost var k := FirstFinished(ws);
    assert Views(strs) == GatherTo(ws, frames, 0);
    for i := 0 to |strs|
      invariant i <= k && Views(strs) == GatherTo(ws, frames, i)
    {
      assert strs[i].View() == ws[i];
      if strs[i].finished {
        return Invalid;
      }
      AppendOne(strs, i, frames, ws);
    }
    st := OK;
  }

  method AppendOne(strs: seq<Stream>, i: nat, frames: seq<Frame>, ghost ws: seq<Front>)
    requires Separate(strs) && |frames| == |strs| == |ws| && i < |strs| && Views(strs) == GatherTo(ws, frames, i)
    requires |strs[i].bat| < BATCH_MAX
    modifies strs[i]
    ensures Views(strs) == GatherTo(ws, frames, i + 1)
  {
    var s := strs[i];
    assert s.View() == ws[i];
    s.bat := s.bat + [frames[i]];
    s.pushed := s.pushed + [frames[i]];
    forall j: nat | j < |strs|
      ensures Views(strs)[j] == GatherTo(ws, frames, i + 1)[j]
    {
      if j != i {
        assert strs[j] != s;
        assert old(Views(strs))[j] == GatherTo(ws, frames, i)[j];
      }
    }
  }

  // ---- one group ------------------------------------------------------------------------------

  lemma PackedParts(a: seq<int>, b: seq<int>, n: nat, tn: nat)
    requires |a| == n * (10 * tn) && |b| == 10 * tn
    ensures |a + b| == (n + 1) * (10 * tn)
    ensures Packed(a + b, n, n + 1, tn) == b
    ensures forall g: nat :: g < n ==> Packed(a + b, g, n + 1, tn) == Packed(a, g, n, tn)
  {
    assert (n + 1) * (10 * tn) == n * (10 * tn) + 10 * tn;
    forall g: nat | g < n
      ensures Packed(a + b, g, n + 1, tn) == Packed(a, g, n, tn)
    {
      RowGap(g, n, 10 * tn);
    }
  }

  /** The group's members, and their frames behind one another. */
  ghost predicate Selected(strs: seq<Stream>, idx: seq<nat>, grp: seq<Stream>, packed: seq<int>, tn: nat)
    reads grp
  {
    && |grp| == |idx| && |packed| == |grp| * (10 * tn)
    && forall g: nat :: g < |grp| ==>
      idx[g] < |strs| && grp[g] == strs[idx[g]] && |grp[g].bat| == tn
        && Packed(packed, g, |grp|, tn) == Flat(grp[g].bat)
  }

  lemma NoneSelected(strs: seq<Stream>, tn: nat)
    ensures Selected(strs, [], [], [], tn)
  {
  }

  lemma SelectMore(strs: seq<Stream>, idx: seq<nat>, grp: seq<Stream>, packed: seq<int>, tn: nat, i: nat)
    requires Selected(strs, idx, grp, packed, tn) && i < |strs| && |strs[i].bat| == tn
    ensures Selected(strs, idx + [i], grp + [strs[i]], packed + Flat(strs[i].bat), tn)
  {
    hide Flat, Packed;
    PackedParts(packed, Flat(strs[i].bat), |grp|, tn);
  }

  lemma SelectedSize(strs: seq<Stream>, idx: seq<nat>, grp: seq<Stream>, packed: seq<int>, tn: nat)
    requires Selected(strs, idx, grp, packed, tn)
    ensures |grp| == |idx|
  {
  }

  /** The streams due at size tn, in roster order and at most 64 of them, with their packed frames. */
  method Select(strs: seq<Stream>, tn: nat) returns (grp: seq<Stream>, packed: seq<int>)
    ensures Selected(strs, Dues(Views(strs), tn, |strs|), grp, packed, tn)
  {
    hide Flat, Packed, Selected;
    NoneSelected(strs, tn);
    grp, packed := [], [];
    ghost var ws := Views(strs);
    for i := 0 to |strs|
      invariant Selected(strs, Dues(ws, tn, i), grp, packed, tn)
    {
      var t := strs[i];
      assert ws[i] == t.View();
      var target := if t.firstFlushed then t.batch else 1;
      SelectedSize(strs, Dues(ws, tn, i), grp, packed, tn);
      if |grp| < GROUP_MAX && |t.bat| == tn && |t.bat| >= target {
        SelectMore(strs, Dues(ws, tn, i), grp, packed, tn, i);
        packed := packed + Flat(t.bat);
        grp := grp + [t];
      }
    }
    assert Views(strs) == ws;
  }

  /** The engine has the stream's frames; the stream has not been told yet. */
  function Taken(v: Front): Front {
    v.(fed := v.fed + v.bat, pending := |v.bat|)
  }

  /** A stream that is part of a group of size tn. */
  ghost predicate Member(s: Stream, tn: nat)
    reads s, s.inc
  {
    s.inc.Valid() && |s.bat| == tn
  }

  /** The engine batch of a group: taken from every member, or from none. */
  method PushGroup(grp: seq<Stream>, packed: seq<int>, tn: nat, tab: PointerTable) returns (st: Status)
    requires |grp| > 0 && Separate(grp) && |packed| == |grp| * (10 * tn) && 1 <= tn <= BATCH_MAX && tab.Valid()
    requires forall g: nat :: g < |grp| ==> Member(grp[g], tn) && Packed(packed, g, |grp|, tn) == Flat(grp[g].bat)
    modifies Engines(grp), grp[0].inc.dac, tab, tab.pin, tab.dev
    ensures (tab.pin == old(tab.pin) || fresh(tab.pin)) && (tab.dev == old(tab.dev) || fresh(tab.dev)) && tab.Valid()
    ensures st == GroupStatus(old(Views(grp)))
    ensures forall g: nat :: g < |grp| ==>
      Member(grp[g], tn) && grp[g].View() == if st == OK then Taken(old(Views(grp))[g]) else old(Views(grp))[g]
  {
    hide StateIs, Decode, Flat, Packed, FrameMajor, Inc.Valid, Placed, Describes, PushStatus, Times, Separate,
         Offence;
    var incs := Engines(grp);
    ghost var vs := Views(grp);
    EnginesDistinct(grp);
    assert Codecs(incs) == CodecsOf(vs) && Pendings(incs) == PendingsOf(vs);
    forall g: nat | g < |grp|
      ensures Share(packed, g, |grp|, tn) == grp[g].bat && incs[g].Valid()
    {
      assert Member(grp[g], tn);
      FlatFrames(grp[g].bat);
    }
    assert incs[0].pos == |vs[0].fed| by {
      EnginePosition(incs[0]);
    }
    st := PushBatch(incs, tab, tn, packed);
  }

  lemma EnginePosition(c: Inc)
    requires c.Valid()
    ensures c.pos == |c.fed|
  {
  }

  /** bat_n = 0, first_flushed = 1, for every member of a flushed group. */
  method ResetAll(grp: seq<Stream>, ghost vs: seq<Front>)
    requires Separate(grp) && |vs| == |grp| && forall g: nat :: g < |grp| ==> grp[g].View() == Taken(vs[g])
    modifies grp
    ensures forall g: nat :: g < |grp| ==> grp[g].View() == Flushed(vs[g])
  {
    hide Taken, Flushed;
    for g := 0 to |grp|
      invariant forall h: nat :: h < |grp| ==> grp[h].View() == if h < g then Flushed(vs[h]) else Taken(vs[h])
    {
      Reset(grp[g], vs[g]);
    }
  }

  method Reset(s: Stream, ghost v: Front)
    requires s.View() == Taken(v)
    modifies s
    ensures s.View() == Flushed(v)
  {
    s.flushes := s.flushes + [|s.bat|];
    s.bat := [];
    s.firstFlushed := true;
  }

  /** A group picked in roster order is separate, and is what the specification picks. */
  lemma GroupIs(strs: seq<Stream>, ws: seq<Front>, idx: seq<nat>, grp: seq<Stream>, packed: seq<int>, tn: nat)
    requires Separate(strs) && ws == Views(strs) && idx == Dues(ws, tn, |strs|) && Selected(strs, idx, grp, packed, tn)
    requires EnginesValid(strs)
    ensures Separate(grp) && Views(grp) == Pick(ws, idx)
    ensures forall g: nat :: g < |grp| ==> Member(grp[g], tn) && Packed(packed, g, |grp|, tn) == Flat(grp[g].bat)
  {
    hide Flat, Packed, Inc.Valid;
    DuesAre(ws, tn, |strs|);
    forall g: nat | g < |grp|
      ensures Member(grp[g], tn)
    {
      assert Engines(strs)[idx[g]].Valid();
    }
  }

  /** Flush the group of size tn: its members are reset, everyone else is left as is; a group the
      engine refuses is left unflushed. */
  method FlushGroup(strs: seq<Stream>, tn: nat, tab: PointerTable) returns (st: Status)
    requires Separate(strs) && EnginesValid(strs) && 1 <= tn <= BATCH_MAX && tab.Valid()
    modifies strs, Engines(strs), (set s | s in strs :: s.inc.dac), tab, tab.pin, tab.dev
    ensures (tab.pin == old(tab.pin) || fresh(tab.pin)) && (tab.dev == old(tab.dev) || fresh(tab.dev)) && tab.Valid()
    ensures EnginesValid(strs) && (Views(strs), st) == FlushStep(old(Views(strs)), tn)
  {
    hide StateIs, Decode, Inc.Valid, Describes, Flat, Packed, Selected, Dues, GroupStatus, Taken, Flushed, Engines,
         Views, PointerTable.Valid;
    ghost var ws := Views(strs);
    ghost var idx := Dues(ws, tn, |ws|);
    var grp, packed := Select(strs, tn);
    SelectedSize(strs, idx, grp, packed, tn);
    if |grp| == 0 {
      return OK;
    }
    GroupIs(strs, ws, idx, grp, packed, tn);
    InRoster(strs, idx, grp, packed, tn);
    Outside(strs, idx, grp);
    st := ServeGroup(grp, packed, tn, tab);
    Settle(strs, ws, idx, grp, tn, st);
    ValidAll(strs, idx, grp);
  }

  /** A stream that was not picked shares nothing with the group. */
  lemma Outside(strs: seq<Stream>, idx: seq<nat>, grp: seq<Stream>)
    requires Separate(strs) && |grp| == |idx| && forall g: nat :: g < |grp| ==>
      idx[g] < |strs| && grp[g] == strs[idx[g]]
    ensures forall i: nat :: i < |strs| && i !in idx ==> strs[i] !in grp && strs[i].inc !in Engines(grp)
  {
    EnginesDistinct(strs);
    forall i: nat | i < |strs| && i !in idx
      ensures strs[i] !in grp && strs[i].inc !in Engines(grp)
    {
      forall g: nat | g < |grp|
        ensures strs[i] != grp[g] && strs[i].inc != grp[g].inc
      {
        assert idx[g] in idx;
      }
    }
  }

  /** Views after a group, served or refused. */
  lemma Settle(strs: seq<Stream>, ws: seq<Front>, idx: seq<nat>, grp: seq<Stream>, tn: nat, st: Status)
    requires |ws| == |strs| && idx == Dues(ws, tn, |ws|) && idx != []
    requires |grp| == |idx| && forall g: nat :: g < |grp| ==> grp[g] == strs[idx[g]]
    requires st == GroupStatus(Pick(ws, idx))
    requires forall g: nat :: g < |grp| ==> grp[g].View() == if st == OK then Flushed(ws[idx[g]]) else ws[idx[g]]
    requires forall i: nat :: i < |strs| && i !in idx ==> strs[i].View() == ws[i]
    ensures (Views(strs), st) == FlushStep(ws, tn)
  {
    hide Flushed, GroupStatus, Dues;
    var us := if st == OK then FlushThese(ws, idx) else ws;
    forall i: nat | i < |strs|
      ensures Views(strs)[i] == us[i]
    {
      if i in idx {
        var g: nat :| g < |idx| && idx[g] == i;
        assert grp[g].View() == strs[i].View();
      }
    }
    assert Views(strs) == us;
  }

  lemma ValidAll(strs: seq<Stream>, idx: seq<nat>, grp: seq<Stream>)
    requires |grp| == |idx| && forall g: nat :: g < |grp| ==> idx[g] < |strs| && grp[g] == strs[idx[g]]
    requires EnginesValid(grp) && forall i: nat :: i < |strs| && i !in idx ==> strs[i].inc.Valid()
    ensures EnginesValid(strs)
  {
    hide Inc.Valid;
    forall i: nat | i < |strs|
      ensures strs[i].inc.Valid()
    {
      if i in idx {
        var g: nat :| g < |idx| && idx[g] == i;
        assert Engines(grp)[g].Valid();
      }
    }
  }

  /** Push and reset one group. */
  method ServeGroup(grp: seq<Stream>, packed: seq<int>, tn: nat, tab: PointerTable) returns (st: Status)
    requires |grp| > 0 && Separate(grp) && |packed| == |grp| * (10 * tn) && 1 <= tn <= BATCH_MAX && tab.Valid()
    requires forall g: nat :: g < |grp| ==> Member(grp[g], tn) && Packed(packed, g, |grp|, tn) == Flat(grp[g].bat)
    modifies grp, Engines(grp), grp[0].inc.dac, tab, tab.pin, tab.dev
    ensures (tab.pin == old(tab.pin) || fresh(tab.pin)) && (tab.dev == old(tab.dev) || fresh(tab.dev)) && tab.Valid()
    ensures st == GroupStatus(old(Views(grp))) && EnginesValid(grp)
    ensures forall g: nat :: g < |grp| ==>
      grp[g].View() == if st == OK then Flushed(old(Views(grp))[g]) else old(Views(grp))[g]
  {
    hide StateIs, Decode, Inc.Valid, Describes, Flat, Packed, GroupStatus, Taken, Flushed;
    ghost var vs := Views(grp);
    st := PushGroup(grp, packed, tn, tab);
    if st == OK {
      ResetAll(grp, vs);
    }
  }

  lemma InRoster(strs: seq<Stream>, idx: seq<nat>, grp: seq<Stream>, packed: seq<int>, tn: nat)
    requires Selected(strs, idx, grp, packed, tn)
    ensures |grp| == |idx| && |packed| == |grp| * (10 * tn)
    ensures forall g: nat :: g < |grp| ==> idx[g] < |strs| && grp[g] == strs[idx[g]] && grp[g].inc in Engines(strs)
  {
    forall g: nat | g < |grp|
      ensures grp[g].inc in Engines(strs)
    {
      assert Engines(strs)[idx[g]] == grp[g].inc;
    }
  }

  /** The groups of sizes 1..8 in turn; the first refusal ends the call. */
  method FlushSizesUp(strs: seq<Stream>, tab: PointerTable) returns (st: Status)
    requires Separate(strs) && EnginesValid(strs) && tab.Valid()
    modifies strs, Engines(strs), (set s | s in strs :: s.inc.dac), tab, tab.pin, tab.dev
    ensures (tab.pin == old(tab.pin) || fresh(tab.pin)) && (tab.dev == old(tab.dev) || fresh(tab.dev))
    ensures tab.Valid() && EnginesValid(strs) && (Views(strs), st) == Served(old(Views(strs)), BATCH_MAX)
  {
    hide StateIs, Decode, Inc.Valid, Describes, FlushStep, EnginesValid, Separate, Served, Stream.View;
    ghost var ws := Views(strs);
    st := OK;
    ServedNext(ws, 0);
    for tn := 1 to BATCH_MAX + 1
      invariant (tab.pin == old(tab.pin) || fresh(tab.pin)) && (tab.dev == old(tab.dev) || fresh(tab.dev))
      invariant tab.Valid()
      invariant st == OK && EnginesValid(strs) && (Views(strs), OK) == Served(ws, tn - 1)
    {
      ServedNext(ws, tn - 1);
      st := FlushGroup(strs, tn, tab);
      if st != OK {
        ServedStops(ws, tn, BATCH_MAX);
        return;
      }
    }
  }

  /** s2p_dac_stream_push_batch for distinct streams. */
  method PushStreams(strs: seq<Stream>, frames: seq<Frame>, tab: PointerTable) returns (st: Status)
    requires Separate(strs) && |frames| == |strs| && tab.Valid() && forall i: nat :: i < |strs| ==> strs[i].Core()
    requires forall i: nat :: i < FirstFinished(Views(strs)) ==> |strs[i].bat| < BATCH_MAX
    modifies strs, Engines(strs), (set s | s in strs :: s.inc.dac), tab, tab.pin, tab.dev
    ensures (tab.pin == old(tab.pin) || fresh(tab.pin)) && (tab.dev == old(tab.dev) || fresh(tab.dev))
    ensures tab.Valid() && (Views(strs), st) == AfterBatch(old(Views(strs)), frames)
    ensures forall i: nat :: i < |strs| ==> strs[i].Core()
  {
    hide StateIs, Decode, Inc.Valid, Describes, Sound, Served, Separate, FirstFinished, GatherTo, Engines, Views;
    ghost var ws := Views(strs);
    AllCore(strs);
    BatchKeeps(ws, frames);
    if |strs| < 1 {
      return Invalid;
    }
    st := AppendAll(strs, frames);
    if st == OK {
      st := FlushSizesUp(strs, tab);
    }
    CoreAll(strs, AfterBatch(ws, frames).0);
  }

  lemma AllCore(strs: seq<Stream>)
    requires forall i: nat :: i < |strs| ==> strs[i].Core()
    ensures AllSound(Views(strs)) && EnginesValid(strs)
  {
  }

  lemma CoreAll(strs: seq<Stream>, us: seq<Front>)
    requires Views(strs) == us && AllSound(us) && EnginesValid(strs)
    ensures forall i: nat :: i < |strs| ==> strs[i].Core()
  {
    hide Inc.Valid, Sound;
    forall i: nat | i < |strs|
      ensures strs[i].Core()
    {
      assert us[i] == strs[i].View() && Engines(strs)[i].Valid();
    }
  }
}
