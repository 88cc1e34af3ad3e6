/** The cross-session front-end push on stream values: every stream gathers its frame, then the due
    streams are flushed together, one engine batch per number of gathered frames. */
module FrontBatch {
  import opened Basics
  import opened Codec
  import opened Whole
  import opened Batch
  import opened Front

  /** Streams one engine batch can hold. */
  const GROUP_MAX: nat := 64

  /** The streams before the first finished one. */
  function FirstFinished(ws: seq<Front>): (k: nat)
    ensures k <= |ws| && (forall i: nat :: i < k ==> !ws[i].finished) && (k < |ws| ==> ws[k].finished)
  {
    if ws == [] then 0
    else
      var n: nat := |ws| - 1;
      var k := FirstFinished(ws[..n]);
      if k < n || ws[n].finished then k else n + 1
  }

  /** The first k streams have gathered their frame. */
  function GatherTo(ws: seq<Front>, frames: seq<Frame>, k: nat): (us: seq<Front>)
    requires |frames| == |ws|
    ensures |us| == |ws|
  {
    seq(|ws|, i requires 0 <= i < |ws| == |frames| => if i < k then Gather(ws[i], frames[i]) else ws[i])
  }

  /** Is this stream due in the group of size tn? */
  predicate Due(v: Front, tn: nat) {
    |v.bat| == tn && |v.bat| >= Target(v)
  }

  /** The first 64 streams due at size tn, among the first n. */
  function Dues(ws: seq<Front>, tn: nat, n: nat): (idx: seq<nat>)
    requires n <= |ws|
    ensures |idx| <= n && forall g: nat :: g < |idx| ==> idx[g] < n
  {
    if n == 0 then []
    else
      var d := Dues(ws, tn, n - 1);
      if |d| < GROUP_MAX && Due(ws[n - 1], tn) then d + [n - 1] else d
  }

  /** Due streams, in roster order. */
  ghost predicate InOrder(ws: seq<Front>, tn: nat, idx: seq<nat>) {
    && (forall g: nat :: g < |idx| ==> idx[g] < |ws| && Due(ws[idx[g]], tn))
    && (forall g: nat, h: nat :: g < h < |idx| ==> idx[g] < idx[h])
  }

  lemma {:induction false} DuesAre(ws: seq<Front>, tn: nat, n: nat)
    requires n <= |ws|
    ensures InOrder(ws, tn, Dues(ws, tn, n))
  {
    hide Due;
    if n > 0 {
      DuesAre(ws, tn, n - 1);
    }
  }

  /** It lists at most 64, and all of them when there are fewer. */
  lemma {:induction false} DuesAll(ws: seq<Front>, tn: nat, n: nat)
    requires n <= |ws|
    ensures |Dues(ws, tn, n)| <= GROUP_MAX
    ensures |Dues(ws, tn, n)| < GROUP_MAX || n <= GROUP_MAX ==> forall i: nat :: i < n && Due(ws[i], tn) ==>
      i in Dues(ws, tn, n)
  {
    hide Due;
    if n > 0 {
      DuesAll(ws, tn, n - 1);
    }
  }

  function Pick(ws: seq<Front>, idx: seq<nat>): (us: seq<Front>)
    requires forall g: nat :: g < |idx| ==> idx[g] < |ws|
    ensures |us| == |idx|
  {
    seq(|idx|, g requires 0 <= g < |idx| && idx[g] < |ws| => ws[idx[g]])
  }

  ghost function CodecsOf(us: seq<Front>): (cs: seq<Dac>)
    ensures |cs| == |us|
  {
    seq(|us|, g requires 0 <= g < |us| => us[g].codec)
  }

  ghost function PendingsOf(us: seq<Front>): (ps: seq<nat>)
    ensures |ps| == |us|
  {
    seq(|us|, g requires 0 <= g < |us| => us[g].pending)
  }

  /** The engine's answer to one group: a group of one is pushed on its own, with the limit checked. */
  ghost function GroupStatus(us: seq<Front>): Status
    requires |us| > 0
  {
    if |us| == 1 then FlushStatus(us[0]) else Offence(CodecsOf(us), PendingsOf(us), 0)
  }

  function FlushThese(ws: seq<Front>, idx: seq<nat>): (us: seq<Front>)
    ensures |us| == |ws|
  {
    seq(|ws|, i requires 0 <= i < |ws| => if i in idx then Flushed(ws[i]) else ws[i])
  }

  /** The group of size tn. */
  ghost function FlushStep(ws: seq<Front>, tn: nat): (r: (seq<Front>, Status))
    ensures |r.0| == |ws|
  {
    var idx := Dues(ws, tn, |ws|);
    if idx == [] then (ws, OK)
    else
      var st := GroupStatus(Pick(ws, idx));
      if st == OK then (FlushThese(ws, idx), OK) else (ws, st)
  }

  /** The groups of sizes 1..t in turn, up to one that the engine refuses. */
  ghost function Served(ws: seq<Front>, t: nat): (r: (seq<Front>, Status))
    ensures |r.0| == |ws|
  {
    if t == 0 then (ws, OK)
    else
      var (us, st) := Served(ws, t - 1);
      if st != OK then (us, st) else FlushStep(us, t)
  }

  lemma ServedNext(ws: seq<Front>, t: nat)
    ensures Served(ws, 0) == (ws, OK)
    ensures Served(ws, t).1 == OK ==> Served(ws, t + 1) == FlushStep(Served(ws, t).0, t + 1)
  {
  }

  /** A refused group ends the call. */
  lemma {:induction false} ServedStops(ws: seq<Front>, t: nat, n: nat)
    requires t <= n && Served(ws, t).1 != OK
    ensures Served(ws, n) == Served(ws, t)
    decreases n
  {
    if t < n {
      ServedStops(ws, t, n - 1);
    }
  }

  /** s2p_dac_stream_push_batch as a function of the streams. */
  ghost function AfterBatch(ws: seq<Front>, frames: seq<Frame>): (r: (seq<Front>, Status))
    requires |frames| == |ws|
    ensures |r.0| == |ws|
  {
    if |ws| < 1 then (ws, Invalid)
    else if FirstFinished(ws) < |ws| then (GatherTo(ws, frames, FirstFinished(ws)), Invalid)
    else Served(GatherTo(ws, frames, |ws|), BATCH_MAX)
  }

  // ---- what every batched push keeps ----------------------------------------------------------

  /** Frames are only gathered or flushed, in order; nothing is handed out. */
  predicate Same(v: Front, w: Front) {
    && w.codec == v.codec && w.batch == v.batch && w.finished == v.finished
    && w.pushed == v.pushed && w.collected == v.collected && w.fed + w.bat == v.fed + v.bat
  }

  ghost predicate AllSound(ws: seq<Front>) {
    forall i: nat :: i < |ws| ==> Sound(ws[i])
  }

  /** An accepted group has nothing in flight. */
  lemma GroupIdle(us: seq<Front>)
    requires |us| > 0 && GroupStatus(us) == OK
    ensures forall g: nat :: g < |us| ==> us[g].pending == 0
  {
    if |us| > 1 {
      var cs, ps := CodecsOf(us), PendingsOf(us);
      NoOffence(cs, ps, 0);
      forall g: nat | g < |us|
        ensures us[g].pending == 0
      {
        assert ps[g] == 0;
      }
    }
  }

  lemma StepSound(ws: seq<Front>, tn: nat)
    requires AllSound(ws)
    ensures AllSound(FlushStep(ws, tn).0) && forall i: nat :: i < |ws| ==> Same(ws[i], FlushStep(ws, tn).0[i])
  {
    hide Sound, GroupStatus;
    var idx := Dues(ws, tn, |ws|);
    if idx != [] && GroupStatus(Pick(ws, idx)) == OK {
      GroupIdle(Pick(ws, idx));
      forall i: nat | i < |ws|
        ensures Sound(FlushThese(ws, idx)[i])
      {
        if i in idx {
          var g: nat :| g < |idx| && idx[g] == i;
          assert Pick(ws, idx)[g] == ws[i];
          SentSound(ws[i]);
        }
      }
    }
  }

  lemma {:induction false} ServedSound(ws: seq<Front>, t: nat)
    requires AllSound(ws)
    ensures AllSound(Served(ws, t).0) && forall i: nat :: i < |ws| ==> Same(ws[i], Served(ws, t).0[i])
  {
    hide AllSound, FlushStep;
    if t > 0 {
      ServedSound(ws, t - 1);
      if Served(ws, t - 1).1 == OK {
        StepSound(Served(ws, t - 1).0, t);
        assert forall i: nat :: i < |ws| ==> Same(ws[i], Served(ws, t - 1).0[i]);
      }
    }
  }

  /** No frame is lost or moved by a batched push, whatever its answer: a stream that is reached
      gains its frame, and nothing is handed out. */
  lemma BatchKeeps(ws: seq<Front>, frames: seq<Frame>)
    requires |frames| == |ws| && AllSound(ws)
    requires forall i: nat :: i < FirstFinished(ws) ==> |ws[i].bat| < BATCH_MAX
    ensures AllSound(AfterBatch(ws, frames).0)
    ensures forall i: nat :: i < |ws| ==>
      Same(if i < FirstFinished(ws) then Gather(ws[i], frames[i]) else ws[i], AfterBatch(ws, frames).0[i])
  {
    hide Sound, Served;
    var k := FirstFinished(ws);
    var us := GatherTo(ws, frames, k);
    forall i: nat | i < |ws|
      ensures Sound(us[i])
    {
      if i < k {
        GatherSound(ws[i], frames[i]);
      }
    }
    if 1 <= |ws| == k {
      ServedSound(us, BATCH_MAX);
    }
  }

  // ---- a refused roster ---------------------------------------------------------------------------

  /** A finished stream in the roster: the streams before it have gathered the frame and flushed
      nothing, the others are untouched.  One that gathered is still between calls if and only if its
      frame did not fill its batch. */
  lemma RefusedGathers(ws: seq<Front>, frames: seq<Frame>, i: nat)
    requires |frames| == |ws| && FirstFinished(ws) < |ws| && i < |ws|
    ensures var w := AfterBatch(ws, frames).0[i];
            && AfterBatch(ws, frames).1 == Invalid
            && w == (if i < FirstFinished(ws) then Gather(ws[i], frames[i]) else ws[i])
            && w.fed == ws[i].fed && w.pending == ws[i].pending && w.flushes == ws[i].flushes
            && (i < FirstFinished(ws) && Steady(ws[i]) ==> (Steady(w) <==> |ws[i].bat| + 1 < Target(ws[i])))
  {
    hide Decode, Served, Sound;
    if i < FirstFinished(ws) && Steady(ws[i]) {
      SteadyRoom(ws[i]);
      GatherSound(ws[i], frames[i]);
    }
  }

  // ---- idle streams of one codec -------------------------------------------------------------------

  /** All streams due at size tn, among the first n, however many. */
  function AllDue(ws: seq<Front>, tn: nat, n: nat): (idx: seq<nat>)
    requires n <= |ws|
    ensures |idx| <= n && forall g: nat :: g < |idx| ==> idx[g] < n
  {
    if n == 0 then []
    else
      var d := AllDue(ws, tn, n - 1);
      if Due(ws[n - 1], tn) then d + [n - 1] else d
  }

  lemma {:induction false} AllDueAre(ws: seq<Front>, tn: nat, n: nat)
    requires n <= |ws|
    ensures InOrder(ws, tn, AllDue(ws, tn, n))
    ensures forall i: nat :: i < n && Due(ws[i], tn) ==> i in AllDue(ws, tn, n)
  {
    hide Due;
    if n > 0 {
      AllDueAre(ws, tn, n - 1);
    }
  }

  function Front64(idx: seq<nat>): seq<nat> {
    if |idx| <= GROUP_MAX then idx else idx[..GROUP_MAX]
  }

  /** The group that is served is the front of all due streams. */
  lemma {:induction false} CutAt64(ws: seq<Front>, tn: nat, n: nat)
    requires n <= |ws|
    ensures Dues(ws, tn, n) == Front64(AllDue(ws, tn, n))
    ensures var all := AllDue(ws, tn, n); Dues(ws, tn, n) == if |all| <= 64 then all else all[..64]
  {
    hide Due;
    if n > 0 {
      CutAt64(ws, tn, n - 1);
      var d := AllDue(ws, tn, n - 1);
      assert |d| >= GROUP_MAX ==> (d + [n - 1])[..GROUP_MAX] == d[..GROUP_MAX];
    }
  }

  lemma {:induction false} DuesSame(us: seq<Front>, vs: seq<Front>, tn: nat, n: nat)
    requires |us| == |vs| && n <= |us| && forall i: nat :: i < |us| ==> (Due(us[i], tn) <==> Due(vs[i], tn))
    ensures Dues(us, tn, n) == Dues(vs, tn, n)
  {
    hide Due;
    if n > 0 {
      DuesSame(us, vs, tn, n - 1);
    }
  }

  // ---- the groups of one call ----------------------------------------------------------------------

  /** The group of size t. */
  function GroupAt(ws: seq<Front>, t: nat): seq<Front> {
    Pick(ws, Dues(ws, t, |ws|))
  }

  /** What the engine takes: a stream alone needs nothing in flight and room below the position limit,
      several streams nothing in flight and one codec. */
  predicate Takes(grp: seq<Front>) {
    if |grp| == 1 then grp[0].pending == 0 && |grp[0].fed| + |grp[0].bat| <= INT32_MAX / 4
    else forall g: nat :: g < |grp| ==> grp[g].pending == 0 && grp[g].codec == grp[0].codec
  }

  predicate OfSize(grp: seq<Front>, tn: nat) {
    forall g: nat :: g < |grp| ==> |grp[g].bat| == tn
  }

  lemma TakesExactly(grp: seq<Front>, tn: nat)
    requires |grp| > 0 && 1 <= tn <= BATCH_MAX && OfSize(grp, tn)
    ensures GroupStatus(grp) == OK <==> Takes(grp)
  {
    var cs, ps := CodecsOf(grp), PendingsOf(grp);
    NoOffence(cs, ps, 0);
    forall g: nat | g < |grp|
      ensures cs[g] == grp[g].codec && ps[g] == grp[g].pending
    {
    }
    if |grp| > 1 && GroupStatus(grp) == OK {
      assert forall g: nat :: g < |grp| ==> grp[g].codec == cs[g] == cs[0] && grp[g].pending == ps[g] == 0;
    }
  }

  /** Every group up to size t is taken. */
  ghost predicate TakenTo(ws: seq<Front>, t: nat) {
    forall tn: nat :: 1 <= tn <= t ==> Takes(GroupAt(ws, tn))
  }

  /** Stream i once the groups up to size t have had their turn. */
  ghost function ServedOne(ws: seq<Front>, i: nat, t: nat): Front
    requires i < |ws|
  {
    var n := |ws[i].bat|;
    if n <= t && i in Dues(ws, n, |ws|) && TakenTo(ws, n) then Flushed(ws[i]) else ws[i]
  }

  ghost function ServedAll(ws: seq<Front>, t: nat): (us: seq<Front>)
    ensures |us| == |ws|
  {
    seq(|ws|, i requires 0 <= i < |ws| => ServedOne(ws, i, t))
  }

  /** Every stream has gathered something. */
  predicate Loaded(ws: seq<Front>) {
    forall i: nat :: i < |ws| ==> 1 <= |ws[i].bat|
  }

  /** The members of a group are as they were when the call began. */
  lemma GroupThen(ws: seq<Front>, t: nat)
    requires Loaded(ws)
    ensures Dues(ServedAll(ws, t), t + 1, |ws|) == Dues(ws, t + 1, |ws|)
    ensures GroupAt(ServedAll(ws, t), t + 1) == GroupAt(ws, t + 1)
    ensures OfSize(GroupAt(ws, t + 1), t + 1)
    ensures GroupAt(ws, t + 1) == [] <==> Dues(ws, t + 1, |ws|) == []
  {
    hide TakenTo;
    var us, idx := ServedAll(ws, t), Dues(ws, t + 1, |ws|);
    DuesAre(ws, t + 1, |ws|);
    DuesSame(us, ws, t + 1, |ws|);
    forall g: nat | g < |idx|
      ensures us[idx[g]] == ws[idx[g]] && |ws[idx[g]].bat| == t + 1
    {
      assert Due(ws[idx[g]], t + 1);
    }
    assert Pick(us, idx) == Pick(ws, idx);
  }

  lemma DueSize(ws: seq<Front>, i: nat, tn: nat)
    requires i < |ws| && i in Dues(ws, tn, |ws|)
    ensures |ws[i].bat| == tn
  {
    DuesAre(ws, tn, |ws|);
    var idx := Dues(ws, tn, |ws|);
    var g: nat :| g < |idx| && idx[g] == i;
    assert Due(ws[idx[g]], tn);
  }

  lemma TakenBefore(ws: seq<Front>, n: nat, t: nat)
    requires n <= t && TakenTo(ws, t)
    ensures TakenTo(ws, n)
  {
    hide Takes, GroupAt;
  }

  lemma TakenNext(ws: seq<Front>, t: nat)
    ensures TakenTo(ws, t + 1) <==> TakenTo(ws, t) && Takes(GroupAt(ws, t + 1))
  {
    hide Takes, GroupAt;
  }

  /** The turn of size t + 1, for one stream. */
  lemma OneTaken(ws: seq<Front>, i: nat, t: nat)
    requires i < |ws| && TakenTo(ws, t + 1)
    ensures ServedOne(ws, i, t + 1)
         == if i in Dues(ws, t + 1, |ws|) then Flushed(ServedOne(ws, i, t)) else ServedOne(ws, i, t)
  {
    hide Dues, TakenTo, Flushed;
    if i in Dues(ws, t + 1, |ws|) {
      DueSize(ws, i, t + 1);
    }
  }

  /** A taken group: its members are flushed. */
  lemma NextTaken(ws: seq<Front>, t: nat)
    requires TakenTo(ws, t) && Takes(GroupAt(ws, t + 1))
    ensures ServedAll(ws, t + 1) == FlushThese(ServedAll(ws, t), Dues(ws, t + 1, |ws|))
    ensures TakenTo(ws, t + 1)
  {
    hide Takes, GroupAt, Dues, TakenTo, ServedOne, Flushed;
    TakenNext(ws, t);
    var us, vs := ServedAll(ws, t + 1), FlushThese(ServedAll(ws, t), Dues(ws, t + 1, |ws|));
    forall i: nat | i < |ws|
      ensures us[i] == vs[i]
    {
      OneTaken(ws, i, t);
    }
  }

  /** Beyond a refused group nothing is flushed. */
  lemma NextRefused(ws: seq<Front>, t: nat, n: nat)
    requires t <= n && !TakenTo(ws, t + 1)
    ensures ServedAll(ws, n) == ServedAll(ws, t)
  {
    hide Takes, GroupAt, Dues, Flushed;
    forall i: nat | i < |ws|
      ensures ServedOne(ws, i, n) == ServedOne(ws, i, t)
    {
    }
  }

  lemma NothingServed(ws: seq<Front>)
    requires Loaded(ws)
    ensures ServedAll(ws, 0) == ws
  {
  }

  /** The groups in turn: each stream is flushed exactly when its own group and all smaller ones are
      taken. */
  lemma {:induction false} ServedIs(ws: seq<Front>, t: nat)
    requires Loaded(ws) && t <= BATCH_MAX
    ensures Served(ws, t).0 == ServedAll(ws, t)
    ensures Served(ws, t).1 == OK <==> TakenTo(ws, t)
  {
    hide FlushStep, Loaded, ServedAll, TakenTo;
    if t == 0 {
      NothingServed(ws);
      NoneTaken(ws);
    } else {
      ServedIs(ws, t - 1);
      if TakenTo(ws, t - 1) {
        ServedStep(ws, t - 1);
      } else {
        NotTaken(ws, t);
        NextRefused(ws, t - 1, t);
      }
    }
  }

  lemma NoneTaken(ws: seq<Front>)
    ensures TakenTo(ws, 0)
  {
  }

  lemma NotTaken(ws: seq<Front>, t: nat)
    requires t >= 1 && !TakenTo(ws, t - 1)
    ensures !TakenTo(ws, t)
  {
    hide Takes, GroupAt;
  }

  lemma ServedStep(ws: seq<Front>, t: nat)
    requires Loaded(ws) && t < BATCH_MAX && TakenTo(ws, t)
    ensures FlushStep(ServedAll(ws, t), t + 1).0 == ServedAll(ws, t + 1)
    ensures FlushStep(ServedAll(ws, t), t + 1).1 == OK <==> TakenTo(ws, t + 1)
  {
    hide GroupStatus, ServedAll, TakenTo, Takes, Loaded, Dues, FlushThese;
    GroupThen(ws, t);
    var grp := GroupAt(ws, t + 1);
    if grp == [] {
      NoGroup(grp);
      NextTaken(ws, t);
      NoneFlushed(ServedAll(ws, t));
    } else {
      TakesExactly(grp, t + 1);
      if Takes(grp) {
        NextTaken(ws, t);
      } else {
        GroupRefused(ws, t);
        NextRefused(ws, t, t + 1);
      }
    }
  }

  lemma NoGroup(grp: seq<Front>)
    requires grp == []
    ensures Takes(grp)
  {
  }

  lemma NoneFlushed(us: seq<Front>)
    ensures FlushThese(us, []) == us
  {
  }

  lemma GroupRefused(ws: seq<Front>, t: nat)
    requires !Takes(GroupAt(ws, t + 1))
    ensures !TakenTo(ws, t + 1)
  {
    hide Takes, GroupAt;
  }

  // ---- which streams stay below their target ---------------------------------------------------------

  /** Told before the call: the frame of stream i does not complete its batch, or stream i is behind a
      finished one, or no stream is finished, stream i is among the first 64 that complete theirs at
      its size, and the engine takes that group and all smaller ones. */
  ghost predicate Spared(ws: seq<Front>, frames: seq<Frame>, i: nat)
    requires |frames| == |ws| && i < |ws|
  {
    var n, us := |ws[i].bat| + 1, GatherTo(ws, frames, |ws|);
    || n < Target(ws[i])
    || FirstFinished(ws) < i
    || (FirstFinished(ws) == |ws| && i in Dues(us, n, |ws|) && TakenTo(us, n))
  }

  /** For every roster: a stream that was below its target is below it after a batched push if and only
      if it was spared. */
  lemma SteadyAfter(ws: seq<Front>, frames: seq<Frame>, i: nat)
    requires |frames| == |ws| && i < |ws| && Steady(ws[i])
    ensures Steady(AfterBatch(ws, frames).0[i]) <==> Spared(ws, frames, i)
  {
    hide Decode, Served, TakenTo, Sound, FlushSizes;
    if FirstFinished(ws) < |ws| {
      RefusedGathers(ws, frames, i);
    } else {
      var us := GatherTo(ws, frames, |ws|);
      ServedIs(us, BATCH_MAX);
      OneSteady(ws[i], frames[i]);
      if i in Dues(us, |us[i].bat|, |us|) && TakenTo(us, |us[i].bat|) {
        FlushedSteady(us, i, ws[i], frames[i]);
      }
    }
  }

  lemma OneSteady(v: Front, f: Frame)
    requires Steady(v)
    ensures Steady(Gather(v, f)) <==> |v.bat| + 1 < Target(v)
    ensures 1 <= |v.bat| + 1 <= BATCH_MAX && |v.bat| < Target(v) && Sound(Gather(v, f))
  {
    hide Decode;
    GatherSound(v, f);
  }

  lemma TakenIsIdle(us: seq<Front>, i: nat, n: nat)
    requires i < |us| && n == |us[i].bat| >= 1 && i in Dues(us, n, |us|) && TakenTo(us, n)
    ensures us[i].pending == 0 && Due(us[i], n)
  {
    hide Dues, Due;
    var idx := Dues(us, n, |us|);
    DuesAre(us, n, |us|);
    assert Takes(GroupAt(us, n));
    var g: nat :| g < |idx| && idx[g] == i;
    assert GroupAt(us, n)[g] == us[i] && Due(us[idx[g]], n);
  }

  lemma FullSteady(v: Front, f: Frame)
    requires Steady(v) && v.pending == 0 && |v.bat| + 1 >= Target(v)
    ensures Steady(Flushed(Gather(v, f)))
  {
    hide Decode;
    SteadyRoom(v);
    GatherSound(v, f);
    SentSound(Gather(v, f));
  }

  lemma FlushedSteady(us: seq<Front>, i: nat, v: Front, f: Frame)
    requires i < |us| && Steady(v) && us[i] == Gather(v, f)
    requires i in Dues(us, |us[i].bat|, |us|) && TakenTo(us, |us[i].bat|)
    ensures Steady(Flushed(us[i]))
  {
    hide Dues, TakenTo, Steady, Flushed;
    TakenIsIdle(us, i, |us[i].bat|);
    FullSteady(v, f);
  }

  /** More than 64 streams complete their batch at one size. */
  ghost predicate Crowded(ws: seq<Front>, frames: seq<Frame>, tn: nat)
    requires |frames| == |ws|
  {
    |AllDue(GatherTo(ws, frames, |ws|), tn, |ws|)| > GROUP_MAX
  }

  /** A roster of streams below their targets: all are below again if and only if no size is crowded and
      the engine takes every group. */
  lemma AllSteadyExactly(ws: seq<Front>, frames: seq<Frame>)
    requires |frames| == |ws| && forall i: nat :: i < |ws| ==> Steady(ws[i])
    ensures (forall i: nat :: i < |ws| ==> Steady(AfterBatch(ws, frames).0[i]))
       <==> (forall tn: nat :: 1 <= tn <= BATCH_MAX ==>
              !Crowded(ws, frames, tn) && Takes(GroupAt(GatherTo(ws, frames, |ws|), tn)))
  {
    hide AfterBatch, Steady, Dues, AllDue, Takes;
    var us := GatherTo(ws, frames, |ws|);
    forall i: nat | i < |ws|
      ensures Steady(AfterBatch(ws, frames).0[i]) <==> Spared(ws, frames, i)
    {
      SteadyAfter(ws, frames, i);
    }
    AllUnfinished(ws);
    if forall tn: nat :: 1 <= tn <= BATCH_MAX ==> !Crowded(ws, frames, tn) && Takes(GroupAt(us, tn)) {
      forall i: nat | i < |ws|
        ensures Spared(ws, frames, i)
      {
        OneSteady(ws[i], frames[i]);
        if |ws[i].bat| + 1 >= Target(ws[i]) {
          NotCrowded(ws, frames, i);
        }
      }
    } else {
      var tn: nat :| 1 <= tn <= BATCH_MAX && (Crowded(ws, frames, tn) || !Takes(GroupAt(us, tn)));
      if Crowded(ws, frames, tn) {
        var i := LeftBehind(ws, frames, tn);
        assert !Spared(ws, frames, i);
      } else {
        var i := RefusedMember(ws, frames, tn);
        assert !Spared(ws, frames, i);
      }
    }
  }

  lemma AllUnfinished(ws: seq<Front>)
    requires forall i: nat :: i < |ws| ==> Steady(ws[i])
    ensures FirstFinished(ws) == |ws|
  {
    hide Sound;
  }

  /** A stream that completes its batch at a size that is not crowded is in its group. */
  lemma NotCrowded(ws: seq<Front>, frames: seq<Frame>, i: nat)
    requires |frames| == |ws| && i < |ws| && |ws[i].bat| + 1 >= Target(ws[i]) && !Crowded(ws, frames, |ws[i].bat| + 1)
    ensures i in Dues(GatherTo(ws, frames, |ws|), |ws[i].bat| + 1, |ws|)
  {
    hide Dues, AllDue;
    var us := GatherTo(ws, frames, |ws|);
    CutAt64(us, |ws[i].bat| + 1, |ws|);
    AllDueAre(us, |ws[i].bat| + 1, |ws|);
  }

  /** The 65th due stream is not spared. */
  lemma LeftBehind(ws: seq<Front>, frames: seq<Frame>, tn: nat) returns (i: nat)
    requires |frames| == |ws| && Crowded(ws, frames, tn) && FirstFinished(ws) == |ws|
    ensures i < |ws| && !Spared(ws, frames, i)
  {
    hide Dues, AllDue, TakenTo;
    var us := GatherTo(ws, frames, |ws|);
    var all := AllDue(us, tn, |ws|);
    CutAt64(us, tn, |ws|);
    AllDueAre(us, tn, |ws|);
    i := all[GROUP_MAX];
    assert Due(us[i], tn);
    assert forall g: nat :: g < GROUP_MAX ==> all[g] < i;
  }

  /** Nor is a member of a group the engine refuses. */
  lemma RefusedMember(ws: seq<Front>, frames: seq<Frame>, tn: nat) returns (i: nat)
    requires |frames| == |ws| && tn >= 1 && FirstFinished(ws) == |ws|
    requires !Takes(GroupAt(GatherTo(ws, frames, |ws|), tn))
    ensures i < |ws| && !Spared(ws, frames, i)
  {
    hide Dues, Takes;
    var us := GatherTo(ws, frames, |ws|);
    var idx := Dues(us, tn, |ws|);
    DuesAre(us, tn, |ws|);
    if idx == [] {
      NoGroup(GroupAt(us, tn));
    }
    i := idx[0];
    assert Due(us[idx[0]], tn);
  }

  // ---- idle streams of one codec -------------------------------------------------------------------

  /** Idle streams of one codec with room in their buffers, none finished. */
  ghost predicate Open(ws: seq<Front>) {
    forall i: nat :: i < |ws| ==>
      Idle(ws[i]) && !ws[i].finished && |ws[i].bat| < BATCH_MAX && ws[i].codec == ws[0].codec
  }

  /** The engine takes any group of them. */
  lemma OpenTaken(ws: seq<Front>, frames: seq<Frame>, tn: nat)
    requires |frames| == |ws| && Open(ws)
    ensures Takes(GroupAt(GatherTo(ws, frames, |ws|), tn))
  {
    hide Dues;
    var us := GatherTo(ws, frames, |ws|);
    var idx := Dues(us, tn, |us|);
    forall g: nat | g < |idx|
      ensures us[idx[g]].pending == 0 && us[idx[g]].codec == ws[0].codec
      ensures |us[idx[g]].fed| + |us[idx[g]].bat| <= INT32_MAX / 4
    {
      assert Idle(ws[idx[g]]);
    }
  }

  lemma OpenTakenTo(ws: seq<Front>, frames: seq<Frame>, n: nat)
    requires |frames| == |ws| && Open(ws)
    ensures TakenTo(GatherTo(ws, frames, |ws|), n)
  {
    hide Takes, GroupAt, GatherTo, Open;
    forall tn: nat | 1 <= tn <= n
      ensures Takes(GroupAt(GatherTo(ws, frames, |ws|), tn))
    {
      OpenTaken(ws, frames, tn);
    }
  }

  /** Stream i does not complete its batch, or is among the first 64 that complete theirs at its size. */
  ghost predicate Reached(ws: seq<Front>, frames: seq<Frame>, i: nat)
    requires |frames| == |ws| && i < |ws|
  {
    |ws[i].bat| + 1 < Target(ws[i]) || i in Dues(GatherTo(ws, frames, |ws|), |ws[i].bat| + 1, |ws|)
  }

  /** A batched push of open streams, however many: a push to each stream that is reached, while the
      others gather their frame and keep it. */
  lemma BatchOutcome(ws: seq<Front>, frames: seq<Frame>, i: nat)
    requires |frames| == |ws| && i < |ws| && Open(ws)
    ensures AfterBatch(ws, frames).1 == OK && AfterPush(ws[i], frames[i]).1 == OK
    ensures AfterBatch(ws, frames).0[i] ==
      if Reached(ws, frames, i) then AfterPush(ws[i], frames[i]).0 else Gather(ws[i], frames[i])
  {
    hide Served, TakenTo, Dues;
    var us := GatherTo(ws, frames, |ws|);
    assert FirstFinished(ws) == |ws|;
    ServedIs(us, BATCH_MAX);
    OpenTakenTo(ws, frames, BATCH_MAX);
    OpenTakenTo(ws, frames, |us[i].bat|);
    DuesAre(us, |us[i].bat|, |us|);
    if i in Dues(us, |us[i].bat|, |us|) {
      var g: nat :| g < |Dues(us, |us[i].bat|, |us|)| && Dues(us, |us[i].bat|, |us|)[g] == i;
      assert Due(us[i], |us[i].bat|);
    }
  }

  /** A batched push of at most 64 of them is a push to each. */
  lemma BatchIsEach(ws: seq<Front>, frames: seq<Frame>)
    requires |frames| == |ws| && 1 <= |ws| <= GROUP_MAX && Open(ws)
    ensures AfterBatch(ws, frames).1 == OK
    ensures forall i: nat :: i < |ws| ==>
      AfterBatch(ws, frames).0[i] == AfterPush(ws[i], frames[i]).0 && AfterPush(ws[i], frames[i]).1 == OK
  {
    hide AfterBatch, AfterPush, Dues;
    BatchOutcome(ws, frames, 0);
    forall i: nat | i < |ws|
      ensures AfterBatch(ws, frames).0[i] == AfterPush(ws[i], frames[i]).0 && AfterPush(ws[i], frames[i]).1 == OK
    {
      var us := GatherTo(ws, frames, |ws|);
      BatchOutcome(ws, frames, i);
      DuesAll(us, |us[i].bat|, |us|);
    }
  }

  /** Among them only crowding matters. */
  lemma SteadyExactly(ws: seq<Front>, frames: seq<Frame>)
    requires |frames| == |ws| && Open(ws) && forall i: nat :: i < |ws| ==> Steady(ws[i])
    ensures forall i: nat :: i < |ws| ==> (Steady(AfterBatch(ws, frames).0[i]) <==> Reached(ws, frames, i))
    ensures (forall i: nat :: i < |ws| ==> Steady(AfterBatch(ws, frames).0[i]))
       <==> forall tn: nat :: 1 <= tn <= BATCH_MAX ==> !Crowded(ws, frames, tn)
  {
    hide AfterBatch, Steady, Dues, AllDue, Takes, GroupAt, TakenTo;
    AllUnfinished(ws);
    forall i: nat | i < |ws|
      ensures Steady(AfterBatch(ws, frames).0[i]) <==> Reached(ws, frames, i)
    {
      SteadyAfter(ws, frames, i);
      OpenTakenTo(ws, frames, |ws[i].bat| + 1);
    }
    forall tn: nat
      ensures Takes(GroupAt(GatherTo(ws, frames, |ws|), tn))
    {
      OpenTaken(ws, frames, tn);
    }
    AllSteadyExactly(ws, frames);
  }

  // ---- a call refused without a finished stream ------------------------------------------------------

  /** One stream that completes its batch with samples in flight: refused, the batch kept. */
  lemma AloneInFlight(v: Front, f: Frame)
    requires Steady(v) && v.pending > 0 && |v.bat| + 1 == Target(v)
    ensures AfterBatch([v], [f]).0 == [Gather(v, f)] && AfterBatch([v], [f]).1 != OK
  {
    hide Served, Sound;
    var us := GatherTo([v], [f], 1);
    var n := |us[0].bat|;
    OneSteady(v, f);
    ServedIs(us, BATCH_MAX);
    DuesAll(us, n, 1);
    assert Due(us[0], n);
    assert GroupAt(us, n) == [us[0]];
    assert !TakenTo(us, n);
  }

  /** Two streams of different codecs that complete a batch of the same size: refused, both batches
      kept. */
  lemma TwoCodecs(v: Front, w: Front, f: Frame)
    requires !v.finished && !w.finished && v.codec != w.codec
    requires v.bat == w.bat == [] && !v.firstFlushed && !w.firstFlushed && v.pending == w.pending == 0
    ensures AfterBatch([v, w], [f, f]) == ([Gather(v, f), Gather(w, f)], Invalid)
  {
    var us := GatherTo([v, w], [f, f], 2);
    assert us == [Gather(v, f), Gather(w, f)];
    assert Dues(us, 1, 2) == [0, 1];
    var grp := Pick(us, [0, 1]);
    var cs, ps := CodecsOf(grp), PendingsOf(grp);
    assert cs[0] == v.codec && cs[1] == w.codec;
    NoOffence(cs, ps, 0);
    assert Offence(cs, ps, 1) == Invalid;
    ServedNext(us, 0);
    ServedStops(us, 1, BATCH_MAX);
  }
}
