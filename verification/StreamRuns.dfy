/** Whole runs of many streams: single and batched pushes, collects and finishes in any order. */
module StreamRuns {
  import opened Basics
  import K = Kernels
  import opened Codec
  import opened Whole
  import opened Scratch
  import opened Incremental
  import opened Tables
  import opened Front
  import opened FrontBatch
  import opened Stream
  import opened StreamBatch

  /** One call by the program that holds the streams. */
  datatype Event =
    | Push(i: nat, f: Frame)
    | PushBatch(roster: seq<(nat, Frame)>)
    | Collect(i: nat)
    | Finish(i: nat)

  /** The frame a roster gives to stream i, or none. */
  function ShareOf(roster: seq<(nat, Frame)>, i: nat): (fs: seq<Frame>)
    ensures |fs| <= 1
  {
    if roster == [] then []
    else
      var n: nat := |roster| - 1;
      if roster[n].0 == i then [roster[n].1] else ShareOf(roster[..n], i)
  }

  predicate Names(roster: seq<(nat, Frame)>, i: nat) {
    ShareOf(roster, i) != []
  }

  /** Has stream i been finished? */
  predicate Finished(events: seq<Event>, i: nat) {
    Event.Finish(i) in events
  }

  /** The frames pushed to stream i before it was finished. */
  function Frames(events: seq<Event>, i: nat): (fs: seq<Frame>)
    ensures |fs| <= |events|
  {
    if events == [] then []
    else
      var n: nat := |events| - 1;
      var fs := Frames(events[..n], i);
      if Finished(events[..n], i) then fs
      else
        match events[n]
        case Push(j, f) => if j == i then fs + [f] else fs
        case PushBatch(roster) => fs + ShareOf(roster, i)
        case _ => fs
  }

  /** Nothing has been pushed to stream i since it was last collected. */
  predicate Clean(events: seq<Event>, i: nat) {
    events == [] ||
    var n: nat := |events| - 1;
    match events[n]
    case Push(j, _) => j != i && Clean(events[..n], i)
    case PushBatch(roster) => !Names(roster, i) && Clean(events[..n], i)
    case Collect(j) => j == i || Clean(events[..n], i)
    case Finish(j) => j == i || Clean(events[..n], i)
  }

  predicate DistinctIds(roster: seq<(nat, Frame)>) {
    forall g: nat, h: nat :: g < h < |roster| ==> roster[g].0 != roster[h].0
  }

  /** What the program must keep to: streams exist, every push finds its stream collected, and a
      roster names at most 64 streams, none twice and none that is finished. */
  predicate Polite(n: nat, events: seq<Event>) {
    events == [] ||
    var k: nat := |events| - 1;
    var before := events[..k];
    && Polite(n, before)
    && match events[k]
       case Push(i, _) => i < n && (Finished(before, i) || Clean(before, i))
       case PushBatch(roster) =>
         && |roster| <= GROUP_MAX && DistinctIds(roster)
         && forall g: nat :: g < |roster| ==>
           roster[g].0 < n && !Finished(before, roster[g].0) && Clean(before, roster[g].0)
       case Collect(i) => i < n
       case Finish(i) => i < n && (Finished(before, i) || Clean(before, i))
  }

  // ---- one stream ---------------------------------------------------------------------------------

  /** A stream that has been pushed frames fs and has handed out `out`. */
  ghost predicate InRun(v: Front, d: Dac, batch: nat, fs: seq<Frame>, finished: bool, clean: bool, out: seq<K.Col>) {
    && v.codec == d && v.batch == batch && v.pushed == fs && v.collected == out && v.finished == finished
    && (clean ==> v.pending == 0)
    && (if finished then Sound(v) && v.bat == [] && v.pending == 0 else Steady(v))
  }

  lemma RunPush(v: Front, d: Dac, batch: nat, fs: seq<Frame>, f: Frame, out: seq<K.Col>)
    requires InRun(v, d, batch, fs, false, true, out) && |fs| + BATCH_MAX <= INT32_MAX / 4
    ensures AfterPush(v, f).1 == OK && InRun(AfterPush(v, f).0, d, batch, fs + [f], false, false, out)
    ensures Idle(v) && |v.bat| < BATCH_MAX && Sound(v)
  {
    hide Sound;
    SteadyRoom(v);
    PushSteady(v, f);
  }

  lemma RunCollect(v: Front, d: Dac, batch: nat, fs: seq<Frame>, finished: bool, clean: bool, out: seq<K.Col>,
                   pcm: seq<K.Col>)
    requires InRun(v, d, batch, fs, finished, clean, out) && Sound(AfterCollect(v, pcm))
    requires |pcm| == FRAME_SAMPLES * v.pending
    ensures InRun(AfterCollect(v, pcm), d, batch, fs, finished, true, out + pcm)
  {
    hide Decode;
    if finished {
      assert pcm == [];
      assert out + pcm == out;
    } else {
      CollectSteady(v, pcm);
    }
  }

  lemma RunFinish(v: Front, d: Dac, batch: nat, fs: seq<Frame>, out: seq<K.Col>, pcm: seq<K.Col>)
    requires InRun(v, d, batch, fs, false, true, out) && |fs| + BATCH_MAX <= INT32_MAX / 4
    ensures AfterFinish(v).1 == OK
    ensures Sound(AfterCollect(AfterFinish(v).0, pcm)) ==>
      InRun(AfterCollect(AfterFinish(v).0, pcm), d, batch, fs, true, true, out + pcm)
  {
    hide Sound;
    SteadyRoom(v);
    FinishSteady(v);
  }

  /** What a stream of the run has handed out. */
  lemma RunHandsOut(v: Front, d: Dac, batch: nat, fs: seq<Frame>, finished: bool, clean: bool, out: seq<K.Col>)
    requires InRun(v, d, batch, fs, finished, clean, out) && batch >= 1
    ensures out <= Decode(d.net, fs)
    ensures finished ==> out == Decode(d.net, fs) && |out| == FRAME_SAMPLES * |fs|
    ensures !finished && clean ==> Left(|fs|, batch) <= |fs| && out == Decode(d.net, fs[..|fs| - Left(|fs|, batch)])
  {
    hide Decode;
    var m: nat := |v.fed| - v.pending;
    assert v.fed[..m] == fs[..m];
    DecodePrefix(d.net, fs[..m], fs);
    if finished {
      assert fs[..m] == fs;
      DecodeLength(d.net, fs);
    } else if clean {
      SteadyHandedOut(v);
    }
  }

  // ---- all streams ------------------------------------------------------------------------------

  /** Stream i after the events, as a value. */
  ghost predicate ViewAt(v: Front, d: Dac, batch: nat, events: seq<Event>, i: nat, out: seq<K.Col>) {
    InRun(v, d, batch, Frames(events, i), Finished(events, i), Clean(events, i), out)
  }

  /** Stream i after the events, having handed out `out`. */
  ghost predicate StreamAt(s: Stream, d: Dac, batch: nat, events: seq<Event>, i: nat, out: seq<K.Col>)
    reads s, s.inc
  {
    s.inc.Valid() && ViewAt(s.View(), d, batch, events, i, out)
  }

  ghost predicate RunAt(strs: seq<Stream>, d: Dac, batch: nat, events: seq<Event>, outs: seq<seq<K.Col>>)
    reads strs, Engines(strs)
  {
    |outs| == |strs| && forall i: nat :: i < |strs| ==> StreamAt(strs[i], d, batch, events, i, outs[i])
  }

  /** The event concerns stream i only. */
  predicate Concerns(e: Event, i: nat) {
    match e
    case Push(j, _) => j == i
    case PushBatch(_) => false
    case Collect(j) => j == i
    case Finish(j) => j == i
  }

  lemma OtherEvent(before: seq<Event>, e: Event, i: nat, j: nat)
    requires Concerns(e, i) && j != i
    ensures var es := before + [e];
            Frames(es, j) == Frames(before, j) && Finished(es, j) == Finished(before, j)
              && Clean(es, j) == Clean(before, j)
  {
    assert (before + [e])[..|before|] == before;
  }

  /** An event of one stream leaves the others where they were. */
  lemma OneStep(strs: seq<Stream>, d: Dac, batch: nat, before: seq<Event>, e: Event, i: nat, outs: seq<seq<K.Col>>,
                out: seq<K.Col>)
    requires i < |strs| == |outs| && Concerns(e, i) && StreamAt(strs[i], d, batch, before + [e], i, out)
    requires forall j: nat :: j < |strs| && j != i ==> StreamAt(strs[j], d, batch, before, j, outs[j])
    ensures RunAt(strs, d, batch, before + [e], outs[i := out])
  {
    hide InRun, Inc.Valid, Frames, Finished, Clean;
    forall j: nat | j < |strs|
      ensures StreamAt(strs[j], d, batch, before + [e], j, outs[i := out][j])
    {
      if j != i {
        OtherEvent(before, e, i, j);
      }
    }
  }

  lemma Alone(strs: seq<Stream>, i: nat)
    requires Separate(strs) && i < |strs|
    ensures forall j: nat :: j < |strs| && j != i ==> strs[j] != strs[i] && strs[j].inc != strs[i].inc
  {
    EnginesDistinct(strs);
  }

  method StepPush(strs: seq<Stream>, d: Dac, batch: nat, ghost before: seq<Event>, i: nat, f: Frame,
                  outs: seq<seq<K.Col>>)
    requires RunAt(strs, d, batch, before, outs) && Separate(strs) && |before| + BATCH_MAX <= INT32_MAX / 4
    requires i < |strs| && (Finished(before, i) || Clean(before, i))
    modifies strs, Engines(strs), d
    ensures RunAt(strs, d, batch, before + [Event.Push(i, f)], outs)
  {
    hide StateIs, Decode, Inc.Valid, Sound, Steady, InRun, AfterPush;
    ghost var e, v := Event.Push(i, f), strs[i].View();
    assert StreamAt(strs[i], d, batch, before, i, outs[i]);
    Alone(strs, i);
    PushFacts(strs[i], d, batch, before, i, f, outs[i]);
    var st := strs[i].PushAsync(f);
    OneStep(strs, d, batch, before, e, i, outs, outs[i]);
    assert outs[i := outs[i]] == outs;
  }

  /** What a push makes of the stream it names. */
  lemma PushFacts(s: Stream, d: Dac, batch: nat, before: seq<Event>, i: nat, f: Frame, out: seq<K.Col>)
    requires StreamAt(s, d, batch, before, i, out) && (Finished(before, i) || Clean(before, i))
    requires |before| + BATCH_MAX <= INT32_MAX / 4
    ensures s.Core() && s.inc.dac == d && (!s.finished ==> |s.bat| < BATCH_MAX)
    ensures var es := before + [Event.Push(i, f)];
            InRun(AfterPush(s.View(), f).0, d, batch, Frames(es, i), Finished(es, i), Clean(es, i), out)
  {
    hide Inc.Valid, Sound, Steady;
    assert (before + [Event.Push(i, f)])[..|before|] == before;
    if !Finished(before, i) {
      RunPush(s.View(), d, batch, Frames(before, i), f, out);
    }
  }

  method StepCollect(strs: seq<Stream>, d: Dac, batch: nat, ghost before: seq<Event>, i: nat, outs: seq<seq<K.Col>>)
    returns (outs': seq<seq<K.Col>>)
    requires RunAt(strs, d, batch, before, outs) && Separate(strs) && i < |strs|
    modifies strs, Engines(strs)
    ensures RunAt(strs, d, batch, before + [Event.Collect(i)], outs')
  {
    hide StateIs, Decode, Inc.Valid, Sound, Steady, AfterCollect;
    ghost var e, v := Event.Collect(i), strs[i].View();
    assert StreamAt(strs[i], d, batch, before, i, outs[i]);
    Alone(strs, i);
    InRunSound(v, d, batch, Frames(before, i), Finished(before, i), Clean(before, i), outs[i]);
    var pcm := strs[i].Collect();
    assert (before + [e])[..|before|] == before;
    RunCollect(v, d, batch, Frames(before, i), Finished(before, i), Clean(before, i), outs[i], pcm);
    outs' := outs[i := outs[i] + pcm];
    OneStep(strs, d, batch, before, e, i, outs, outs[i] + pcm);
  }

  lemma InRunSound(v: Front, d: Dac, batch: nat, fs: seq<Frame>, finished: bool, clean: bool, out: seq<K.Col>)
    requires InRun(v, d, batch, fs, finished, clean, out)
    ensures Sound(v)
  {
  }

  method StepFinish(strs: seq<Stream>, d: Dac, batch: nat, ghost before: seq<Event>, i: nat, outs: seq<seq<K.Col>>)
    returns (outs': seq<seq<K.Col>>)
    requires RunAt(strs, d, batch, before, outs) && Separate(strs) && |before| + BATCH_MAX <= INT32_MAX / 4
    requires i < |strs| && (Finished(before, i) || Clean(before, i))
    modifies strs, Engines(strs), d
    ensures RunAt(strs, d, batch, before + [Event.Finish(i)], outs')
  {
    hide StateIs, Decode, Inc.Valid, Sound, Steady, AfterFinish, AfterCollect;
    ghost var e, v := Event.Finish(i), strs[i].View();
    assert StreamAt(strs[i], d, batch, before, i, outs[i]);
    Alone(strs, i);
    InRunSound(v, d, batch, Frames(before, i), Finished(before, i), Clean(before, i), outs[i]);
    var st, pcm := strs[i].Finish();
    FinishFacts(v, strs[i].View(), d, batch, before, i, outs[i], pcm);
    outs' := outs[i := outs[i] + pcm];
    OneStep(strs, d, batch, before, e, i, outs, outs[i] + pcm);
  }

  /** What a finish makes of the stream it names. */
  lemma FinishFacts(v: Front, w: Front, d: Dac, batch: nat, before: seq<Event>, i: nat, out: seq<K.Col>,
                    pcm: seq<K.Col>)
    requires InRun(v, d, batch, Frames(before, i), Finished(before, i), Clean(before, i), out)
    requires (Finished(before, i) || Clean(before, i)) && |before| + BATCH_MAX <= INT32_MAX / 4
    requires Sound(w) && w == if AfterFinish(v).1 == OK then AfterCollect(AfterFinish(v).0, pcm) else AfterFinish(v).0
    requires AfterFinish(v).1 != OK ==> pcm == []
    ensures var es := before + [Event.Finish(i)];
            InRun(w, d, batch, Frames(es, i), Finished(es, i), Clean(es, i), out + pcm)
  {
    hide Sound, Steady;
    assert (before + [Event.Finish(i)])[..|before|] == before;
    if Finished(before, i) {
      assert out + pcm == out;
    } else {
      RunFinish(v, d, batch, Frames(before, i), out, pcm);
    }
  }

  // ---- a batched push -----------------------------------------------------------------------------

  function Members(strs: seq<Stream>, roster: seq<(nat, Frame)>): (sub: seq<Stream>)
    requires forall g: nat :: g < |roster| ==> roster[g].0 < |strs|
    ensures |sub| == |roster|
  {
    seq(|roster|, g requires 0 <= g < |roster| && roster[g].0 < |strs| => strs[roster[g].0])
  }

  function FramesOf(roster: seq<(nat, Frame)>): (fs: seq<Frame>)
    ensures |fs| == |roster|
  {
    seq(|roster|, g requires 0 <= g < |roster| => roster[g].1)
  }

  lemma {:induction false} ShareIs(roster: seq<(nat, Frame)>, i: nat)
    requires DistinctIds(roster)
    ensures forall g: nat :: g < |roster| && roster[g].0 == i ==> ShareOf(roster, i) == [roster[g].1]
    ensures (forall g: nat :: g < |roster| ==> roster[g].0 != i) ==> ShareOf(roster, i) == []
  {
    if roster != [] {
      ShareIs(roster[..|roster| - 1], i);
    }
  }

  lemma MembersSeparate(strs: seq<Stream>, roster: seq<(nat, Frame)>)
    requires Separate(strs) && DistinctIds(roster) && forall g: nat :: g < |roster| ==> roster[g].0 < |strs|
    ensures Separate(Members(strs, roster))
    ensures forall i: nat :: i < |strs| && Absent(roster, i) ==>
      strs[i] !in Members(strs, roster) && strs[i].inc !in Engines(Members(strs, roster))
    ensures forall g: nat :: g < |roster| ==> Members(strs, roster)[g].inc in Engines(strs)
  {
    var sub := Members(strs, roster);
    EnginesDistinct(strs);
    forall g: nat, h: nat | g < h < |sub|
      ensures sub[g] != sub[h] && BasesApart(sub[g].inc.base, sub[h].inc.base)
    {
      var i, j := roster[g].0, roster[h].0;
      if i < j {
        assert BasesApart(strs[i].inc.base, strs[j].inc.base);
      } else {
        assert BasesApart(strs[j].inc.base, strs[i].inc.base);
      }
    }
    forall g: nat | g < |roster|
      ensures sub[g].inc in Engines(strs)
    {
      assert Engines(strs)[roster[g].0] == sub[g].inc;
    }
  }

  /** A stream that may be pushed. */
  ghost predicate Pushable(v: Front, d: Dac) {
    Idle(v) && !v.finished && |v.bat| < BATCH_MAX && v.codec == d && Sound(v)
  }

  lemma OneOfBatch(v: Front, d: Dac, batch: nat, before: seq<Event>, roster: seq<(nat, Frame)>, g: nat, out: seq<K.Col>)
    requires g < |roster| && DistinctIds(roster) && |before| + BATCH_MAX <= INT32_MAX / 4
    requires !Finished(before, roster[g].0) && Clean(before, roster[g].0)
    requires ViewAt(v, d, batch, before, roster[g].0, out)
    ensures Pushable(v, d)
    ensures ViewAt(AfterPush(v, roster[g].1).0, d, batch, before + [Event.PushBatch(roster)], roster[g].0, out)
    ensures AfterPush(v, roster[g].1).1 == OK
  {
    hide Sound, Steady, AfterPush, Idle;
    assert (before + [Event.PushBatch(roster)])[..|before|] == before;
    RunPush(v, d, batch, Frames(before, roster[g].0), roster[g].1, out);
    ShareIs(roster, roster[g].0);
  }

  lemma PushableBatch(ws: seq<Front>, d: Dac, fs: seq<Frame>)
    requires |fs| == |ws| <= GROUP_MAX && forall g: nat :: g < |ws| ==> Pushable(ws[g], d)
    ensures forall g: nat :: g < |ws| ==> AfterBatch(ws, fs).0[g] == AfterPush(ws[g], fs[g]).0
  {
    hide AfterPush, AfterBatch, Sound, Idle;
    if ws != [] {
      BatchIsEach(ws, fs);
    }
  }

  /** What a batched push makes of a stream it names. */
  lemma BatchFacts(ws: seq<Front>, d: Dac, batch: nat, before: seq<Event>, roster: seq<(nat, Frame)>, g: nat,
                   out: seq<K.Col>)
    requires |ws| == |roster| <= GROUP_MAX && DistinctIds(roster) && |before| + BATCH_MAX <= INT32_MAX / 4
    requires g < |roster| && !Finished(before, roster[g].0) && Clean(before, roster[g].0)
    requires ViewAt(ws[g], d, batch, before, roster[g].0, out)
    requires forall h: nat :: h < |ws| ==> Pushable(ws[h], d)
    ensures ViewAt(AfterBatch(ws, FramesOf(roster)).0[g], d, batch, before + [Event.PushBatch(roster)], roster[g].0,
      out)
  {
    hide ViewAt, AfterPush, AfterBatch, Finished, Clean, DistinctIds, Pushable;
    PushableBatch(ws, d, FramesOf(roster));
    OneOfBatch(ws[g], d, batch, before, roster, g, out);
  }

  /** The roster does not name stream i. */
  predicate Absent(roster: seq<(nat, Frame)>, i: nat) {
    forall g: nat :: g < |roster| ==> roster[g].0 != i
  }

  lemma OtherView(v: Front, d: Dac, batch: nat, before: seq<Event>, roster: seq<(nat, Frame)>, i: nat, out: seq<K.Col>)
    requires DistinctIds(roster) && Absent(roster, i) && ViewAt(v, d, batch, before, i, out)
    ensures ViewAt(v, d, batch, before + [Event.PushBatch(roster)], i, out)
  {
    hide InRun, Frames, Finished, Clean;
    OtherBatch(before, roster, i);
  }

  lemma OtherBatch(before: seq<Event>, roster: seq<(nat, Frame)>, i: nat)
    requires DistinctIds(roster) && Absent(roster, i)
    ensures var es := before + [Event.PushBatch(roster)];
            Frames(es, i) == Frames(before, i) && Finished(es, i) == Finished(before, i)
              && Clean(es, i) == Clean(before, i)
  {
    assert (before + [Event.PushBatch(roster)])[..|before|] == before;
    ShareIs(roster, i);
  }

  /** The streams of a roster may all be pushed. */
  lemma RosterPushable(strs: seq<Stream>, d: Dac, batch: nat, before: seq<Event>, roster: seq<(nat, Frame)>,
                       outs: seq<seq<K.Col>>)
    requires RunAt(strs, d, batch, before, outs) && DistinctIds(roster) && |before| + BATCH_MAX <= INT32_MAX / 4
    requires forall g: nat :: g < |roster| ==>
      roster[g].0 < |strs| && !Finished(before, roster[g].0) && Clean(before, roster[g].0)
    ensures forall g: nat :: g < |roster| ==>
      Members(strs, roster)[g].inc.Valid() && Pushable(Members(strs, roster)[g].View(), d)
  {
    hide Inc.Valid, ViewAt, Finished, Clean, DistinctIds, Pushable;
    forall g: nat | g < |roster|
      ensures Members(strs, roster)[g].inc.Valid() && Pushable(Members(strs, roster)[g].View(), d)
    {
      assert StreamAt(strs[roster[g].0], d, batch, before, roster[g].0, outs[roster[g].0]);
      OneOfBatch(strs[roster[g].0].View(), d, batch, before, roster, g, outs[roster[g].0]);
    }
  }

  method StepBatch(strs: seq<Stream>, d: Dac, batch: nat, ghost before: seq<Event>, roster: seq<(nat, Frame)>,
                   outs: seq<seq<K.Col>>, tab: PointerTable)
    requires RunAt(strs, d, batch, before, outs) && Separate(strs) && tab.Valid()
    requires |roster| <= GROUP_MAX && DistinctIds(roster) && |before| + BATCH_MAX <= INT32_MAX / 4
    requires forall g: nat :: g < |roster| ==>
      roster[g].0 < |strs| && !Finished(before, roster[g].0) && Clean(before, roster[g].0)
    modifies strs, Engines(strs), d, tab, tab.pin, tab.dev
    ensures tab.Valid() && RunAt(strs, d, batch, before + [Event.PushBatch(roster)], outs)
    ensures (tab.pin == old(tab.pin) || fresh(tab.pin)) && (tab.dev == old(tab.dev) || fresh(tab.dev))
  {
    hide StateIs, Decode, Inc.Valid, Sound, ViewAt, Finished, Clean, Describes, AfterBatch, DistinctIds, Separate;
    hide Pushable, Absent;
    var sub := Members(strs, roster);
    ghost var ws, was := Views(sub), Views(strs);
    MembersSeparate(strs, roster);
    RosterPushable(strs, d, batch, before, roster, outs);
    CodecIs(sub, ws, d);
    assert ws == Picked(was, roster);
    var st := PushStreams(sub, FramesOf(roster), tab);
    forall i: nat | i < |strs|
      ensures StreamAt(strs[i], d, batch, before + [Event.PushBatch(roster)], i, outs[i])
    {
      Rejoin(strs, was, d, batch, before, roster, i, outs[i]);
    }
  }

  /** A stream after the call: as the specification says if it was named, else as it was. */
  lemma Rejoin(strs: seq<Stream>, was: seq<Front>, d: Dac, batch: nat, before: seq<Event>, roster: seq<(nat, Frame)>,
               i: nat, out: seq<K.Col>)
    requires i < |was| == |strs| && |roster| <= GROUP_MAX && DistinctIds(roster)
    requires |before| + BATCH_MAX <= INT32_MAX / 4
    requires forall g: nat :: g < |roster| ==>
      roster[g].0 < |strs| && !Finished(before, roster[g].0) && Clean(before, roster[g].0)
    requires strs[i].inc.Valid() && ViewAt(was[i], d, batch, before, i, out)
    requires Absent(roster, i) ==> strs[i].View() == was[i]
    requires forall g: nat :: g < |roster| ==> Pushable(Picked(was, roster)[g], d)
    requires Views(Members(strs, roster)) == AfterBatch(Picked(was, roster), FramesOf(roster)).0
    ensures StreamAt(strs[i], d, batch, before + [Event.PushBatch(roster)], i, out)
  {
    hide Inc.Valid, ViewAt, Finished, Clean, AfterBatch, DistinctIds, Pushable;
    if Absent(roster, i) {
      OtherView(was[i], d, batch, before, roster, i, out);
    } else {
      var g: nat :| g < |roster| && roster[g].0 == i;
      BatchFacts(Picked(was, roster), d, batch, before, roster, g, out);
      assert Views(Members(strs, roster))[g] == strs[i].View();
    }
  }

  function Picked(was: seq<Front>, roster: seq<(nat, Frame)>): (ws: seq<Front>)
    requires forall g: nat :: g < |roster| ==> roster[g].0 < |was|
    ensures |ws| == |roster|
  {
    seq(|roster|, g requires 0 <= g < |roster| && roster[g].0 < |was| => was[roster[g].0])
  }

  lemma CodecIs(sub: seq<Stream>, ws: seq<Front>, d: Dac)
    requires ws == Views(sub) && forall g: nat :: g < |ws| ==> Pushable(ws[g], d)
    requires forall g: nat :: g < |sub| ==> sub[g].inc.Valid()
    ensures forall g: nat :: g < |sub| ==> sub[g].inc.dac == d && sub[g].Core() && |sub[g].bat| < BATCH_MAX
  {
    hide Inc.Valid, Sound, Idle;
    forall g: nat | g < |sub|
      ensures sub[g].inc.dac == d && sub[g].Core() && |sub[g].bat| < BATCH_MAX
    {
      assert ws[g] == sub[g].View() && Pushable(ws[g], d);
    }
  }

  // ---- the run ---------------------------------------------------------------------------------------

  /** A new stream with its engine's scratch at the i-th allocation. */
  ghost predicate NewAt(s: Stream, d: Dac, batch: nat, i: nat)
    reads s, s.inc
  {
    s.inc.base == i * SCRATCH && StreamAt(s, d, batch, [], i, [])
  }

  method MakeStream(d: Dac, batch: nat, i: nat) returns (s: Stream)
    requires 1 <= batch <= BATCH_MAX
    ensures fresh(s) && fresh(s.inc) && NewAt(s, d, batch, i)
    ensures s.bat == [] && !s.firstFlushed && !s.finished && s.inc.pending == 0
  {
    hide StateIs, Decode, Inc.Valid;
    var inc := new Inc(d, i * SCRATCH);
    s := new Stream(inc, batch);
  }

  method MakeStreams(d: Dac, n: nat, batch: nat) returns (strs: seq<Stream>)
    requires 1 <= batch <= BATCH_MAX
    ensures |strs| == n && Separate(strs) && RunAt(strs, d, batch, [], seq(n, _ => []))
    ensures forall i: nat :: i < n ==> fresh(strs[i]) && fresh(strs[i].inc)
  {
    hide NewAt;
    strs := [];
    for i := 0 to n
      invariant |strs| == i && forall j: nat :: j < i ==>
        fresh(strs[j]) && fresh(strs[j].inc) && NewAt(strs[j], d, batch, j)
      invariant forall j: nat, k: nat :: j < k < i ==> strs[j] != strs[k]
    {
      var s := MakeStream(d, batch, i);
      strs := strs + [s];
    }
    NewSeparate(strs, d, batch);
  }

  lemma NewSeparate(strs: seq<Stream>, d: Dac, batch: nat)
    requires forall j: nat :: j < |strs| ==> NewAt(strs[j], d, batch, j)
    requires forall j: nat, k: nat :: j < k < |strs| ==> strs[j] != strs[k]
    ensures Separate(strs) && RunAt(strs, d, batch, [], seq(|strs|, _ => []))
  {
    hide StreamAt;
    forall i: nat, j: nat | i < j < |strs|
      ensures BasesApart(strs[i].inc.base, strs[j].inc.base)
    {
      assert NewAt(strs[i], d, batch, i) && NewAt(strs[j], d, batch, j);
      RowGap(i, j, SCRATCH);
    }
  }

  /** One event. */
  method Step(strs: seq<Stream>, d: Dac, batch: nat, ghost before: seq<Event>, e: Event, outs: seq<seq<K.Col>>,
              tab: PointerTable)
    returns (outs': seq<seq<K.Col>>)
    requires RunAt(strs, d, batch, before, outs) && Separate(strs) && tab.Valid()
    requires Polite(|strs|, before + [e]) && |before| + BATCH_MAX <= INT32_MAX / 4
    modifies strs, Engines(strs), d, tab, tab.pin, tab.dev
    ensures tab.Valid() && RunAt(strs, d, batch, before + [e], outs')
    ensures (tab.pin == old(tab.pin) || fresh(tab.pin)) && (tab.dev == old(tab.dev) || fresh(tab.dev))
  {
    hide RunAt, Separate, Finished, Clean, DistinctIds, Describes;
    assert (before + [e])[..|before|] == before;
    outs' := outs;
    match e
    case Push(i, f) => StepPush(strs, d, batch, before, i, f, outs);
    case PushBatch(roster) => StepBatch(strs, d, batch, before, roster, outs, tab);
    case Collect(i) => outs' := StepCollect(strs, d, batch, before, i, outs);
    case Finish(i) => outs' := StepFinish(strs, d, batch, before, i, outs);
  }

  lemma {:induction false} PolitePrefix(n: nat, events: seq<Event>, k: nat)
    requires Polite(n, events) && k <= |events|
    ensures Polite(n, events[..k])
    decreases |events|
  {
    if k < |events| {
      var m: nat := |events| - 1;
      assert events[..m][..k] == events[..k];
      PolitePrefix(n, events[..m], k);
    } else {
      assert events[..k] == events;
    }
  }

  /** Any number of streams of one codec, driven by any polite sequence of pushes, batched pushes,
      collects and finishes: what was handed out for a finished stream is the whole-buffer decode of
      its frames, 2048 samples a frame; what was handed out for one that is collected is the decode of
      all its frames but those still gathered, and how many these are depends on its count alone. */
  method Play(net: Net, n: nat, batch: nat, events: seq<Event>) returns (outs: seq<seq<K.Col>>)
    requires 1 <= batch <= BATCH_MAX && Polite(n, events) && |events| + BATCH_MAX <= INT32_MAX / 4
    ensures |outs| == n
    ensures forall i: nat :: i < n ==> HandedOut(net, batch, events, i, outs[i])
  {
    hide RunAt, Separate, Polite, Describes, HandedOut;
    var d := new Dac(net);
    var tab := new PointerTable();
    var strs := MakeStreams(d, n, batch);
    outs := seq(n, _ => []);
    assert events[..0] == [];
    for k := 0 to |events|
      invariant RunAt(strs, d, batch, events[..k], outs) && tab.Valid()
      invariant fresh(tab.pin) && fresh(tab.dev)
    {
      PolitePrefix(n, events, k + 1);
      assert events[..k + 1] == events[..k] + [events[k]];
      outs := Step(strs, d, batch, events[..k], events[k], outs, tab);
    }
    assert events[..|events|] == events;
    AllHandedOut(strs, d, batch, events, outs);
  }

  /** What the caller of stream i holds after the events. */
  ghost predicate HandedOut(net: Net, batch: nat, events: seq<Event>, i: nat, out: seq<K.Col>)
    requires batch >= 1
  {
    var fs := Frames(events, i);
    && out <= Decode(net, fs)
    && (Finished(events, i) ==> out == Decode(net, fs) && |out| == FRAME_SAMPLES * |fs|)
    && (!Finished(events, i) && Clean(events, i) ==>
         Left(|fs|, batch) <= |fs| && out == Decode(net, fs[..|fs| - Left(|fs|, batch)]))
  }

  lemma AllHandedOut(strs: seq<Stream>, d: Dac, batch: nat, events: seq<Event>, outs: seq<seq<K.Col>>)
    requires RunAt(strs, d, batch, events, outs) && batch >= 1
    ensures |outs| == |strs| && forall i: nat :: i < |strs| ==> HandedOut(d.net, batch, events, i, outs[i])
  {
    hide Inc.Valid, Decode, Frames, Finished, Clean, Left, InRun;
    forall i: nat | i < |strs|
      ensures HandedOut(d.net, batch, events, i, outs[i])
    {
      assert StreamAt(strs[i], d, batch, events, i, outs[i]);
      RunHandsOut(strs[i].View(), d, batch, Frames(events, i), Finished(events, i), Clean(events, i), outs[i]);
    }
  }
}
