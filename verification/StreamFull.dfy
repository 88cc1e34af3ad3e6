/** Runs after which a gather buffer stands at its target between calls. */
module StreamFull {
  import opened Basics
  import opened Codec
  import opened Whole
  import opened Scratch
  import opened Incremental
  import opened Tables
  import opened Front
  import opened FrontBatch
  import opened Stream
  import opened StreamBatch
  import opened StreamRuns

  /** Push n frames, collecting after each. */
  method PushMany(s: Stream, n: nat)
    requires s.Valid() && s.inc.pending == 0 && s.pushed == [] && n + BATCH_MAX <= INT32_MAX / 4
    modifies s, s.inc, s.inc.dac
    ensures s.Valid() && |s.pushed| == n && s.inc.pending == 0
  {
    hide StateIs, Decode, Inc.Valid, Steady, Sound, AfterPush;
    for i := 0 to n
      invariant s.Valid() && |s.pushed| == i && s.inc.pending == 0
    {
      ghost var v := s.View();
      SteadyRoom(v);
      PushSteady(v, ZERO);
      var st, pcm := s.Push(ZERO);
      CollectSteady(AfterPush(v, ZERO).0, pcm);
    }
  }

  const ZERO: Frame := seq(10, _ => 0)

  /** A stream one frame short of its batch, and a finished stream behind it: the call is refused with
      the batch complete and nothing flushed. */
  method RefusedPush(x: Stream, y: Stream, tab: PointerTable) returns (st: Status)
    requires x.Valid() && y.Core() && y.finished && |x.bat| + 1 == Target(x.View()) && Separate([x, y]) && tab.Valid()
    modifies x, y, x.inc, y.inc, x.inc.dac, y.inc.dac, tab, tab.pin, tab.dev
    ensures st == Invalid && |x.bat| == old(|x.bat|) + 1 && x.inc.fed == old(x.inc.fed) && x.Core()
  {
    hide StateIs, Decode, Inc.Valid, Sound, Describes, AfterBatch, Separate;
    var strs := [x, y];
    ghost var ws := Views(strs);
    assert ws[0] == x.View() && ws[1] == y.View();
    assert Engines(strs) == [x.inc, y.inc];
    assert FirstFinished(ws) < |ws|;
    SteadyRoom(ws[0]);
    assert strs[0] == x && strs[1] == y;
    RefusedGathers(ws, [ZERO, ZERO], 0);
    st := PushStreams(strs, [ZERO, ZERO], tab);
    assert Views(strs)[0] == x.View() && strs[0].Core();
  }

  lemma BelowTarget(v: Front)
    requires Steady(v)
    ensures |v.bat| < Target(v)
  {
  }

  /** The gather buffer can be full between calls: once the first call has been refused with eight
      frames gathered, the next push to that stream would write a ninth into its buffer of eight. */
  method Overfull(net: Net) returns (st: Status, gathered: nat)
    ensures st == Invalid && gathered == BATCH_MAX
  {
    hide StateIs, Decode, Inc.Valid, Sound, Steady, Describes, AfterFinish, AfterCollect, Sum;
    var d := new Dac(net);
    var tab := new PointerTable();
    var strs := MakeStreams(d, 2, BATCH_MAX);
    var x, y := strs[0], strs[1];
    assert StreamAt(x, d, BATCH_MAX, [], 0, []) && StreamAt(y, d, BATCH_MAX, [], 1, []);
    Alone(strs, 0);
    PushMany(x, BATCH_MAX);
    SteadyLeft(x.View());
    BelowTarget(x.View());
    InRunSound(y.View(), d, BATCH_MAX, [], false, true, []);
    var st', pcm := y.Finish();
    assert strs == [x, y];
    st := RefusedPush(x, y, tab);
    gathered := |x.bat|;
  }

  // ---- a push in flight ------------------------------------------------------------------------------

  /** Gather n frames short of the target, nothing collected. */
  method GatherMany(s: Stream, n: nat)
    requires s.Valid() && |s.bat| + n < Target(s.View())
    modifies s, s.inc, s.inc.dac
    ensures s.Valid() && |s.bat| == old(|s.bat|) + n && s.inc.pending == old(s.inc.pending)
    ensures Target(s.View()) == old(Target(s.View()))
  {
    hide StateIs, Decode, Inc.Valid, Steady, Sound;
    for i := 0 to n
      invariant s.Valid() && |s.bat| == old(|s.bat|) + i && s.inc.pending == old(s.inc.pending)
      invariant Target(s.View()) == old(Target(s.View()))
    {
      SteadyRoom(s.View());
      PushExactly(s.View(), ZERO);
      var st := s.PushAsync(ZERO);
    }
  }

  /** A stream with a whole batch in flight and a batch less one frame gathered. */
  method FlyingStream(d: Dac, i: nat) returns (s: Stream)
    modifies d
    ensures fresh(s) && fresh(s.inc) && s.inc.base == i * SCRATCH && s.inc.dac == d
    ensures s.Valid() && s.inc.pending == BATCH_MAX && |s.bat| + 1 == Target(s.View()) == BATCH_MAX
  {
    hide StateIs, Decode, Inc.Valid, Steady, Sound;
    s := MakeStream(d, BATCH_MAX, i);
    PushMany(s, BATCH_MAX);
    ghost var v := s.View();
    SteadyLeft(v);
    BelowTarget(v);
    SteadyRoom(v);
    PushSteady(v, ZERO);
    var st := s.PushAsync(ZERO);
    GatherMany(s, BATCH_MAX - 1);
  }

  /** A single push then: refused and kept. */
  method FillAlone(s: Stream) returns (st: Status)
    requires s.Valid() && s.inc.pending > 0 && |s.bat| + 1 == Target(s.View())
    modifies s, s.inc, s.inc.dac
    ensures st == WrongState && |s.bat| == old(|s.bat|) + 1
  {
    hide StateIs, Decode, Inc.Valid, Steady, Sound, AfterPush;
    SteadyRoom(s.View());
    InFlightFills(s.View(), ZERO);
    st := s.PushAsync(ZERO);
  }

  /** A batched push then: the same. */
  method FillRoster(s: Stream, tab: PointerTable) returns (st: Status)
    requires s.Valid() && s.inc.pending > 0 && |s.bat| + 1 == Target(s.View()) && tab.Valid()
    modifies s, s.inc, s.inc.dac, tab, tab.pin, tab.dev
    ensures st != OK && |s.bat| == old(|s.bat|) + 1
  {
    hide StateIs, Decode, Inc.Valid, Steady, Sound, AfterBatch, Describes;
    var strs := [s];
    SteadyRoom(s.View());
    AloneInFlight(s.View(), ZERO);
    assert Views(strs) == [s.View()] && Engines(strs) == [s.inc];
    st := PushStreams(strs, [ZERO], tab);
    assert Views(strs)[0] == s.View();
  }

  /** No stream is finished and no batch refused before: with eight frames in flight the eighth gathered
      frame is refused but kept, by a single push and by a batched one, and the next push would write a
      ninth into the buffer of eight. */
  method InFlightOverfull(net: Net) returns (single: Status, batched: Status, x8: nat, y8: nat)
    ensures single == WrongState && batched != OK && x8 == y8 == BATCH_MAX
  {
    hide StateIs, Decode, Inc.Valid, Steady, Sound, Describes;
    var d := new Dac(net);
    var tab := new PointerTable();
    var x := FlyingStream(d, 0);
    var y := FlyingStream(d, 1);
    single := FillAlone(x);
    batched := FillRoster(y, tab);
    x8, y8 := |x.bat|, |y.bat|;
  }

  // ---- two codecs ------------------------------------------------------------------------------------

  method FillTwo(x: Stream, y: Stream, tab: PointerTable) returns (st: Status)
    requires x.Valid() && y.Valid() && x.bat == y.bat == [] && !x.firstFlushed && !y.firstFlushed
    requires x.inc.pending == y.inc.pending == 0 && x.inc.dac != y.inc.dac && Separate([x, y]) && tab.Valid()
    modifies x, y, x.inc, y.inc, x.inc.dac, y.inc.dac, tab, tab.pin, tab.dev
    ensures st == Invalid && |x.bat| == 1
  {
    hide StateIs, Decode, Inc.Valid, Sound, Describes, AfterBatch, Separate;
    var strs := [x, y];
    SteadyRoom(x.View());
    SteadyRoom(y.View());
    assert Views(strs) == [x.View(), y.View()] && Engines(strs) == [x.inc, y.inc];
    TwoCodecs(x.View(), y.View(), ZERO);
    st := PushStreams(strs, [ZERO, ZERO], tab);
    assert Views(strs)[0] == x.View();
  }

  /** Two new streams of different codecs in one roster: refused, each at its target of one frame. */
  method TwoCodecsFull(net: Net) returns (st: Status, gathered: nat)
    ensures st == Invalid && gathered == 1
  {
    hide StateIs, Decode, Inc.Valid, Sound, Describes;
    var d := new Dac(net);
    var e := new Dac(net);
    var tab := new PointerTable();
    var x := MakeStream(d, BATCH_MAX, 0);
    var y := MakeStream(e, BATCH_MAX, 1);
    st := FillTwo(x, y, tab);
    gathered := |x.bat|;
  }
}
