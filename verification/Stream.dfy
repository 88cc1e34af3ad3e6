/** The streaming front end on top of the incremental engine: frames are
    gathered, flushed in batches, and collected, and over a whole run the
    collected samples are the whole-buffer decode. */
module Stream {
  import opened Basics
  import opened Kernels
  import opened Codec
  import opened Whole
  import opened Incremental
  import opened Front

  function Flat(fs: seq<Frame>): (c: seq<int>)
    ensures |c| == 10 * |fs|
  {
    if fs == [] then [] else Flat(fs[..|fs| - 1]) + fs[|fs| - 1]
  }

  lemma {:induction false} FlatFrames(fs: seq<Frame>)
    ensures FrameMajor(Flat(fs), |fs|) == fs
  {
    if fs != [] {
      var n: nat := |fs| - 1;
      FlatFrames(fs[..n]);
      forall t: nat | t < n
        ensures FrameMajor(Flat(fs), |fs|)[t] == fs[t]
      {
        assert FrameMajor(Flat(fs[..n]), n)[t] == fs[t];
        assert forall q: nat :: q < 10 ==> Flat(fs)[FrameIndex(t, q, n + 1)] == Flat(fs[..n])[FrameIndex(t, q, n)];
      }
      assert FrameMajor(Flat(fs), |fs|)[n] == fs[n];
    }
  }

  class Stream {
    const inc: Inc
    /** Frames per engine push, 1..8. */
    const batch: nat
    /** Frames gathered but not yet pushed to the engine. */
    var bat: seq<Frame>
    var firstFlushed: bool
    var finished: bool
    ghost var pushed: seq<Frame>
    ghost var collected: seq<Col>
    ghost var flushes: seq<nat>

    /** The stream as a value. */
    ghost function View(): (v: Front)
      reads this, inc
    {
      Front(inc.dac, batch, bat, firstFlushed, finished, inc.fed, inc.pending, pushed, collected, flushes)
    }

    /** What every call keeps. */
    ghost predicate Core()
      reads this, inc
    {
      inc.Valid() && Sound(View())
    }

    /** Between calls the gather buffer is below its target. */
    ghost predicate Valid()
      reads this, inc
    {
      inc.Valid() && Steady(View())
    }

    constructor (inc: Inc, batch: nat)
      requires inc.Valid() && inc.fed == [] && inc.pending == 0 && 1 <= batch <= BATCH_MAX
      ensures this.inc == inc && View() == Front(inc.dac, batch, [], false, false, [], 0, [], [], [])
      ensures Valid()
    {
      hide StateIs, Decode;
      this.inc, this.batch := inc, batch;
      bat, firstFlushed, finished := [], false, false;
      pushed, collected, flushes := [], [], [];
      new;
      DecodeLength(inc.dac.net, []);
      assert inc.fed[..0] == [];
    }

    /** Hand the gathered frames to the engine. On failure nothing is lost or sent. */
    method Flush() returns (st: Status)
      requires Core() && 1 <= |bat|
      modifies this`bat, this`flushes, inc, inc.dac
      ensures inc.Valid() && st == FlushStatus(old(View()))
      ensures View() == if st == OK then Sent(old(View())) else old(View())
    {
      hide StateIs, Decode, FrameMajor, Flat;
      FlatFrames(bat);
      st := inc.PushAsync(Flat(bat), |bat|);
      if st == OK {
        flushes := flushes + [|bat|];
        bat := [];
      }
    }

    /** s2p_dac_stream_push_async: gather the frame, flush when the target is reached. */
    method PushAsync(f: Frame) returns (st: Status)
      requires Core() && (!finished ==> |bat| < BATCH_MAX)
      modifies this, inc, inc.dac
      ensures Core() && (View(), st) == AfterPush(old(View()), f)
    {
      hide StateIs, Decode, Sound, PushStatus;
      ghost var v := View();
      PushSound(v, f);
      if finished {
        return WrongState;
      }
      GatherSound(v, f);
      bat := bat + [f];
      pushed := pushed + [f];
      var target := if firstFlushed then batch else 1;
      if |bat| < target {
        return OK;
      }
      st := Flush();
      if st == OK {
        firstFlushed := true;
      }
    }

    /** s2p_dac_stream_collect: the samples in flight, or none. */
    method Collect() returns (pcm: seq<Col>)
      requires Core()
      modifies this`collected, inc`pending
      ensures Core() && View() == AfterCollect(old(View()), pcm) && |pcm| == FRAME_SAMPLES * old(inc.pending)
      ensures old(Valid()) ==> Valid()
    {
      hide StateIs, Decode, Sound, Steady;
      ghost var v := View();
      pcm := inc.Collect();
      CollectSound(v, pcm);
      collected := collected + pcm;
    }

    /** s2p_dac_stream_finish: flush the remainder and hand out the last samples. */
    method Finish() returns (st: Status, pcm: seq<Col>)
      requires Core()
      modifies this, inc, inc.dac
      ensures Core() && st == AfterFinish(old(View())).1
      ensures View() == if st == OK then AfterCollect(AfterFinish(old(View())).0, pcm) else AfterFinish(old(View())).0
      ensures st != OK ==> pcm == []
      ensures finished && pushed == old(pushed) && collected == old(collected) + pcm
      ensures st == OK ==> bat == [] && collected == Decode(inc.dac.net, pushed)
      ensures st == OK ==> |collected| == FRAME_SAMPLES * |pushed|
    {
      hide StateIs, Decode, Sound, PushStatus;
      ghost var v := View();
      FinishSound(v);
      if finished {
        return WrongState, [];
      }
      ClosedSound(v);
      finished := true;
      if |bat| > 0 {
        st := Flush();
        if st != OK {
          return st, [];
        }
      }
      st := OK;
      pcm := Collect();
      FinishDone(v, pcm);
    }

    /** s2p_dac_stream_push: push one frame, then collect whatever it released. */
    method Push(f: Frame) returns (st: Status, pcm: seq<Col>)
      requires Core() && (!finished ==> |bat| < BATCH_MAX)
      modifies this, inc, inc.dac
      ensures Core() && st == AfterPush(old(View()), f).1
      ensures View() == if st == OK then AfterCollect(AfterPush(old(View()), f).0, pcm) else AfterPush(old(View()), f).0
      ensures st != OK ==> pcm == []
    {
      hide StateIs, Decode, Sound, PushStatus;
      pcm := [];
      if finished {
        return WrongState, [];
      }
      st := PushAsync(f);
      if st == OK {
        pcm := Collect();
      }
    }
  }

  // ---- whole runs ----------------------------------------------------------------------

  function Concat(pieces: seq<seq<Frame>>): (fs: seq<Frame>) {
    if pieces == [] then [] else Concat(pieces[..|pieces| - 1]) + pieces[|pieces| - 1]
  }

  /** For every partition of a code sequence into pushes of 1..8 frames, the samples collected
      after each push concatenate to the whole-buffer decode. */
  method DecodePieces(net: Net, pieces: seq<seq<Frame>>) returns (pcm: seq<Col>)
    requires forall i: nat :: i < |pieces| ==> 1 <= |pieces[i]| <= MAX_TN
    requires |Concat(pieces)| <= INT32_MAX / 4
    ensures pcm == Decode(net, Concat(pieces))
  {
    hide StateIs, Decode;
    var d := new Dac(net);
    var s := new Inc(d, 0);
    pcm := [];
    assert pieces[..0] == [];
    DecodeLength(net, []);
    for i := 0 to |pieces|
      invariant s.Valid() && s.dac == d && s.pending == 0
      invariant s.fed == Concat(pieces[..i])
      invariant pcm == Decode(net, s.fed)
    {
      PrefixFits(pieces, i);
      var piece := PushPiece(s, pieces[i]);
      pcm := pcm + piece;
    }
    assert pieces[..|pieces|] == pieces;
  }

  lemma {:induction false} ConcatPrefix(pieces: seq<seq<Frame>>, i: nat)
    requires i <= |pieces|
    ensures |Concat(pieces[..i])| <= |Concat(pieces)|
    decreases |pieces|
  {
    if i < |pieces| {
      var front := pieces[..|pieces| - 1];
      assert front[..i] == pieces[..i];
      ConcatPrefix(front, i);
    } else {
      assert pieces[..i] == pieces;
    }
  }

  lemma PrefixFits(pieces: seq<seq<Frame>>, i: nat)
    requires i < |pieces|
    ensures Concat(pieces[..i + 1]) == Concat(pieces[..i]) + pieces[i]
    ensures |Concat(pieces[..i + 1])| <= |Concat(pieces)|
  {
    ConcatPrefix(pieces, i + 1);
    assert pieces[..i + 1][..i] == pieces[..i];
  }

  method PushPiece(s: Inc, piece: seq<Frame>) returns (pcm: seq<Col>)
    requires s.Valid() && s.pending == 0 && 1 <= |piece| <= MAX_TN && s.pos + |piece| <= INT32_MAX / 4
    modifies s, s.dac
    ensures s.Valid() && s.pending == 0 && s.fed == old(s.fed) + piece
    ensures Decode(s.dac.net, s.fed) == Decode(s.dac.net, old(s.fed)) + pcm
  {
    hide StateIs, Decode;
    FlatFrames(piece);
    var st := s.PushAsync(Flat(piece), |piece|);
    pcm := s.Collect();
    assert s.fed[..|s.fed| - |piece|] == old(s.fed);
  }

  /** The first i frames have been pushed and everything released so far has been handed out. */
  ghost predicate RunAt(s: Stream, frames: seq<Frame>, i: nat, pcm: seq<Col>)
    reads s, s.inc
  {
    s.Valid() && s.inc.pending == 0 && i <= |frames| && s.pushed == frames[..i] && pcm == s.collected
  }

  method PushNext(s: Stream, frames: seq<Frame>, i: nat, pcm: seq<Col>) returns (pcm': seq<Col>)
    requires i < |frames| && |frames| + BATCH_MAX <= INT32_MAX / 4 && RunAt(s, frames, i, pcm)
    modifies s, s.inc, s.inc.dac
    ensures RunAt(s, frames, i + 1, pcm')
  {
    hide StateIs, Decode, Steady, AfterPush;
    ghost var v := s.View();
    SteadyRoom(v);
    PushSteady(v, frames[i]);
    ghost var w := AfterPush(v, frames[i]).0;
    var st, chunk := s.Push(frames[i]);
    CollectSteady(w, chunk);
    pcm' := pcm + chunk;
    assert frames[..i + 1] == frames[..i] + [frames[i]];
  }

  method PushAll(s: Stream, frames: seq<Frame>) returns (pcm: seq<Col>)
    requires |frames| + BATCH_MAX <= INT32_MAX / 4 && RunAt(s, frames, 0, [])
    modifies s, s.inc, s.inc.dac
    ensures RunAt(s, frames, |frames|, pcm)
  {
    hide StateIs, Decode, Steady, Inc.Valid;
    pcm := [];
    for i := 0 to |frames|
      invariant RunAt(s, frames, i, pcm)
    {
      pcm := PushNext(s, frames, i, pcm);
    }
  }

  /** The front end over a whole run, frame by frame, for every batch size: the chunks handed out
      by push and finish concatenate to the whole-buffer decode, 2048 samples per frame. */
  method DecodeStreaming(net: Net, frames: seq<Frame>, batch: nat) returns (pcm: seq<Col>)
    requires 1 <= batch <= BATCH_MAX && |frames| + BATCH_MAX <= INT32_MAX / 4
    ensures pcm == Decode(net, frames) && |pcm| == FRAME_SAMPLES * |frames|
  {
    hide StateIs, Decode, Steady, Sound, Inc.Valid, AfterFinish;
    var d := new Dac(net);
    var inc := new Inc(d, 0);
    var s := new Stream(inc, batch);
    pcm := PushAll(s, frames);
    assert frames[..|frames|] == frames;
    SteadyRoom(s.View());
    FinishSteady(s.View());
    var st, last := s.Finish();
    pcm := pcm + last;
  }
}
