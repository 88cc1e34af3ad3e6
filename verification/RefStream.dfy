/** The reference windowed vocoder: overlapping windows decoded as a whole, their new parts
    cross-faded over a held tail.  What it emits is a function of the frames alone. */
module RefStream {
  import opened Basics
  import opened Codec
  import opened RefFade

  const STRIDE: nat := 10
  const FOLLOWUP: nat := 90
  const OVERLAP: nat := 20

  /** The whole-buffer decoder, as the vocoder sees it: 2048 samples a frame. */
  ghost predicate Vocodes(decode: seq<Frame> -> seq<real>) {
    forall w :: |decode(w)| == FRAME_SAMPLES * |w|
  }

  // ---- what is emitted, from the frames alone ------------------------------------------

  /** Where the window for new frames from `a` on starts. */
  function WindowStart(a: nat): (s: nat)
    ensures s <= a && a - s <= OVERLAP
  {
    if a < OVERLAP then 0 else a - OVERLAP
  }

  /** Frame count at which window j closes: 10, 100, 190, ... */
  function Bound(j: nat): nat {
    if j == 0 then 0 else STRIDE + FOLLOWUP * (j - 1)
  }

  /** The new part of the window that ends at b, after a frames were already vocoded. */
  function Delta(decode: seq<Frame> -> seq<real>, fs: seq<Frame>, a: nat, b: nat): seq<real>
    requires a <= b <= |fs| && Vocodes(decode)
  {
    decode(fs[WindowStart(a)..b])[FRAME_SAMPLES * (a - WindowStart(a))..]
  }

  /** The stream after w windows, its held tail included. */
  function Merged(decode: seq<Frame> -> seq<real>, fs: seq<Frame>, w: nat): seq<real>
    requires Bound(w) <= |fs| && Vocodes(decode)
  {
    if w == 0 then []
    else Cross(Merged(decode, fs, w - 1), Delta(decode, fs, Bound(w - 1), Bound(w)))
  }

  /** The complete stream: the regular windows, then one for the remaining frames. */
  function Complete(decode: seq<Frame> -> seq<real>, fs: seq<Frame>, w: nat): seq<real>
    requires Bound(w) <= |fs| && Vocodes(decode)
  {
    if Bound(w) == |fs| then Merged(decode, fs, w)
    else Cross(Merged(decode, fs, w), Delta(decode, fs, Bound(w), |fs|))
  }

  lemma DeltaLength(decode: seq<Frame> -> seq<real>, fs: seq<Frame>, a: nat, b: nat)
    requires a <= b <= |fs| && Vocodes(decode)
    ensures |Delta(decode, fs, a, b)| == FRAME_SAMPLES * (b - a)
  {
  }

  lemma CrossLength(a: seq<real>, d: seq<real>, first: bool)
    requires |d| >= CROSSFADE && (if first then |a| == 0 else |a| >= CROSSFADE)
    ensures |Cross(a, d)| == |a| + |d| - if first then 0 else CROSSFADE
  {
    hide Cross;
  }

  /** Conservation: every merge after the first costs exactly one crossfade. */
  lemma {:induction false} MergedLength(decode: seq<Frame> -> seq<real>, fs: seq<Frame>, w: nat)
    requires Bound(w) <= |fs| && Vocodes(decode)
    ensures |Merged(decode, fs, w)| == if w == 0 then 0 else FRAME_SAMPLES * Bound(w) - CROSSFADE * (w - 1)
    decreases w
  {
    hide Vocodes, Cross, Delta;
    if w > 0 {
      MergedLength(decode, fs, w - 1);
      DeltaLength(decode, fs, Bound(w - 1), Bound(w));
      CrossLength(Merged(decode, fs, w - 1), Delta(decode, fs, Bound(w - 1), Bound(w)), w == 1);
    }
  }

  lemma CompleteLength(decode: seq<Frame> -> seq<real>, fs: seq<Frame>, w: nat)
    requires Bound(w) <= |fs| < Bound(w + 1) && Vocodes(decode)
    ensures |Complete(decode, fs, w)|
         == var windows := if Bound(w) == |fs| then w else w + 1;
            if windows == 0 then 0 else FRAME_SAMPLES * |fs| - CROSSFADE * (windows - 1)
  {
    MergedLength(decode, fs, w);
  }

  lemma WindowsLength(decode: seq<Frame> -> seq<real>, fs: seq<Frame>, w: nat)
    requires fs != [] && Bound(w) <= |fs| < Bound(w + 1) && Vocodes(decode)
    ensures |Complete(decode, fs, w)|
         == FRAME_SAMPLES * |fs| - CROSSFADE * (if Bound(w) == |fs| then w - 1 else w)
  {
    hide Complete, Vocodes;
    CompleteLength(decode, fs, w);
  }

  lemma DeltaLocal(decode: seq<Frame> -> seq<real>, fs: seq<Frame>, f: Frame, a: nat, b: nat)
    requires a <= b <= |fs| && Vocodes(decode)
    ensures Delta(decode, fs + [f], a, b) == Delta(decode, fs, a, b)
  {
    assert (fs + [f])[WindowStart(a)..b] == fs[WindowStart(a)..b];
  }

  /** Earlier windows do not depend on later frames. */
  lemma {:induction false} MergedLocal(decode: seq<Frame> -> seq<real>, fs: seq<Frame>, f: Frame, w: nat)
    requires Bound(w) <= |fs| && Vocodes(decode)
    ensures Merged(decode, fs + [f], w) == Merged(decode, fs, w)
    decreases w
  {
    hide Cross, Vocodes, Delta;
    if w > 0 {
      MergedLocal(decode, fs, f, w - 1);
      DeltaLocal(decode, fs, f, Bound(w - 1), Bound(w));
    }
  }

  lemma BoundOrder(i: nat, j: nat)
    requires i < j
    ensures Bound(i + 1) <= Bound(j)
  {
    assert FOLLOWUP * (j - 1) >= FOLLOWUP * i;
  }

  /** Every frame is in the new part of exactly one window. */
  lemma {:induction false} InOneWindow(t: nat, w: nat) returns (j: nat)
    requires t < Bound(w)
    ensures j < w && Bound(j) <= t < Bound(j + 1)
    ensures forall i: nat :: Bound(i) <= t < Bound(i + 1) ==> i == j
    decreases w
  {
    if t < Bound(w - 1) {
      j := InOneWindow(t, w - 1);
    } else {
      j := w - 1;
      forall i: nat | Bound(i) <= t < Bound(i + 1) ensures i == j {
        hide Bound;
        if i < j {
          BoundOrder(i, j);
        } else if j < i {
          BoundOrder(j, i);
        }
      }
    }
  }

  // ---- what a run is, in numbers --------------------------------------------------------------

  /** Windows close after 10, 100, 190, ... frames. */
  function Closes(j: nat): nat {
    if j == 0 then 0 else 90 * j - 80
  }

  /** The samples of frames a to b, decoded with up to 20 frames before them. */
  function Part(decode: seq<Frame> -> seq<real>, fs: seq<Frame>, a: nat, b: nat): (p: seq<real>)
    requires a <= b <= |fs| && Vocodes(decode)
    ensures |p| == 2048 * (b - a)
  {
    var back := if a < 20 then a else 20;
    decode(fs[a - back..b])[2048 * back..]
  }

  /** The parts of w closed windows. */
  function Regular(decode: seq<Frame> -> seq<real>, fs: seq<Frame>, w: nat): (ps: seq<seq<real>>)
    requires Closes(w) <= |fs| && Vocodes(decode)
    ensures |ps| == w
  {
    seq(w, j requires 0 <= j < w => Part(decode, fs, Closes(j), Closes(j + 1)))
  }

  /** Those of a whole run: the frames left over make one part more. */
  function Parts(decode: seq<Frame> -> seq<real>, fs: seq<Frame>, w: nat): seq<seq<real>>
    requires Closes(w) <= |fs| && Vocodes(decode)
  {
    if Closes(w) == |fs| then Regular(decode, fs, w)
    else Regular(decode, fs, w) + [Part(decode, fs, Closes(w), |fs|)]
  }

  lemma DeltaIsPart(decode: seq<Frame> -> seq<real>, fs: seq<Frame>, a: nat, b: nat)
    requires a <= b <= |fs| && Vocodes(decode)
    ensures Delta(decode, fs, a, b) == Part(decode, fs, a, b)
  {
  }

  lemma RegularStep(decode: seq<Frame> -> seq<real>, fs: seq<Frame>, w: nat)
    requires w > 0 && Closes(w) <= |fs| && Vocodes(decode)
    ensures Closes(w - 1) <= Closes(w)
    ensures Regular(decode, fs, w)[..w - 1] == Regular(decode, fs, w - 1)
    ensures Regular(decode, fs, w)[w - 1] == Part(decode, fs, Closes(w - 1), Closes(w))
  {
    hide Vocodes, Part;
  }

  lemma {:induction false} MergedIsChain(decode: seq<Frame> -> seq<real>, fs: seq<Frame>, w: nat)
    requires Closes(w) <= |fs| && Vocodes(decode)
    ensures Merged(decode, fs, w) == Chain(Regular(decode, fs, w))
    decreases w
  {
    hide Vocodes, Cross, Delta, Part, Regular;
    if w > 0 {
      RegularStep(decode, fs, w);
      MergedIsChain(decode, fs, w - 1);
      DeltaIsPart(decode, fs, Closes(w - 1), Closes(w));
    }
  }

  lemma CompleteIsChain(decode: seq<Frame> -> seq<real>, fs: seq<Frame>, w: nat)
    requires Closes(w) <= |fs| && Vocodes(decode)
    ensures Complete(decode, fs, w) == Chain(Parts(decode, fs, w))
  {
    hide Vocodes, Cross, Delta, Part, Merged, Regular;
    MergedIsChain(decode, fs, w);
    if Closes(w) < |fs| {
      DeltaIsPart(decode, fs, Closes(w), |fs|);
      var rs := Regular(decode, fs, w);
      assert Parts(decode, fs, w)[..w] == rs;
    }
  }

  lemma PartSize(decode: seq<Frame> -> seq<real>, fs: seq<Frame>, w: nat, j: nat)
    requires Closes(w) <= |fs| && Vocodes(decode) && j < w
    ensures |Parts(decode, fs, w)| >= w && |Parts(decode, fs, w)[j]| == 2048 * (Closes(j + 1) - Closes(j))
  {
    hide Vocodes, Part;
  }

  /** Part j begins at sample 2048 Closes(j) - 512 j. */
  lemma {:induction false} PartStarts(decode: seq<Frame> -> seq<real>, fs: seq<Frame>, w: nat, j: nat)
    requires Closes(w) <= |fs| && Vocodes(decode) && j <= w && j < |Parts(decode, fs, w)|
    ensures Start(Parts(decode, fs, w), j) == 2048 * Closes(j) - 512 * j
    decreases j
  {
    hide Vocodes, Parts;
    if j > 0 {
      PartSize(decode, fs, w, j - 1);
      PartStarts(decode, fs, w, j - 1);
    }
  }

  /** The run is its parts, each at its place, joined by linear fades. */
  ghost predicate IsRun(decode: seq<Frame> -> seq<real>, fs: seq<Frame>, out: seq<real>)
    requires Vocodes(decode)
  {
    exists w: nat :: Closes(w) <= |fs| < Closes(w + 1) && RunOf(decode, fs, w, out)
  }

  ghost predicate RunOf(decode: seq<Frame> -> seq<real>, fs: seq<Frame>, w: nat, out: seq<real>)
    requires Closes(w) <= |fs| && Vocodes(decode)
  {
    var ps := Parts(decode, fs, w);
    && Long(ps) && Joined(ps, out)
    && forall j: nat :: j < |ps| ==> Start(ps, j) == 2048 * Closes(j) - 512 * j
  }

  lemma LongParts(decode: seq<Frame> -> seq<real>, fs: seq<Frame>, w: nat)
    requires Closes(w) <= |fs| && Vocodes(decode)
    ensures Long(Parts(decode, fs, w))
  {
    hide Vocodes, Part;
  }

  lemma CompleteIsRun(decode: seq<Frame> -> seq<real>, fs: seq<Frame>, w: nat)
    requires Bound(w) <= |fs| < Bound(w + 1) && Vocodes(decode)
    ensures IsRun(decode, fs, Complete(decode, fs, w))
  {
    hide Vocodes, Parts, Joined, Complete;
    assert Closes(w) == Bound(w) && Closes(w + 1) == Bound(w + 1);
    LongParts(decode, fs, w);
    CompleteIsChain(decode, fs, w);
    ChainJoined(Parts(decode, fs, w));
    forall j: nat | j < |Parts(decode, fs, w)|
      ensures Start(Parts(decode, fs, w), j) == 2048 * Closes(j) - 512 * j
    {
      PartCount(decode, fs, w);
      PartStarts(decode, fs, w, j);
    }
    assert RunOf(decode, fs, w, Complete(decode, fs, w));
  }

  lemma PartCount(decode: seq<Frame> -> seq<real>, fs: seq<Frame>, w: nat)
    requires Closes(w) <= |fs| && Vocodes(decode)
    ensures |Parts(decode, fs, w)| == if Closes(w) == |fs| then w else w + 1
  {
    hide Vocodes, Part;
  }

  // ---- the vocoder ------------------------------------------------------------------------

  /** Cross-fade a held tail into the new part. */
  method Crossfade(tail: seq<real>, delta: seq<real>) returns (merged: array<real>)
    requires |tail| <= CROSSFADE
    ensures fresh(merged) && merged[..] == Cross(tail, delta)
  {
    hide Weigh, Fade, Cross;
    var cf := CROSSFADE;
    if |tail| < cf { cf := |tail|; }
    if |delta| < cf { cf := |delta|; }
    var head := |tail| - cf;
    merged := new real[|tail| + |delta| - cf];
    for i := 0 to head
      invariant forall k: nat :: k < i ==> merged[k] == Cross(tail, delta)[k]
    {
      CrossAt(tail, delta, i);
      merged[i] := tail[i];
    }
    for i := 0 to cf
      invariant forall k: nat :: k < head + i ==> merged[k] == Cross(tail, delta)[k]
    {
      CrossAt(tail, delta, head + i);
      merged[head + i] := Weigh(tail[head + i], delta[i], Fade(i, cf));
    }
    for i := cf to |delta|
      invariant forall k: nat :: k < head + i ==> merged[k] == Cross(tail, delta)[k]
    {
      CrossAt(tail, delta, head + i);
      merged[head + i] := delta[i];
    }
  }

  lemma MixedHeld(done: seq<real>, tail: seq<real>, d: seq<real>, n: nat)
    requires n <= |tail| && n <= |d|
    ensures Mixed(done + tail, d, n) == Mixed(tail, d, n)
  {
    hide Weigh, Fade;
    var a := done + tail;
    forall i: nat | i < n ensures Mixed(a, d, n)[i] == Mixed(tail, d, n)[i] {
      assert a[|a| - n + i] == tail[|tail| - n + i];
    }
  }

  /** Cross-fading over the held tail is cross-fading over the whole stream it ends. */
  lemma CrossHeld(done: seq<real>, tail: seq<real>, d: seq<real>)
    requires |tail| == CROSSFADE || done == []
    requires |tail| <= CROSSFADE
    ensures done + Cross(tail, d) == Cross(done + tail, d)
  {
    hide Mixed;
    var a := done + tail;
    var n := Min(Min(CROSSFADE, |tail|), |d|);
    MixedHeld(done, tail, d, n);
    assert a[..|a| - n] == done + tail[..|tail| - n];
  }

  class RefStream {
    const decode: seq<Frame> -> seq<real>
    /** Retained frames; the first is absolute frame codeStart. */
    var frames: seq<Frame>
    var codeStart: nat
    var total: nat
    var last: nat
    var next: nat
    var tail: seq<real>
    var finished: bool
    ghost var pushed: seq<Frame>
    ghost var emitted: seq<real>
    ghost var w: nat

    /** The frames kept are the newest ones, never more than 110. */
    ghost predicate Retained()
      reads this
    {
      && total == |pushed| && codeStart + |frames| == total
      && frames == pushed[codeStart..] && |frames| <= 110
    }

    /** w windows are out, what is emitted and held is their merge. */
    ghost predicate Out()
      reads this
    {
      && last == Bound(w) <= |pushed| && codeStart == WindowStart(last)
      && |tail| == (if w == 0 then 0 else CROSSFADE) && Vocodes(decode)
      && emitted + tail == Merged(decode, pushed, w)
    }

    /** Between calls the next window is not due. */
    ghost predicate Running()
      reads this
    {
      Retained() && Out() && total < Bound(w + 1) && next == (if total == 0 then 0 else Bound(w + 1))
    }

    ghost predicate Valid()
      reads this
    {
      Vocodes(decode) && (finished || Running())
    }

    constructor (decode: seq<Frame> -> seq<real>)
      requires Vocodes(decode)
      ensures Valid() && !finished && pushed == [] && emitted == [] && this.decode == decode
    {
      this.decode := decode;
      frames, codeStart, total, last, next, tail, finished := [], 0, 0, 0, 0, [], false;
      pushed, emitted, w := [], [], 0;
    }

    /** Drop retained frames before keepFrom. */
    method TrimCodes(keepFrom: nat)
      requires Retained() && keepFrom <= total
      modifies `frames, `codeStart
      ensures Retained() && codeStart == if keepFrom <= old(codeStart) then old(codeStart) else keepFrom
      ensures |frames| <= old(|frames|)
    {
      if keepFrom <= codeStart {
        return;
      }
      var drop := Min(keepFrom - codeStart, |frames|);
      assert pushed[codeStart..][drop..] == pushed[codeStart + drop..];
      frames := frames[drop..];
      codeStart := keepFrom;
    }

    /** The window of new frames and everything retained before them. */
    method Window() returns (delta: seq<real>)
      requires Retained() && Out() && last < total
      ensures delta == Delta(decode, pushed, last, total) && |delta| == FRAME_SAMPLES * (total - last)
    {
      var windowStart := if last < OVERLAP then 0 else last - OVERLAP;
      if windowStart < codeStart {
        windowStart := codeStart;
      }
      var offset := windowStart - codeStart;
      assert offset == 0;
      assert frames[offset..] == pushed[WindowStart(last)..total];
      var audio := decode(frames[offset..]);
      delta := audio[FRAME_SAMPLES * (last - windowStart)..];
    }

    /** Cross-fade the window of new frames over the held tail. */
    method Merge() returns (merged: array<real>)
      requires Retained() && Out() && last < total
      ensures fresh(merged)
      ensures emitted + merged[..] == Cross(Merged(decode, pushed, w), Delta(decode, pushed, last, total))
      ensures merged.Length >= FRAME_SAMPLES * (total - last)
    {
      hide Cross, Merged, Delta, Mixed, Vocodes;
      var delta := Window();
      HeldLast(decode, pushed, w, emitted, tail);
      CrossHeld(emitted, tail, delta);
      merged := Crossfade(tail, delta);
    }

    /** A regular window: emit all but the new tail, keep the last 20 frames. */
    method BuildChunk() returns (chunk: seq<real>)
      requires Retained() && Out() && total == Bound(w + 1)
      modifies `tail, `last, `frames, `codeStart, `emitted, `w
      ensures Retained() && Out() && w == old(w) + 1 && last == total
      ensures emitted == old(emitted) + chunk && |frames| <= OVERLAP
    {
      hide Cross, Delta, Mixed, Vocodes;
      var merged := Merge();
      var hold := Min(CROSSFADE, merged.Length);
      var cut := merged.Length - hold;
      chunk := merged[..cut];
      tail := merged[cut..];
      assert emitted + merged[..] == emitted + chunk + tail;
      emitted := emitted + chunk;
      w := w + 1;
      last := total;
      TrimCodes(if total < OVERLAP then 0 else total - OVERLAP);
    }

    /** Append a frame. */
    method Append(f: Frame)
      requires Running()
      modifies `frames, `total, `pushed
      ensures pushed == old(pushed) + [f] && Retained() && Out() && total == old(total) + 1
    {
      hide Vocodes, Merged;
      MergedLocal(decode, pushed, f, w);
      assert (pushed + [f])[codeStart..] == pushed[codeStart..] + [f];
      frames := frames + [f];
      pushed := pushed + [f];
      total := total + 1;
    }

    /** s2p_dac_stream_push in reference mode. */
    method Push(f: Frame) returns (st: Status, chunk: seq<real>)
      requires Valid()
      modifies this
      ensures Valid()
      ensures old(finished) ==> st == WrongState && chunk == [] && pushed == old(pushed) && emitted == old(emitted)
      ensures !old(finished) ==>
        st == OK && !finished && pushed == old(pushed) + [f] && emitted == old(emitted) + chunk
    {
      hide Vocodes, Merged;
      if finished {
        return WrongState, [];
      }
      Append(f);
      var due := if next != 0 then next else STRIDE;
      if total < due {
        next := due;
        assert emitted + [] == emitted;
        return OK, [];
      }
      chunk := BuildChunk();
      next := total + FOLLOWUP;
      st := OK;
    }

    /** The last window, if frames are left, or the held tail. */
    method Drain() returns (chunk: seq<real>)
      requires Running()
      modifies `tail, `last
      ensures emitted + chunk == Complete(decode, pushed, w)
    {
      hide Vocodes, Merged, Cross, Delta;
      if total <= last {
        chunk := tail;
        tail := [];
        return;
      }
      var merged := Merge();
      chunk := merged[..];
      tail := [];
      last := total;
    }

    /** s2p_dac_stream_finish in reference mode: the run's samples are the function of the frames,
        2048 a frame less one crossfade for every window after the first. */
    method Finish() returns (st: Status, chunk: seq<real>)
      requires Valid()
      modifies `finished, `tail, `last, `emitted
      ensures Valid() && finished && emitted == old(emitted) + chunk
      ensures old(finished) ==> st == WrongState && chunk == []
      ensures !old(finished) ==> st == OK && emitted == Complete(decode, pushed, w)
      ensures Vocodes(decode) && (!old(finished) ==> IsRun(decode, pushed, emitted))
      ensures !old(finished) && pushed != [] ==>
        |emitted| == FRAME_SAMPLES * |pushed| - CROSSFADE * (if old(last) == |pushed| then w - 1 else w)
    {
      hide Vocodes, Complete, Merged, WindowStart, IsRun;
      chunk := [];
      assert emitted + [] == emitted;
      if finished {
        return WrongState, chunk;
      }
      st := OK;
      CompleteIsRun(decode, pushed, w);
      if pushed != [] {
        WindowsLength(decode, pushed, w);
      }
      if |frames| > 0 || |tail| > 0 {
        chunk := Drain();
      } else {
        NothingPushed(decode, pushed, w);
      }
      finished := true;
      emitted := emitted + chunk;
    }
  }

  lemma NothingPushed(decode: seq<Frame> -> seq<real>, fs: seq<Frame>, w: nat)
    requires w == 0 && |fs| == WindowStart(Bound(w)) && Vocodes(decode)
    ensures fs == [] && Complete(decode, fs, w) == [] && Merged(decode, fs, w) == []
  {
  }

  /** Either nothing is out yet, or a whole crossfade is held. */
  lemma HeldLast(decode: seq<Frame> -> seq<real>, fs: seq<Frame>, w: nat, emitted: seq<real>, tail: seq<real>)
    requires Bound(w) <= |fs| && Vocodes(decode) && emitted + tail == Merged(decode, fs, w)
    requires |tail| == if w == 0 then 0 else CROSSFADE
    ensures |tail| == CROSSFADE || emitted == []
  {
  }
}
