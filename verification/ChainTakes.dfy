/** What a take is, told from the callbacks alone: the blocks the scheduler delivered for a chunk since its
    last attempt began, in order, cut at the chunk's cap.  A finished response is the join of these. */
module ChainTakes {
  import opened Chain
  import opened ChainRuns
  import ChainWritten
  import Gap

  /** At most cap samples, or all when there is no cap. */
  function Cut(cap: nat, h: seq<int>): (t: seq<int>) {
    if 0 < cap < |h| then h[..cap] else h
  }

  /** Does this event drop what chunk i has produced? */
  predicate Drops(s: Sys, e: Event, i: nat)
    requires Sized(s) && (e.Audio? ==> Fits(s.conn, e.i))
  {
    e.Audio? && e.i == i && Regenerates(s.conn, i, e.pcm, e.final)
  }

  /** What has been delivered for chunk i once event e has happened, given what was before. */
  function Delivered(s: Sys, e: Event, i: nat, h: seq<int>): seq<int>
    requires Sized(s) && (e.Audio? ==> Fits(s.conn, e.i))
  {
    if Drops(s, e, i) then [] else if e.Audio? && e.i == i then h + e.pcm else h
  }

  /** The blocks delivered for chunk i in a run since its last regeneration, behind h. */
  ghost function Blocks(mode: Mode, s: Sys, es: seq<Event>, i: nat, h: seq<int>): seq<int>
    requires Runs(mode, s, es)
    decreases |es|
  {
    if es == [] then h else Blocks(mode, Step(mode, s, es[0]), es[1..], i, Delivered(s, es[0], i, h))
  }

  /** The accepted take of chunk i is what was delivered, cut at its cap. */
  predicate TakeIs(s: Sys, i: nat, h: seq<int>) {
    && i < |s.conn.slots| == |s.acc|
    && s.acc[i] == Cut(s.conn.slots[i].cap, h) && s.conn.slots[i].samples == |s.acc[i]|
  }

  /** What a callback leaves of any slot's counter. */
  lemma CallbackSamples(c: Conn, i: nat, pcm: seq<int>, final: bool, j: nat)
    requires Fits(c, i) && c.emit < |c.slots| && j < |c.slots|
    ensures var d := Callback(c, i, pcm, final);
            && |d.slots| == |c.slots|
            && d.slots[j].samples == if j != i then c.slots[j].samples
                                     else if Regenerates(c, i, pcm, final) then 0
                                     else c.slots[i].samples + |Kept(c, i, pcm)|
  {
    hide Absorb, Complete;
    if !Rejects(c, i, pcm) {
      var kept := Kept(c, i, pcm);
      AbsorbShape(c, i, kept);
      AbsorbShape(c, i, pcm);
      if final || Overran(c, i, pcm) {
        CompleteSlot(Absorb(c, i, kept), i, j);
      }
    }
  }

  lemma CutMore(cap: nat, h: seq<int>, pcm: seq<int>)
    ensures var t := Cut(cap, h);
            Cut(cap, h + pcm) == t + if pcm != [] && 0 < cap < |t| + |pcm| then pcm[..cap - |t|] else pcm
  {
  }

  lemma AudioTake(s: Sys, i: nat, pcm: seq<int>, final: bool, h: seq<int>)
    requires Sized(s) && Enabled(s, Audio(i, pcm, final)) && TakeIs(s, i, h)
    ensures TakeIs(Step(AsWritten, s, Audio(i, pcm, final)), i, Delivered(s, Audio(i, pcm, final), i, h))
  {
    hide Callback;
    CallbackSamples(s.conn, i, pcm, final, i);
    CallbackSlot(s.conn, i, pcm, final, i);
    CutMore(s.conn.slots[i].cap, h, pcm);
  }

  /** Every event, in either mode. */
  lemma TakeStep(mode: Mode, s: Sys, e: Event, i: nat, h: seq<int>)
    requires Sized(s) && Enabled(s, e) && TakeIs(s, i, h)
    ensures TakeIs(Step(mode, s, e), i, Delivered(s, e, i, h))
  {
    hide Callback;
    if e.Audio? {
      if e.i == i {
        AudioTake(s, i, e.pcm, e.final, h);
      } else {
        CallbackSamples(s.conn, e.i, e.pcm, e.final, i);
        CallbackSlot(s.conn, e.i, e.pcm, e.final, i);
      }
    }
  }

  /** In every state of every run, in either mode, sound or not: the take of a chunk is its blocks since
      its last regeneration, cut at its cap. */
  lemma {:induction false} TakesAre(mode: Mode, s: Sys, es: seq<Event>, i: nat, h: seq<int>)
    requires Runs(mode, s, es) && TakeIs(s, i, h)
    ensures TakeIs(Replay(mode, s, es), i, Blocks(mode, s, es, i, h))
    decreases |es|
  {
    hide Step, Delivered, TakeIs;
    if es != [] {
      TakeStep(mode, s, es[0], i, h);
      TakesAre(mode, Step(mode, s, es[0]), es[1..], i, Delivered(s, es[0], i, h));
    }
  }

  lemma TakesFromStart(mode: Mode, slots: seq<Slot>, parallel: nat, on: bool, buffered: bool, gapLen: nat,
                       es: seq<Event>, i: nat)
    requires Fresh(slots) && i < |slots| && Runs(mode, Init(slots, parallel, on, buffered, gapLen), es)
    ensures var o := Init(slots, parallel, on, buffered, gapLen);
            TakeIs(Replay(mode, o, es), i, Blocks(mode, o, es, i, []))
  {
    TakesAre(mode, Init(slots, parallel, on, buffered, gapLen), es, i, []);
  }

  // ---- when a take ends ------------------------------------------------------------------------------

  /** A block overruns exactly when more than the cap has then been delivered; a callback asks to cancel
      in no other case. */
  lemma OverranExactly(s: Sys, i: nat, pcm: seq<int>, h: seq<int>)
    requires TakeIs(s, i, h)
    ensures Overran(s.conn, i, pcm) <==> pcm != [] && 0 < s.conn.slots[i].cap < |h + pcm|
  {
  }

  /** An attempt is dropped for being too long while its chunk waits for the wire, or for ending with less
      than 0.3 s of audio (13230 samples) although its text has 12 bytes or more, or on the wire with none
      at all, and only while regenerations are left. */
  lemma DropsExactly(s: Sys, i: nat, pcm: seq<int>, final: bool, h: seq<int>)
    requires Sized(s) && TakeIs(s, i, h) && Fits(s.conn, i)
    ensures var sl := s.conn.slots[i];
            var n := |Cut(sl.cap, h + pcm)|;
            var long := pcm != [] && 0 < sl.cap < |h + pcm|;
            Drops(s, Audio(i, pcm, final), i) <==>
              && sl.retries > 0
              && if long then i != s.conn.emit
                 else final && n < 13230 && sl.textLen >= 12 && (i == s.conn.emit ==> n == 0)
  {
    hide Absorb;
    OverranExactly(s, i, pcm, h);
    AbsorbShape(s.conn, i, pcm);
    CutMore(s.conn.slots[i].cap, h, pcm);
  }

  // ---- from the events alone ---------------------------------------------------------------------------

  /** What has been delivered for chunk i since it was last submitted, given what was before the event. */
  function Since(e: Event, i: nat, g: seq<int>): seq<int> {
    match e
    case Submitted(j, _) => if j == i then [] else g
    case Audio(j, pcm, _) => if j == i then g + pcm else g
  }

  function SinceSubmitted(es: seq<Event>, i: nat, g: seq<int>): seq<int>
    decreases |es|
  {
    if es == [] then g else SinceSubmitted(es[1..], i, Since(es[0], i, g))
  }

  /** The accepted take of chunk i, from the blocks since its last submission: an armed chunk has none. */
  predicate TakeSince(s: Sys, i: nat, g: seq<int>) {
    i < |s.conn.slots| && TakeIs(s, i, if s.conn.slots[i].retry then [] else g)
  }

  lemma NothingTaken(s: Sys, i: nat, g: seq<int>)
    requires Inv(s) && TakeSince(s, i, g) && (s.conn.slots[i].retry || i >= s.conn.next)
    ensures s.acc[i] == [] && TakeIs(s, i, [])
    ensures !s.conn.slots[i].retry ==> g == []
  {
    assert SlotOk(s, i);
  }

  lemma SubmitSince(s: Sys, j: nat, a: Answer, i: nat, g: seq<int>)
    requires Inv(s) && Enabled(s, Submitted(j, a)) && TakeSince(s, i, g)
    ensures TakeSince(Step(AsMeant, s, Submitted(j, a)), i, Since(Submitted(j, a), i, g))
  {
    if j == i {
      NothingTaken(s, i, g);
    }
  }

  lemma AudioSince(s: Sys, j: nat, pcm: seq<int>, final: bool, i: nat, g: seq<int>)
    requires Inv(s) && Enabled(s, Audio(j, pcm, final)) && TakeSince(s, i, g)
    ensures TakeSince(Step(AsMeant, s, Audio(j, pcm, final)), i, Since(Audio(j, pcm, final), i, g))
  {
    hide Callback, TakeIs;
    assert SlotOk(s, j);
    CallbackSlot(s.conn, j, pcm, final, i);
    TakeStep(AsMeant, s, Audio(j, pcm, final), i, if s.conn.slots[i].retry then [] else g);
  }

  /** In a sound chain a regeneration drops everything, and a chunk is submitted only while nothing is
      accepted for it: its take is told from the events. */
  lemma {:induction false} TakesSince(s: Sys, es: seq<Event>, i: nat, g: seq<int>)
    requires Inv(s) && Runs(AsMeant, s, es) && TakeSince(s, i, g)
    ensures TakeSince(Replay(AsMeant, s, es), i, SinceSubmitted(es, i, g))
    decreases |es|
  {
    hide Inv, TakeSince, Since;
    if es != [] {
      var t := Step(AsMeant, s, es[0]);
      match es[0] {
        case Submitted(j, a) => SubmitSince(s, j, a, i, g);
        case Audio(j, pcm, final) => AudioSince(s, j, pcm, final, i, g);
      }
      StepKeeps(s, es[0]);
      if t.ended {
        EndedStops(AsMeant, t, es[1..]);
      } else {
        TakesSince(t, es[1..], i, Since(es[0], i, g));
      }
    }
  }

  /** The takes of a run: what the events delivered for every chunk since its last submission, cut. */
  ghost function Takes(slots: seq<Slot>, es: seq<Event>): (ts: seq<seq<int>>)
    ensures |ts| == |slots|
  {
    seq(|slots|, i requires 0 <= i < |slots| => Cut(slots[i].cap, SinceSubmitted(es, i, [])))
  }

  lemma StartSince(slots: seq<Slot>, parallel: nat, on: bool, buffered: bool, gapLen: nat, i: nat)
    requires Fresh(slots) && parallel >= 1 && i < |slots|
    ensures var o := Init(slots, parallel, on, buffered, gapLen);
            Inv(o) && TakeSince(o, i, []) && o.conn.slots[i].cap == slots[i].cap
  {
    InitInv(slots, parallel, on, buffered, gapLen);
  }

  lemma {:induction false} CapsStay(mode: Mode, s: Sys, es: seq<Event>, i: nat)
    requires Runs(mode, s, es) && i < |s.conn.slots|
    ensures var t := Replay(mode, s, es);
            && |t.conn.slots| == |s.conn.slots| && t.conn.slots[i].cap == s.conn.slots[i].cap
            && t.conn.gapLen == s.conn.gapLen && t.conn.gap.on == s.conn.gap.on
            && t.conn.gap.buffered == s.conn.gap.buffered
    decreases |es|
  {
    if es != [] {
      StepCaps(mode, s, es[0], i);
      CapsStay(mode, Step(mode, s, es[0]), es[1..], i);
    }
  }

  lemma StepCaps(mode: Mode, s: Sys, e: Event, i: nat)
    requires Sized(s) && Enabled(s, e) && i < |s.conn.slots|
    ensures var t := Step(mode, s, e);
            && |t.conn.slots| == |s.conn.slots| && t.conn.slots[i].cap == s.conn.slots[i].cap
            && t.conn.gapLen == s.conn.gapLen && t.conn.gap.on == s.conn.gap.on
            && t.conn.gap.buffered == s.conn.gap.buffered
  {
    hide Callback;
    if e.Audio? {
      CallbackSlot(s.conn, e.i, e.pcm, e.final, i);
      CallbackGap(s.conn, e.i, e.pcm, e.final);
    }
  }

  predicate SameJoin(c: Conn, d: Conn) {
    d.gapLen == c.gapLen && d.gap.on == c.gap.on && d.gap.buffered == c.gap.buffered
  }

  lemma AbsorbJoin(c: Conn, i: nat, kept: seq<int>)
    requires i < |c.slots|
    ensures SameJoin(c, Absorb(c, i, kept))
  {
    hide Gap.Feed;
    Gap.FeedFrame(c.gap, kept);
  }

  lemma CompleteJoin(c: Conn, i: nat)
    requires i < |c.slots| && c.emit < |c.slots|
    ensures SameJoin(c, Complete(c, i))
  {
    hide Advance;
    if i == c.emit {
      AdvanceGap(Put(c, i, c.slots[i].(done := true)).(inFlight := c.inFlight - 1));
    }
  }

  lemma CallbackGap(c: Conn, i: nat, pcm: seq<int>, final: bool)
    requires Fits(c, i) && c.emit < |c.slots|
    ensures SameJoin(c, Callback(c, i, pcm, final))
  {
    hide Absorb, Complete;
    if !Rejects(c, i, pcm) {
      var kept := Kept(c, i, pcm);
      AbsorbShape(c, i, kept);
      AbsorbJoin(c, i, kept);
      CompleteJoin(Absorb(c, i, kept), i);
    }
  }

  lemma {:induction false} AdvanceGap(c: Conn)
    requires c.emit < |c.slots|
    ensures var d := Advance(c);
            d.gapLen == c.gapLen && d.gap.on == c.gap.on && d.gap.buffered == c.gap.buffered
    decreases |c.slots| - c.emit
  {
    hide Gap.Feed;
    if c.emit + 1 < |c.slots| {
      Gap.FeedFrame(Gap.Boundary(c.gap, c.gapLen), c.slots[c.emit + 1].pend);
      var d := HandOver(c);
      if d.slots[d.emit].done {
        AdvanceGap(d);
      }
    }
  }

  /** The accepted takes of a sound run that nothing is armed in. */
  lemma AccAreTakes(slots: seq<Slot>, parallel: nat, on: bool, buffered: bool, gapLen: nat, es: seq<Event>, i: nat)
    requires Fresh(slots) && parallel >= 1 && i < |slots|
    requires Runs(AsMeant, Init(slots, parallel, on, buffered, gapLen), es)
    ensures var t := Replay(AsMeant, Init(slots, parallel, on, buffered, gapLen), es);
            && |t.conn.slots| == |t.acc| == |slots| && t.conn.slots[i].cap == slots[i].cap
            && t.acc[i] == if t.conn.slots[i].retry then [] else Takes(slots, es)[i]
  {
    hide Inv;
    var o := Init(slots, parallel, on, buffered, gapLen);
    StartSince(slots, parallel, on, buffered, gapLen, i);
    TakesSince(o, es, i, []);
    CapsStay(AsMeant, o, es, i);
  }

  /** A finished response is the join of what the callbacks delivered: for every chunk the blocks since its
      last submission, in order, cut at its cap. */
  lemma FinishedIsTakes(slots: seq<Slot>, parallel: nat, on: bool, buffered: bool, gapLen: nat, es: seq<Event>)
    requires Fresh(slots) && parallel >= 1 && Runs(AsMeant, Init(slots, parallel, on, buffered, gapLen), es)
    ensures var t := Replay(AsMeant, Init(slots, parallel, on, buffered, gapLen), es);
            !t.ended && t.conn.finished ==> t.conn.gap.out == Gap.Join(Takes(slots, es), on, buffered, gapLen)
  {
    hide Gap.Join, Takes;
    var o := Init(slots, parallel, on, buffered, gapLen);
    InitInv(slots, parallel, on, buffered, gapLen);
    RunKeeps(o, es);
    var t := Replay(AsMeant, o, es);
    CapsStay(AsMeant, o, es, 0);
    if !t.ended && t.conn.finished {
      FinishedIsJoin(t);
      forall i: nat | i < |slots|
        ensures t.acc[i] == Takes(slots, es)[i]
      {
        AccAreTakes(slots, parallel, on, buffered, gapLen, es, i);
        assert SlotOk(t, i);
      }
      assert t.acc == Takes(slots, es);
    }
  }

  lemma {:induction false} JoinToLocal(a: seq<seq<int>>, b: seq<seq<int>>, k: nat, on: bool, buffered: bool, gap: nat)
    requires k <= |a| && k <= |b| && forall j: nat :: j < k ==> a[j] == b[j]
    ensures Gap.JoinTo(a, k, on, buffered, gap) == Gap.JoinTo(b, k, on, buffered, gap)
  {
    hide Gap.Piece;
    if k > 0 {
      JoinToLocal(a, b, k - 1, on, buffered, gap);
    }
  }

  /** Mid-run: emitted and held is the join of the takes before the wire's chunk and the trimmed part of its
      own, of which an armed attempt has none. */
  lemma WireIsTakes(slots: seq<Slot>, parallel: nat, on: bool, buffered: bool, gapLen: nat, es: seq<Event>)
    requires Fresh(slots) && parallel >= 1 && Runs(AsMeant, Init(slots, parallel, on, buffered, gapLen), es)
    ensures var t := Replay(AsMeant, Init(slots, parallel, on, buffered, gapLen), es);
            var k := t.conn.emit;
            !t.ended && !t.conn.finished ==>
              && k < |slots| == |t.conn.slots|
              && t.conn.gap.out + t.conn.gap.hold
                 == Gap.JoinTo(Takes(slots, es), k, on, buffered, gapLen)
                    + Gap.Trimmed(if t.conn.slots[k].retry then [] else Takes(slots, es)[k], on && k > 0)
  {
    hide Gap.JoinTo, Gap.Trimmed, Takes;
    var o := Init(slots, parallel, on, buffered, gapLen);
    InitInv(slots, parallel, on, buffered, gapLen);
    RunKeeps(o, es);
    var t := Replay(AsMeant, o, es);
    CapsStay(AsMeant, o, es, 0);
    if !t.ended && !t.conn.finished {
      WireSoFar(t);
      forall i: nat | i <= t.conn.emit
        ensures t.acc[i] == (if t.conn.slots[i].retry then [] else Takes(slots, es)[i])
        ensures i < t.conn.emit ==> !t.conn.slots[i].retry
      {
        AccAreTakes(slots, parallel, on, buffered, gapLen, es, i);
        assert SlotOk(t, i);
      }
      JoinToLocal(t.acc, Takes(slots, es), t.conn.emit, on, buffered, gapLen);
    }
  }

  /** So it is for a benign run of the code. */
  lemma BenignIsTakes(slots: seq<Slot>, parallel: nat, on: bool, buffered: bool, gapLen: nat, es: seq<Event>)
    requires Fresh(slots) && parallel >= 1 && Runs(AsWritten, Init(slots, parallel, on, buffered, gapLen), es)
    requires BenignRun(Init(slots, parallel, on, buffered, gapLen), es)
    ensures var t := Replay(AsWritten, Init(slots, parallel, on, buffered, gapLen), es);
            !t.ended && t.conn.finished ==> t.conn.gap.out == Gap.Join(Takes(slots, es), on, buffered, gapLen)
  {
    ChainWritten.BenignIsMeant(Init(slots, parallel, on, buffered, gapLen), es);
    FinishedIsTakes(slots, parallel, on, buffered, gapLen, es);
  }
}
