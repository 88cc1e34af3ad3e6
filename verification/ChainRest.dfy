/** Where a run of the code as written can come to rest: behind a silent first chunk, or behind a chunk
    whose regeneration was refused and forgotten. */
module ChainRest {
  import opened Chain
  import opened ChainRuns
  import opened ChainWritten
  import ChainBenign
  import ChainConn
  import Gap

  // ---- what every run of the code keeps of its order -------------------------------------------------

  /** Before the first audio of a parallel chain only chunk 0 is under way. */
  predicate OnlyZero(s: Sys) {
    && s.conn.next <= 1
    && (forall i: nat :: 1 <= i < |s.live| ==> s.live[i] == 0)
    && (forall i: nat :: 1 <= i < |s.conn.slots| ==> !s.conn.slots[i].retry)
  }

  /** The wire has passed done chunks only, and stands at one that is not. */
  predicate WireOk(c: Conn) {
    && c.emit < |c.slots|
    && (forall j: nat :: j < c.emit ==> c.slots[j].done)
    && (!c.finished ==> !c.slots[c.emit].done)
  }

  ghost predicate Loose(s: Sys) {
    && ChainConn.Basic(s) && WireOk(s.conn) && s.conn.parallel >= 1 && s.conn.next <= |s.conn.slots|
    && (s.acc[0] != [] ==> s.conn.firstAudio)
    && (!s.conn.firstAudio && s.conn.parallel > 1 ==> OnlyZero(s))
  }

  lemma InitLoose(slots: seq<Slot>, parallel: nat, on: bool, buffered: bool, gapLen: nat)
    requires Fresh(slots) && parallel >= 1
    ensures Loose(Init(slots, parallel, on, buffered, gapLen))
  {
    InitInv(slots, parallel, on, buffered, gapLen);
    ChainConn.InvBasic(Init(slots, parallel, on, buffered, gapLen));
  }

  /** The hand-over loop stops at a chunk that is not done, or at the end. */
  lemma {:induction false} AdvanceWire(c: Conn)
    requires c.emit < |c.slots| && forall j: nat :: j <= c.emit ==> c.slots[j].done
    ensures var d := Advance(c);
            WireOk(d) && d.firstAudio == c.firstAudio
    decreases |c.slots| - c.emit
  {
    if c.emit + 1 < |c.slots| {
      var d := HandOver(c);
      if d.slots[d.emit].done {
        AdvanceWire(d);
      }
    }
  }

  lemma CompleteWire(c: Conn, i: nat)
    requires i < |c.slots| && WireOk(c)
    ensures var d := Complete(c, i);
            WireOk(d) && d.firstAudio == c.firstAudio
  {
    if i == c.emit {
      AdvanceWire(Put(c, i, c.slots[i].(done := true)).(inFlight := c.inFlight - 1));
    }
  }

  lemma AbsorbWire(c: Conn, i: nat, kept: seq<int>)
    requires i < |c.slots| && WireOk(c)
    ensures var d := Absorb(c, i, kept);
            WireOk(d) && d.firstAudio == (c.firstAudio || (i == 0 && kept != []))
  {
  }

  lemma CallbackWire(c: Conn, i: nat, pcm: seq<int>, final: bool)
    requires Fits(c, i) && WireOk(c)
    ensures var d := Callback(c, i, pcm, final);
            && WireOk(d)
            && d.firstAudio == (c.firstAudio || (i == 0 && !Rejects(c, i, pcm) && Kept(c, i, pcm) != []))
  {
    hide Absorb, Complete;
    if !Rejects(c, i, pcm) {
      var kept := Kept(c, i, pcm);
      AbsorbShape(c, i, kept);
      AbsorbWire(c, i, kept);
      CompleteWire(Absorb(c, i, kept), i);
    }
  }

  lemma SubmitLoose(s: Sys, i: nat, a: Answer)
    requires Loose(s) && Enabled(s, Submitted(i, a))
    ensures Loose(Step(AsWritten, s, Submitted(i, a)))
  {
    hide Gap.Ok;
    ChainConn.StepBasic(AsWritten, s, Submitted(i, a));
  }

  lemma AudioLoose(s: Sys, i: nat, pcm: seq<int>, final: bool)
    requires Loose(s) && Enabled(s, Audio(i, pcm, final))
    ensures Loose(Step(AsWritten, s, Audio(i, pcm, final)))
  {
    hide Callback, Gap.Ok;
    ChainConn.StepBasic(AsWritten, s, Audio(i, pcm, final));
    CallbackWire(s.conn, i, pcm, final);
    CallbackSlot(s.conn, i, pcm, final, 0);
    var t := Step(AsWritten, s, Audio(i, pcm, final));
    if !t.conn.firstAudio && t.conn.parallel > 1 {
      forall j: nat | 1 <= j < |t.conn.slots|
        ensures !t.conn.slots[j].retry
      {
        CallbackSlot(s.conn, i, pcm, final, j);
      }
    }
  }

  /** Every run of the code, benign or not. */
  lemma {:induction false} RunLoose(s: Sys, es: seq<Event>)
    requires Loose(s) && Runs(AsWritten, s, es)
    ensures Loose(Replay(AsWritten, s, es))
    decreases |es|
  {
    hide Loose;
    if es != [] {
      match es[0] {
        case Submitted(i, a) => SubmitLoose(s, i, a);
        case Audio(i, pcm, final) => AudioLoose(s, i, pcm, final);
      }
      RunLoose(Step(AsWritten, s, es[0]), es[1..]);
    }
  }

  // ---- rest ------------------------------------------------------------------------------------------

  /** No session runs and no regeneration is armed. */
  ghost predicate Quiet(s: Sys) {
    (forall i: nat :: i < |s.live| ==> s.live[i] == 0) && !AnyRetry(s.conn)
  }

  /** Nothing is left to submit, or chunk 0 was submitted and never heard. */
  predicate WindowShut(c: Conn) {
    c.next == |c.slots| || (c.next == 1 && c.parallel > 1 && !c.firstAudio)
  }

  /** The chunk whose turn it is has been submitted, is not done, and nothing will ever continue it. */
  ghost predicate Lost(s: Sys) {
    && Quiet(s) && s.conn.emit < s.conn.next <= |s.conn.slots| && !s.conn.slots[s.conn.emit].done
  }

  /** Chunk 0 of a parallel chain is done and was never heard. */
  ghost predicate SilentFirst(s: Sys) {
    && Quiet(s) && s.conn.next == 1 < |s.conn.slots| && s.conn.parallel > 1
    && s.conn.slots[0].done && !s.conn.firstAudio
  }

  lemma LooseRest(s: Sys)
    requires Loose(s) && !s.ended && !s.conn.finished
    ensures (forall e :: !Enabled(s, e)) <==> Quiet(s) && WindowShut(s.conn)
  {
    hide Gap.Ok;
    if !Quiet(s) {
      if i: nat :| i < |s.live| && s.live[i] > 0 {
        assert Enabled(s, Audio(i, [], false));
      } else {
        var i: nat :| i < |s.conn.slots| && s.conn.slots[i].retry;
        assert Enabled(s, Submitted(i, OK));
      }
    } else {
      TotalZero(s.live, Ident);
      if !WindowShut(s.conn) {
        assert Enabled(s, Submitted(s.conn.next, OK));
      }
    }
  }

  /** A resting chain waits behind a lost chunk or behind a silent first one. */
  lemma LooseLost(s: Sys)
    requires Loose(s) && !s.conn.finished && Quiet(s)
    ensures WindowShut(s.conn) <==> (Lost(s) && WindowShut(s.conn)) || SilentFirst(s)
    ensures SilentFirst(s) ==> !Lost(s)
  {
  }

  /** Every run of the code that has neither finished nor been refused: nothing can happen any more if
      and only if no session runs, no regeneration is armed, and either the chunk whose turn it is was
      submitted and lost with the window shut, or chunk 0 of a parallel chain ended unheard. */
  lemma RestExactly(slots: seq<Slot>, parallel: nat, on: bool, buffered: bool, gapLen: nat, es: seq<Event>)
    requires Fresh(slots) && parallel >= 1 && Runs(AsWritten, Init(slots, parallel, on, buffered, gapLen), es)
    ensures var t := Replay(AsWritten, Init(slots, parallel, on, buffered, gapLen), es);
            !t.ended && !t.conn.finished ==>
              ((forall e :: !Enabled(t, e)) <==> (Lost(t) && WindowShut(t.conn)) || SilentFirst(t))
  {
    hide Loose;
    var s := Init(slots, parallel, on, buffered, gapLen);
    InitLoose(slots, parallel, on, buffered, gapLen);
    RunLoose(s, es);
    var t := Replay(AsWritten, s, es);
    if !t.ended && !t.conn.finished {
      LooseRest(t);
      if Quiet(t) {
        LooseLost(t);
      }
    }
  }

  /** A sound chain never loses a chunk. */
  lemma SoundIsNotLost(s: Sys)
    requires Inv(s) && !s.conn.finished
    ensures !Lost(s) && (SilentFirst(s) ==> Stalled(s))
  {
    assert SlotOk(s, s.conn.emit);
  }

  // ---- a lost chunk ----------------------------------------------------------------------------------

  /** Chunk 2 is complete, chunk 1 forgotten, chunk 0 about to end. */
  lemma LostReached() returns (t: Sys)
    ensures Reaches(AsWritten, Start3(), t) && Sized(t) && !t.ended && !t.conn.finished && t.live == [0, 0, 0]
    ensures t.conn.emit == 1 && t.conn.next == 3 == |t.conn.slots| && t.conn.firstAudio && !AnyRetry(t.conn)
    ensures !t.conn.slots[1].done
  {
    hide Reaches, Runs, Replay, Advance;
    var s, u := Start3(), Rearmed();
    RearmedReached();
    Hop(AsWritten, s, u, Submitted(1, FULL));
    var v := Step(AsWritten, u, Submitted(1, FULL));
    var pcm := seq(GUARD_EMPTY, _ => 7);
    Hop(AsWritten, s, v, Audio(2, pcm, true));
    var w := Step(AsWritten, v, Audio(2, pcm, true));
    assert w.conn.slots[1] == v.conn.slots[1] && w.live == [1, 0, 0];
    t := EndsWith(s, w, 0, 7);
    CallbackSlot(w.conn, 0, [7], true, 0);
    CallbackSlot(w.conn, 0, [7], true, 1);
    CallbackWire(w.conn, 0, [7], true);
  }

  /** As written, the refused regeneration of chunk 1 leaves a response that is audible, not refused and
      never ends: nothing can happen any more. */
  lemma ForgottenForEver()
    ensures exists t :: Reaches(AsWritten, Start3(), t) && Sized(t) && !t.ended && !t.conn.finished
                        && t.conn.firstAudio && Lost(t) && forall e :: !Enabled(t, e)
  {
    hide Reaches;
    var t := LostReached();
    assert Quiet(t);
  }

  // ---- which requests can come to rest unfinished ------------------------------------------------------

  /** Some run ends neither complete nor refused, and nothing can happen any more. */
  ghost predicate RestFrom(o: Sys) {
    exists t :: Reaches(AsWritten, o, t) && AtRest(t)
  }

  ghost predicate AtRest(t: Sys) {
    Sized(t) && !t.ended && !t.conn.finished && forall e :: !Enabled(t, e)
  }

  /** Nothing is under way, the wire's chunk is lost and chunk k has not been started. */
  ghost predicate Husk(o: Sys, t: Sys, k: nat) {
    && Reaches(AsWritten, o, t) && Loose(t) && !t.ended && !t.conn.finished && Quiet(t)
    && t.conn.emit < k == t.conn.next <= |t.conn.slots| && (t.conn.parallel == 1 || k == |t.conn.slots|)
  }

  lemma OneHop(o: Sys, s: Sys, e: Event) returns (t: Sys)
    requires Reaches(AsWritten, o, s) && Loose(s) && Enabled(s, e)
    ensures t == Step(AsWritten, s, e) && Reaches(AsWritten, o, t) && Loose(t)
  {
    hide Reaches;
    match e {
      case Submitted(i, a) => SubmitLoose(s, i, a);
      case Audio(i, pcm, final) => AudioLoose(s, i, pcm, final);
    }
    LooseSized(Step(AsWritten, s, e));
    Hop(AsWritten, o, s, e);
    t := Step(AsWritten, s, e);
  }

  lemma LooseSized(s: Sys)
    requires Loose(s)
    ensures Sized(s) && s.conn.inFlight == Total(s.live, Ident)
    ensures forall i: nat :: i < |s.conn.slots| ==> Fits(s.conn, i)
  {
  }

  /** Only chunk k is under way, behind the lost one. */
  ghost predicate Behind(o: Sys, u: Sys, k: nat) {
    && Reaches(AsWritten, o, u) && Loose(u) && !u.ended && !u.conn.finished
    && u.conn.emit < k < |u.conn.slots| && u.conn.next == k + 1
    && (u.conn.parallel == 1 || k + 1 == |u.conn.slots|)
    && (forall j: nat :: j < |u.live| ==> u.live[j] == if j == k then 1 else 0) && !AnyRetry(u.conn)
  }

  lemma HuskStart(o: Sys, s: Sys, k: nat) returns (u: Sys)
    requires Husk(o, s, k) && k < |s.conn.slots|
    ensures Behind(o, u, k) && |u.conn.slots| == |s.conn.slots|
  {
    hide Reaches, Loose, Fits;
    LooseSized(s);
    TotalZero(s.live, Ident);
    u := OneHop(o, s, Submitted(k, OK));
  }

  /** It comes back empty, and is done or armed. */
  lemma BehindEnds(u: Sys, k: nat)
    requires Loose(u) && !u.ended && u.conn.emit < k < |u.conn.slots| && u.live[k] > 0
    ensures var v := Step(AsWritten, u, Audio(k, [], true));
            && v.conn == (if Empty(u.conn, k, false) then Regenerate(u.conn, k) else Complete(u.conn, k))
            && v.live == u.live[k := u.live[k] - 1] && !v.ended
  {
    hide Empty, Regenerate, Complete;
    LooseSized(u);
    assert Kept(u.conn, k, []) == [];
  }

  lemma BehindOver(o: Sys, u: Sys, k: nat) returns (v: Sys)
    requires Behind(o, u, k)
    ensures Reaches(AsWritten, o, v) && Loose(v) && !v.ended && !v.conn.finished
    ensures v.conn.emit < k && v.conn.next == k + 1 && |v.conn.slots| == |u.conn.slots|
    ensures v.conn.parallel == u.conn.parallel
    ensures forall j: nat :: j < |v.live| ==> v.live[j] == 0
    ensures forall j: nat :: j < |v.conn.slots| && j != k ==> !v.conn.slots[j].retry
  {
    hide Reaches, Loose, Fits, Step, Callback, Empty;
    LooseSized(u);
    BehindEnds(u, k);
    v := OneHop(o, u, Audio(k, [], true));
    LooseSized(v);
  }

  /** The next chunk is started and comes back empty; if that arms it, its regeneration is refused. */
  lemma HuskNext(o: Sys, s: Sys, k: nat) returns (t: Sys)
    requires Husk(o, s, k) && k < |s.conn.slots|
    ensures Husk(o, t, k + 1) && |t.conn.slots| == |s.conn.slots|
  {
    hide Reaches, Loose, Fits;
    var u := HuskStart(o, s, k);
    t := BehindOver(o, u, k);
    LooseSized(t);
    if t.conn.slots[k].retry {
      t := OneHop(o, t, Submitted(k, FULL));
    }
  }

  lemma {:induction false} HuskRest(o: Sys, s: Sys, k: nat)
    requires Husk(o, s, k)
    ensures RestFrom(o)
    decreases |s.conn.slots| - k
  {
    if k < |s.conn.slots| {
      var t := HuskNext(o, s, k);
      HuskRest(o, t, k + 1);
    } else {
      hide Reaches;
      LooseRest(s);
      assert AtRest(s);
    }
  }

  /** Chunk i is armed as the newest and nothing else can be under way: its refusal leaves a husk. */
  lemma RefusalHusk(o: Sys, u: Sys, i: nat) returns (t: Sys)
    requires Reaches(AsWritten, o, u) && Inv(u) && Loose(u) && !u.ended && !u.conn.finished
    requires i < |u.conn.slots| && u.conn.slots[i].retry && u.conn.next == i + 1
    requires u.conn.parallel == 1 || |u.conn.slots| == 1
    ensures Husk(o, t, i + 1)
  {
    hide Reaches, Loose;
    t := OneHop(o, u, Submitted(i, FULL));
    assert SlotOk(u, i);
    TotalUpdate(u.conn.slots, Armed, i, t.conn.slots[i]);
    if u.conn.parallel == 1 {
      TotalZero(t.conn.slots, Armed);
      TotalZero(u.live, Ident);
    }
  }

  /** A request can come to rest unfinished if and only if it is parallel and has at least two chunks, or
      one of its chunks can be regenerated. */
  lemma RestPossible(slots: seq<Slot>, parallel: nat, on: bool, buffered: bool, gapLen: nat)
    requires Fresh(slots) && parallel >= 1
    ensures RestFrom(Init(slots, parallel, on, buffered, gapLen)) <==>
            (parallel > 1 && |slots| > 1) || exists i: nat :: ChainBenign.Regenerable(slots, parallel, i)
  {
    hide Loose, Reaches, ChainBenign.Regenerable;
    var o := Init(slots, parallel, on, buffered, gapLen);
    if RestFrom(o) {
      RestNeeds(slots, parallel, on, buffered, gapLen);
    }
    if parallel > 1 && |slots| > 1 {
      StallReached(slots, parallel, on, buffered, gapLen);
      StallRests(o);
    } else if i: nat :| ChainBenign.Regenerable(slots, parallel, i) {
      var u := ChainBenign.ArmedReached(slots, parallel, on, buffered, gapLen, i, false);
      GentlyReaches(slots, parallel, on, buffered, gapLen, u);
      var t := RefusalHusk(o, u, i);
      HuskRest(o, t, i + 1);
    }
  }

  lemma StallRests(o: Sys)
    requires StallFrom(o)
    ensures RestFrom(o)
  {
    hide Reaches, Inv;
    var t :| Reaches(AsWritten, o, t) && Inv(t) && !t.ended && !t.conn.finished && Stalled(t);
    ChainBenign.InvSized(t);
    StuckExactly(t);
    assert AtRest(t);
  }

  lemma GentlyReaches(slots: seq<Slot>, parallel: nat, on: bool, buffered: bool, gapLen: nat, u: Sys)
    requires Fresh(slots) && parallel >= 1 && ChainBenign.Gently(Init(slots, parallel, on, buffered, gapLen), u)
    ensures Reaches(AsWritten, Init(slots, parallel, on, buffered, gapLen), u) && Loose(u)
    ensures u.conn.parallel == parallel
  {
    hide Loose;
    var o := Init(slots, parallel, on, buffered, gapLen);
    var es :| ChainBenign.GentleRun(o, u, es);
    InitLoose(slots, parallel, on, buffered, gapLen);
    RunLoose(o, es);
    SameParallel(AsWritten, o, es);
  }

  lemma RestNeeds(slots: seq<Slot>, parallel: nat, on: bool, buffered: bool, gapLen: nat)
    requires Fresh(slots) && parallel >= 1 && RestFrom(Init(slots, parallel, on, buffered, gapLen))
    ensures (parallel > 1 && |slots| > 1) || exists i: nat :: ChainBenign.Regenerable(slots, parallel, i)
  {
    hide Inv, ChainBenign.Regenerable, AtRest, Enabled;
    var o := Init(slots, parallel, on, buffered, gapLen);
    var t :| Reaches(AsWritten, o, t) && AtRest(t);
    var es :| Runs(AsWritten, o, es) && Replay(AsWritten, o, es) == t;
    if BenignRun(o, es) {
      InitInv(slots, parallel, on, buffered, gapLen);
      AsWrittenRunKeeps(o, es);
      BenignRest(o, t);
      StallPossible(slots, parallel, on, buffered, gapLen);
    } else {
      assert ChainBenign.BadFrom(o);
      ChainBenign.RefusalPossible(slots, parallel, on, buffered, gapLen);
    }
  }

  lemma BenignRest(o: Sys, t: Sys)
    requires Reaches(AsWritten, o, t) && AtRest(t) && (t.ended || Inv(t))
    ensures StallFrom(o)
  {
    hide Inv, Reaches;
    StuckExactly(t);
  }
}
