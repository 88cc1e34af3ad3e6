/** Which requests have runs of the code that are not benign, told from their parameters. */
module ChainBenign {
  import opened Chain
  import opened ChainRuns
  import opened ChainWritten
  import Gap

  /** A chunk that some run arms for regeneration: one that may come back empty, or one that may overrun
      its cap while an earlier chunk has the wire. */
  predicate Regenerable(slots: seq<Slot>, parallel: nat, i: nat) {
    && i < |slots| && slots[i].retries > 0
    && (slots[i].textLen >= GUARD_EMPTY_MIN_BYTES || (i >= 1 && parallel > 1 && slots[i].cap > 0))
  }

  /** One that some run arms after a later chunk was submitted. */
  predicate Overtaken(slots: seq<Slot>, parallel: nat, i: nat) {
    && 1 <= i && i + 1 < |slots| && slots[i].retries > 0 && parallel > 1
    && (slots[i].textLen >= GUARD_EMPTY_MIN_BYTES || (parallel > 2 && slots[i].cap > 0))
  }

  // ---- what benign runs keep of the request -----------------------------------------------------------

  /** The chunks are those of the request, with no more regenerations left than at the start. */
  ghost predicate Same(slots: seq<Slot>, s: Sys) {
    && |s.conn.slots| == |slots|
    && forall j: nat :: j < |slots| ==>
         && s.conn.slots[j].textLen == slots[j].textLen && s.conn.slots[j].cap == slots[j].cap
         && s.conn.slots[j].retries <= slots[j].retries
  }

  /** Only regenerable chunks are armed. */
  ghost predicate ArmedOk(slots: seq<Slot>, s: Sys) {
    forall j: nat :: j < |s.conn.slots| && s.conn.slots[j].retry ==> Regenerable(slots, s.conn.parallel, j)
  }

  /** With two sessions at most, a chunk that waits for the wire is the newest. */
  ghost predicate Pair(s: Sys) {
    s.conn.parallel == 2 ==>
      && (forall j: nat :: s.conn.emit < j < |s.conn.slots| && j + 1 < s.conn.next ==> s.conn.slots[j].done)
      && (forall j: nat :: j < |s.conn.slots| && s.conn.slots[j].retry ==>
           s.conn.slots[j].textLen >= GUARD_EMPTY_MIN_BYTES || j + 1 == s.conn.next)
  }

  /** One at a time, all but the newest are done. */
  ghost predicate Single(s: Sys) {
    s.conn.parallel == 1 ==> Serial(s)
  }

  ghost predicate Tame(slots: seq<Slot>, s: Sys) {
    Inv(s) && Same(slots, s) && ArmedOk(slots, s) && Pair(s) && Single(s)
  }

  lemma {:induction false} TotalTwo(live: seq<nat>, a: nat, b: nat)
    requires a < b < |live| && live[a] > 0 && live[b] > 0
    ensures Total(live, Ident) >= 2
  {
    if a == 0 {
      assert live[1..][b - 1] > 0;
      TotalZero(live[1..], Ident);
    } else {
      TotalTwo(live[1..], a - 1, b - 1);
    }
  }

  /** While chunk i is live behind the wire's chunk, two places of the window are taken. */
  lemma TwoUnderWay(s: Sys, i: nat)
    requires Inv(s) && !s.conn.finished && s.conn.emit < i < |s.conn.slots| && s.live[i] > 0
    ensures s.conn.parallel >= 2 && s.conn.emit < i < s.conn.next
    ensures !s.conn.slots[s.conn.emit].retry ==> s.conn.inFlight >= 2
  {
    var k := s.conn.emit;
    assert SlotOk(s, i) && SlotOk(s, k);
    if s.conn.slots[k].retry {
      TotalZero(s.conn.slots, Armed);
      TotalZero(s.live, Ident);
    } else {
      TotalTwo(s.live, k, i);
    }
  }

  lemma AudioSame(slots: seq<Slot>, s: Sys, i: nat, pcm: seq<int>, final: bool)
    requires Tame(slots, s) && Enabled(s, Audio(i, pcm, final))
    ensures Same(slots, Step(AsWritten, s, Audio(i, pcm, final)))
  {
    hide Callback;
    assert SlotOk(s, i);
    forall j: nat | j < |slots|
      ensures var sl := Callback(s.conn, i, pcm, final).slots;
              |sl| == |slots| && sl[j].textLen == slots[j].textLen && sl[j].cap == slots[j].cap
              && sl[j].retries <= slots[j].retries
    {
      CallbackSlot(s.conn, i, pcm, final, j);
      CallbackDone(s.conn, i, pcm, final, j);
    }
    CallbackSlot(s.conn, i, pcm, final, i);
  }

  /** What arms a chunk. */
  lemma Arms(slots: seq<Slot>, s: Sys, i: nat, pcm: seq<int>, final: bool)
    requires Tame(slots, s) && Enabled(s, Audio(i, pcm, final)) && Regenerates(s.conn, i, pcm, final)
    ensures Regenerable(slots, s.conn.parallel, i)
    ensures slots[i].textLen < GUARD_EMPTY_MIN_BYTES ==> s.conn.emit < i && !s.conn.slots[i].done
  {
    hide Callback;
    assert SlotOk(s, i);
    if Rejects(s.conn, i, pcm) {
      TwoUnderWay(s, i);
    } else {
      AbsorbShape(s.conn, i, pcm);
    }
  }

  lemma AudioArmed(slots: seq<Slot>, s: Sys, i: nat, pcm: seq<int>, final: bool)
    requires Tame(slots, s) && Enabled(s, Audio(i, pcm, final))
    ensures ArmedOk(slots, Step(AsWritten, s, Audio(i, pcm, final)))
  {
    hide Callback;
    var t := Step(AsWritten, s, Audio(i, pcm, final));
    assert SlotOk(s, i);
    CallbackSlot(s.conn, i, pcm, final, i);
    if Regenerates(s.conn, i, pcm, final) {
      Arms(slots, s, i, pcm, final);
    }
    forall j: nat | j < |t.conn.slots| && t.conn.slots[j].retry
      ensures Regenerable(slots, t.conn.parallel, j)
    {
      CallbackSlot(s.conn, i, pcm, final, j);
    }
  }

  lemma AudioPair(slots: seq<Slot>, s: Sys, i: nat, pcm: seq<int>, final: bool)
    requires Tame(slots, s) && Enabled(s, Audio(i, pcm, final))
    ensures Pair(Step(AsWritten, s, Audio(i, pcm, final)))
  {
    hide Callback;
    var t := Step(AsWritten, s, Audio(i, pcm, final));
    EmitMoves(s, i, pcm, final);
    CallbackSlot(s.conn, i, pcm, final, i);
    if s.conn.parallel == 2 {
      forall j: nat | t.conn.emit < j < |t.conn.slots| && j + 1 < t.conn.next
        ensures t.conn.slots[j].done
      {
        CallbackSlot(s.conn, i, pcm, final, j);
      }
      forall j: nat | j < |t.conn.slots| && t.conn.slots[j].retry
        ensures t.conn.slots[j].textLen >= GUARD_EMPTY_MIN_BYTES || j + 1 == t.conn.next
      {
        CallbackSlot(s.conn, i, pcm, final, j);
        CallbackDone(s.conn, i, pcm, final, j);
        if j == i && Regenerates(s.conn, i, pcm, final) {
          assert SlotOk(s, i);
          Arms(slots, s, i, pcm, final);
        }
      }
    }
  }

  lemma AudioTame(slots: seq<Slot>, s: Sys, i: nat, pcm: seq<int>, final: bool)
    requires Tame(slots, s) && Enabled(s, Audio(i, pcm, final))
    ensures Tame(slots, Step(AsWritten, s, Audio(i, pcm, final)))
  {
    hide Callback, Same, ArmedOk, Pair, Single, Core;
    AudioKeeps(s, i, pcm, final);
    AudioSame(slots, s, i, pcm, final);
    AudioArmed(slots, s, i, pcm, final);
    AudioPair(slots, s, i, pcm, final);
    SerialAudio(s, Audio(i, pcm, final));
  }

  /** The wire never goes back. */
  lemma EmitMoves(s: Sys, i: nat, pcm: seq<int>, final: bool)
    requires Inv(s) && Enabled(s, Audio(i, pcm, final))
    ensures s.conn.emit <= Step(AsWritten, s, Audio(i, pcm, final)).conn.emit
  {
    hide Callback;
    AudioKeeps(s, i, pcm, final);
    var t := Step(AsWritten, s, Audio(i, pcm, final));
    if t.conn.emit < s.conn.emit {
      CallbackDone(s.conn, i, pcm, final, t.conn.emit);
    }
  }

  lemma SerialAudio(s: Sys, e: Event)
    requires Inv(s) && Single(s) && e.Audio? && Enabled(s, e)
    ensures Single(Step(AsWritten, s, e))
  {
    StepParallel(AsWritten, s, e);
    if s.conn.parallel == 1 {
      SerialKeeps(s, e);
    }
  }

  /** A new chunk starts only when no other two are under way. */
  lemma SubmitPair(slots: seq<Slot>, s: Sys, i: nat, a: Answer)
    requires Tame(slots, s) && Enabled(s, Submitted(i, a)) && Benign(s, Submitted(i, a))
    ensures Pair(Step(AsWritten, s, Submitted(i, a)))
  {
    var t := Step(AsWritten, s, Submitted(i, a));
    if s.conn.parallel == 2 && !s.conn.slots[i].retry && a == OK {
      forall j: nat | t.conn.emit < j < |t.conn.slots| && j + 1 < t.conn.next
        ensures t.conn.slots[j].done
      {
        if j + 1 == s.conn.next && !s.conn.slots[j].done {
          assert SlotOk(s, j);
          TwoUnderWay(s, j);
        }
      }
    }
  }

  lemma SubmitTame(slots: seq<Slot>, s: Sys, i: nat, a: Answer)
    requires Tame(slots, s) && Enabled(s, Submitted(i, a)) && Benign(s, Submitted(i, a))
    ensures var t := Step(AsWritten, s, Submitted(i, a)); t.ended || Tame(slots, t)
  {
    BenignStep(s, Submitted(i, a));
    SubmitKeeps(s, i, a);
    SubmitPair(slots, s, i, a);
    if s.conn.parallel == 1 {
      SerialKeeps(s, Submitted(i, a));
    }
  }

  lemma InitTame(slots: seq<Slot>, parallel: nat, on: bool, buffered: bool, gapLen: nat)
    requires Fresh(slots) && parallel >= 1
    ensures Tame(slots, Init(slots, parallel, on, buffered, gapLen))
  {
    InitInv(slots, parallel, on, buffered, gapLen);
  }

  // ---- the first event that is not benign --------------------------------------------------------------

  /** Only a regenerable chunk can be refused, and only an overtaken one be resubmitted behind a later. */
  lemma BadEvent(slots: seq<Slot>, s: Sys, e: Event)
    requires Tame(slots, s) && Enabled(s, e) && !Benign(s, e)
    ensures Regenerable(slots, s.conn.parallel, e.i)
    ensures !RefusesRetry(s, e) ==> Overtaken(slots, s.conn.parallel, e.i)
  {
    var i := e.i;
    assert SlotOk(s, i);
  }

  lemma {:induction false} BadRun(slots: seq<Slot>, s: Sys, es: seq<Event>)
    requires Tame(slots, s) && Runs(AsWritten, s, es) && !BenignRun(s, es)
    ensures exists i: nat :: Regenerable(slots, s.conn.parallel, i)
    ensures NeverRefused(s, es) ==> exists i: nat :: Overtaken(slots, s.conn.parallel, i)
    decreases |es|
  {
    hide Tame;
    var e, t := es[0], Step(AsWritten, s, es[0]);
    if !Benign(s, e) {
      BadEvent(slots, s, e);
    } else {
      StepParallelOf(slots, s, e);
      if !t.ended {
        BadRun(slots, t, es[1..]);
      }
    }
  }

  lemma StepParallelOf(slots: seq<Slot>, s: Sys, e: Event)
    requires Tame(slots, s) && Enabled(s, e) && Benign(s, e)
    ensures var t := Step(AsWritten, s, e); t.conn.parallel == s.conn.parallel && (t.ended || Tame(slots, t))
  {
    hide Tame;
    TameSized(slots, s);
    StepParallel(AsWritten, s, e);
    match e
    case Submitted(i, a) => SubmitTame(slots, s, i, a);
    case Audio(i, pcm, final) => AudioTame(slots, s, i, pcm, final);
  }

  lemma TameSized(slots: seq<Slot>, s: Sys)
    requires Tame(slots, s)
    ensures Sized(s)
  {
  }

  // ---- runs that are gentle so far ---------------------------------------------------------------------

  /** Reached by a benign run in which no regeneration was refused. */
  ghost predicate Gently(o: Sys, s: Sys) {
    exists es :: GentleRun(o, s, es)
  }

  ghost predicate GentleRun(o: Sys, s: Sys, es: seq<Event>) {
    && Runs(AsWritten, o, es) && Replay(AsWritten, o, es) == s && BenignRun(o, es) && NeverRefused(o, es)
  }

  lemma {:induction false} ExtendGentle(s: Sys, es: seq<Event>, e: Event)
    requires Runs(AsWritten, s, es) && Runs(AsWritten, s, es + [e]) && Enabled(Replay(AsWritten, s, es), e)
    ensures BenignRun(s, es + [e]) <==> BenignRun(s, es) && Benign(Replay(AsWritten, s, es), e)
    ensures NeverRefused(s, es + [e]) <==> NeverRefused(s, es) && !RefusesRetry(Replay(AsWritten, s, es), e)
    decreases |es|
  {
    if es == [] {
      assert es + [e] == [e] && [e][1..] == [];
    } else {
      assert (es + [e])[1..] == es[1..] + [e];
      ExtendGentle(Step(AsWritten, s, es[0]), es[1..], e);
    }
  }

  lemma GentleHop(o: Sys, s: Sys, e: Event)
    requires Gently(o, s) && Sized(s) && Enabled(s, e) && Benign(s, e) && !RefusesRetry(s, e)
    requires Sized(Step(AsWritten, s, e))
    ensures Gently(o, Step(AsWritten, s, e))
  {
    var es :| GentleRun(o, s, es);
    Extend(AsWritten, o, es, e);
    ExtendGentle(o, es, e);
    assert GentleRun(o, Step(AsWritten, s, e), es + [e]);
  }

  /** The last event of a run is the first that is not benign. */
  lemma LastStraw(o: Sys, s: Sys, e: Event) returns (es: seq<Event>)
    requires Gently(o, s) && Sized(s) && Enabled(s, e) && !Benign(s, e) && Sized(Step(AsWritten, s, e))
    ensures Runs(AsWritten, o, es) && !BenignRun(o, es) && (NeverRefused(o, es) <==> !RefusesRetry(s, e))
  {
    var es' :| GentleRun(o, s, es');
    Extend(AsWritten, o, es', e);
    ExtendGentle(o, es', e);
    es := es' + [e];
  }

  // ---- one chunk after another -------------------------------------------------------------------------

  /** Chunk i alone is under way, has the wire and has produced nothing; the chunks before it are done. */
  ghost predicate Lone(slots: seq<Slot>, o: Sys, s: Sys, i: nat) {
    && Gently(o, s) && Inv(s) && !s.ended && !s.conn.finished && s.conn.parallel == o.conn.parallel
    && i < |slots| && s.conn.emit == i && s.conn.next == i + 1 && s.live[i] == 1 && s.acc[i] == []
    && (i > 0 ==> s.acc[0] != []) && Ahead(slots, s, i)
  }

  /** From chunk i on, the chunks are those of the request, untouched but for being submitted. */
  ghost predicate Ahead(slots: seq<Slot>, s: Sys, i: nat) {
    && |s.conn.slots| == |slots|
    && forall j: nat :: i <= j < |slots| ==>
         && s.conn.slots[j].textLen == slots[j].textLen && s.conn.slots[j].cap == slots[j].cap
         && s.conn.slots[j].retries == slots[j].retries
  }

  lemma AheadStays(slots: seq<Slot>, s: Sys, i: nat, e: Event)
    requires Inv(s) && Enabled(s, e) && Ahead(slots, s, i) && e.Audio?
    requires !Regenerates(s.conn, e.i, e.pcm, e.final)
    ensures Ahead(slots, Step(AsWritten, s, e), i)
  {
    hide Callback;
    forall j: nat | i <= j < |slots|
      ensures var sl := Step(AsWritten, s, e).conn.slots;
              |sl| == |slots| && sl[j].textLen == slots[j].textLen && sl[j].cap == slots[j].cap
              && sl[j].retries == slots[j].retries
    {
      CallbackSlot(s.conn, e.i, e.pcm, e.final, j);
      CallbackDone(s.conn, e.i, e.pcm, e.final, j);
    }
    CallbackSlot(s.conn, e.i, e.pcm, e.final, e.i);
  }

  /** Nothing else is under way. */
  lemma LoneQuiet(slots: seq<Slot>, o: Sys, s: Sys, i: nat)
    requires Lone(slots, o, s, i)
    ensures !AnyRetry(s.conn) && !s.conn.slots[i].done && s.conn.slots[i].samples == 0 && Fits(s.conn, i)
    ensures forall j: nat :: j < |s.live| ==> s.live[j] == if j == i then 1 else 0
  {
    hide Gently;
    forall j: nat | j < |s.live|
      ensures s.live[j] == (if j == i then 1 else 0) && !s.conn.slots[j].retry
    {
      assert SlotOk(s, j);
    }
    assert SlotOk(s, i);
  }

  lemma AheadLater(slots: seq<Slot>, s: Sys, i: nat)
    requires Ahead(slots, s, i)
    ensures Ahead(slots, s, i + 1)
  {
  }

  lemma LoneIs(slots: seq<Slot>, o: Sys, s: Sys, i: nat)
    requires Lone(slots, o, s, i)
    ensures Gently(o, s) && Inv(s) && !s.ended && !s.conn.finished && s.conn.parallel == o.conn.parallel
    ensures i < |slots| == |s.conn.slots| == |s.live| && s.conn.emit == i && s.conn.next == i + 1 && s.live[i] == 1
    ensures |s.acc| == |slots| && s.acc[i] == [] && Ahead(slots, s, i) && !AnyRetry(s.conn)
    ensures s.conn.inFlight == 1 && (i > 0 ==> s.conn.firstAudio)
  {
    hide Gently;
    LoneQuiet(slots, o, s, i);
    OneLive(s.live, i);
    InvSized(s);
  }

  /** It is heard. */
  lemma Heard(slots: seq<Slot>, o: Sys, s: Sys, i: nat) returns (t: Sys)
    requires Lone(slots, o, s, i)
    ensures Gently(o, t) && Inv(t) && !t.ended && !t.conn.finished
    ensures t.conn.parallel == o.conn.parallel && t.conn.emit == i && t.conn.next == i + 1 && t.live == s.live
    ensures Ahead(slots, t, i) && t.conn.firstAudio && !AnyRetry(t.conn) && !t.conn.slots[i].done
    ensures t.conn.inFlight == 1 && |t.acc| > 0 && t.acc[0] != []
  {
    hide Settle, Gently, Core;
    var e := Audio(i, [0], false);
    LoneQuiet(slots, o, s, i);
    InvSized(s);
    t := Step(AsWritten, s, e);
    AudioKeeps(s, i, [0], false);
    InvSized(t);
    GentleHop(o, s, e);
    AheadStays(slots, s, i, e);
    assert t.acc[i] == [] + [0];
    OneLive(t.live, i);
  }

  lemma InvSized(s: Sys)
    requires Inv(s)
    ensures Sized(s) && s.conn.inFlight == Total(s.live, Ident) && |s.conn.slots| > 0 && s.conn.parallel >= 1
    ensures s.conn.firstAudio <==> s.acc[0] != []
  {
  }

  lemma {:induction false} OneLive(live: seq<nat>, i: nat)
    requires i < |live| && forall j: nat :: j < |live| ==> live[j] == if j == i then 1 else 0
    ensures Total(live, Ident) == 1
  {
    TotalZero(live[i := 0], Ident);
    TotalUpdate(live, Ident, i, 0);
  }

  /** It ends after one sample, and the wire stands at the next chunk, which nobody has started. */
  lemma OneSample(slots: seq<Slot>, o: Sys, s: Sys, i: nat) returns (u: Sys)
    requires Lone(slots, o, s, i) && i + 1 < |slots|
    ensures Gently(o, u) && Inv(u) && !u.ended && !u.conn.finished && u.conn.parallel == o.conn.parallel
    ensures u.conn.emit == u.conn.next == i + 1 && u.acc[i + 1] == [] && u.acc[0] != [] && Ahead(slots, u, i)
    ensures forall j: nat :: j < |u.live| ==> u.live[j] == 0
    ensures !AnyRetry(u.conn)
  {
    hide Callback, Gently;
    var e := Audio(i, [0], true);
    LoneQuiet(slots, o, s, i);
    assert !Regenerates(s.conn, i, [0], true) && !Overran(s.conn, i, [0]) by {
      AbsorbShape(s.conn, i, [0]);
    }
    u := Step(AsWritten, s, e);
    AudioKeeps(s, i, [0], true);
    GentleHop(o, s, e);
    AheadStays(slots, s, i, e);
    assert u.acc[i] == [] + [0];
    assert SlotOk(s, i + 1);
    forall j: nat | j < |slots|
      ensures u.conn.slots[j].done == (s.conn.slots[j].done || j == i)
      ensures !u.conn.slots[j].retry && u.conn.next == s.conn.next && u.conn.parallel == s.conn.parallel
    {
      CallbackDone(s.conn, i, [0], true, j);
      CallbackSlot(s.conn, i, [0], true, j);
    }
    assert !u.conn.slots[i + 1].done;
    assert u.conn.slots[i].done;
  }

  lemma StartNext(slots: seq<Slot>, o: Sys, u: Sys, k: nat) returns (t: Sys)
    requires Gently(o, u) && Inv(u) && !u.ended && !u.conn.finished && u.conn.parallel == o.conn.parallel
    requires k < |slots| && u.conn.emit == u.conn.next == k && u.acc[k] == [] && Ahead(slots, u, k)
    requires k > 0 ==> u.acc[0] != []
    requires !AnyRetry(u.conn) && forall j: nat :: j < |u.live| ==> u.live[j] == 0
    ensures Lone(slots, o, t, k)
  {
    hide Gently;
    var e := Submitted(k, OK);
    TotalZero(u.live, Ident);
    BenignStep(u, e);
    SubmitKeeps(u, k, OK);
    GentleHop(o, u, e);
    t := Step(AsWritten, u, e);
  }

  lemma {:induction false} LoneReached(slots: seq<Slot>, parallel: nat, on: bool, buffered: bool, gapLen: nat, i: nat)
    returns (s: Sys)
    requires Fresh(slots) && parallel >= 1 && i < |slots|
    ensures Lone(slots, Init(slots, parallel, on, buffered, gapLen), s, i)
    decreases i
  {
    hide Lone;
    var o := Init(slots, parallel, on, buffered, gapLen);
    if i == 0 {
      InitInv(slots, parallel, on, buffered, gapLen);
      assert GentleRun(o, o, []);
      s := StartNext(slots, o, o, 0);
    } else {
      var r := LoneReached(slots, parallel, on, buffered, gapLen, i - 1);
      var u := OneSample(slots, o, r, i - 1);
      s := StartNext(slots, o, u, i);
    }
  }

  // ---- a refused regeneration --------------------------------------------------------------------------

  /** A chunk comes back empty while it has the wire, and is armed. */
  lemma EmptyArms(slots: seq<Slot>, o: Sys, s: Sys, i: nat) returns (u: Sys)
    requires Gently(o, s) && Inv(s) && !s.ended && !s.conn.finished && s.conn.parallel == o.conn.parallel
    requires i < |slots| && s.conn.emit == i < s.conn.next && s.live[i] == 1 && s.acc[i] == [] && Ahead(slots, s, i)
    requires slots[i].retries > 0 && slots[i].textLen >= GUARD_EMPTY_MIN_BYTES
    ensures Gently(o, u) && Inv(u) && !u.ended && !u.conn.finished && u.conn.next == s.conn.next
    ensures |u.conn.slots| == |slots| && u.conn.slots[i].retry
  {
    hide Gently;
    var e := Audio(i, [], true);
    assert SlotOk(s, i);
    u := Step(AsWritten, s, e);
    assert u.conn == Regenerate(s.conn, i);
    AudioKeeps(s, i, [], true);
    GentleHop(o, s, e);
  }

  /** A chunk behind the wire overruns its cap, and is armed. */
  lemma OverrunArms(slots: seq<Slot>, o: Sys, s: Sys, i: nat) returns (u: Sys)
    requires Gently(o, s) && Inv(s) && !s.ended && !s.conn.finished && s.conn.parallel == o.conn.parallel
    requires s.conn.emit < i < |slots| && i < s.conn.next && s.live[i] == 1 && Ahead(slots, s, i)
    requires slots[i].retries > 0 && slots[i].cap > 0
    ensures Gently(o, u) && Inv(u) && !u.ended && !u.conn.finished && u.conn.next == s.conn.next
    ensures |u.conn.slots| == |slots| && u.conn.slots[i].retry
  {
    hide Gently;
    var pcm := seq(slots[i].cap + 1, _ => 0);
    var e := Audio(i, pcm, false);
    assert SlotOk(s, i);
    u := Step(AsWritten, s, e);
    assert u.conn == Regenerate(s.conn, i);
    AudioKeeps(s, i, pcm, false);
    GentleHop(o, s, e);
  }

  /** A further chunk is started beside those under way. */
  lemma Beside(slots: seq<Slot>, o: Sys, s: Sys, k: nat) returns (t: Sys)
    requires Gently(o, s) && Inv(s) && !s.ended && !s.conn.finished && s.conn.parallel == o.conn.parallel
    requires k == s.conn.next < |slots| == |s.conn.slots| && s.conn.inFlight < s.conn.parallel
    requires !AnyRetry(s.conn) && s.conn.firstAudio
    ensures Gently(o, t) && Inv(t) && !t.ended && !t.conn.finished && t.conn.parallel == o.conn.parallel
    ensures |t.conn.slots| == |slots| && t.conn.next == k + 1 && t.conn.emit == s.conn.emit && t.live == s.live[k := 1]
    ensures t.acc == s.acc
    ensures t.conn.inFlight == s.conn.inFlight + 1 && !AnyRetry(t.conn) && t.conn.firstAudio
    ensures forall j: nat :: Ahead(slots, s, j) ==> Ahead(slots, t, j)
  {
    hide Gently;
    var e := Submitted(k, OK);
    assert SlotOk(s, k);
    BenignStep(s, e);
    SubmitKeeps(s, k, OK);
    GentleHop(o, s, e);
    t := Step(AsWritten, s, e);
  }

  // ---- which requests have such runs -------------------------------------------------------------------

  /** Some run of the code from here is not benign. */
  ghost predicate BadFrom(s: Sys) {
    exists es :: Runs(AsWritten, s, es) && !BenignRun(s, es)
  }

  /** Some run in which every regeneration is accepted is not: one is submitted behind a later chunk. */
  ghost predicate OvertakesFrom(s: Sys) {
    exists es :: Runs(AsWritten, s, es) && NeverRefused(s, es) && !BenignRun(s, es)
  }

  /** The resubmission of chunk i fails the chain when it is refused, and when a later chunk is out. */
  lemma Resubmit(slots: seq<Slot>, o: Sys, u: Sys, i: nat, a: Answer)
    requires Gently(o, u) && Inv(u) && !u.ended && !u.conn.finished
    requires i < |slots| == |u.conn.slots| && u.conn.slots[i].retry
    requires a == FULL || (a == OK && i + 1 < u.conn.next)
    ensures BadFrom(o) && (a == OK ==> OvertakesFrom(o))
  {
    hide Gently, Inv, BenignRun, NeverRefused, Runs;
    InvSized(u);
    var es := LastStraw(o, u, Submitted(i, a));
  }

  /** Chunk i is armed as the newest chunk, or with the next beside it. */
  lemma ArmedReached(slots: seq<Slot>, parallel: nat, on: bool, buffered: bool, gapLen: nat, i: nat, more: bool)
    returns (u: Sys)
    requires Fresh(slots) && parallel >= 1
    requires if more then Overtaken(slots, parallel, i) else Regenerable(slots, parallel, i)
    ensures Gently(Init(slots, parallel, on, buffered, gapLen), u) && Inv(u) && !u.ended && !u.conn.finished
    ensures i < |slots| == |u.conn.slots| && u.conn.slots[i].retry && u.conn.next == if more then i + 2 else i + 1
  {
    hide Gently, Lone, Ahead, Core;
    var o := Init(slots, parallel, on, buffered, gapLen);
    if slots[i].textLen >= GUARD_EMPTY_MIN_BYTES {
      u := LoneReached(slots, parallel, on, buffered, gapLen, i);
      LoneIs(slots, o, u, i);
      if more {
        u := Beside(slots, o, u, i + 1);
      }
      u := EmptyArms(slots, o, u, i);
    } else {
      u := LoneReached(slots, parallel, on, buffered, gapLen, i - 1);
      LoneIs(slots, o, u, i - 1);
      u := Heard(slots, o, u, i - 1);
      AheadLater(slots, u, i - 1);
      u := Beside(slots, o, u, i);
      if more {
        u := Beside(slots, o, u, i + 1);
      }
      u := OverrunArms(slots, o, u, i);
    }
  }

  /** A request has a run that is not benign if and only if one of its chunks can be regenerated. */
  lemma RefusalPossible(slots: seq<Slot>, parallel: nat, on: bool, buffered: bool, gapLen: nat)
    requires Fresh(slots) && parallel >= 1
    ensures BadFrom(Init(slots, parallel, on, buffered, gapLen)) <==>
            exists i: nat :: Regenerable(slots, parallel, i)
  {
    hide Inv, Tame, Regenerable;
    var o := Init(slots, parallel, on, buffered, gapLen);
    if BadFrom(o) {
      var es :| Runs(AsWritten, o, es) && !BenignRun(o, es);
      InitTame(slots, parallel, on, buffered, gapLen);
      BadRun(slots, o, es);
    }
    if i: nat :| Regenerable(slots, parallel, i) {
      var u := ArmedReached(slots, parallel, on, buffered, gapLen, i, false);
      Resubmit(slots, o, u, i, FULL);
    }
  }

  /** It has one in which no regeneration is refused if and only if one of its chunks can be regenerated
      after a later one was submitted. */
  lemma OvertakingPossible(slots: seq<Slot>, parallel: nat, on: bool, buffered: bool, gapLen: nat)
    requires Fresh(slots) && parallel >= 1
    ensures OvertakesFrom(Init(slots, parallel, on, buffered, gapLen)) <==>
            exists i: nat :: Overtaken(slots, parallel, i)
  {
    hide Inv, Tame, Overtaken;
    var o := Init(slots, parallel, on, buffered, gapLen);
    if OvertakesFrom(o) {
      var es :| Runs(AsWritten, o, es) && NeverRefused(o, es) && !BenignRun(o, es);
      InitTame(slots, parallel, on, buffered, gapLen);
      BadRun(slots, o, es);
    }
    if i: nat :| Overtaken(slots, parallel, i) {
      var u := ArmedReached(slots, parallel, on, buffered, gapLen, i, true);
      Resubmit(slots, o, u, i, OK);
    }
  }
}
