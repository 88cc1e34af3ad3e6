/** Runs of the code's own submission step: where they are runs of the step as meant, when that
    can be told before starting, and concrete runs where they are not. */
module ChainWritten {
  import opened Chain
  import opened ChainRuns
  import Gap

  // ---- benign runs -----------------------------------------------------------------------

  /** A benign run of the code is a run of the step as meant, with the same end. */
  lemma {:induction false} BenignIsMeant(s: Sys, es: seq<Event>)
    requires Runs(AsWritten, s, es) && BenignRun(s, es)
    ensures Runs(AsMeant, s, es) && Replay(AsMeant, s, es) == Replay(AsWritten, s, es)
    decreases |es|
  {
    if es != [] {
      BenignStep(s, es[0]);
      BenignIsMeant(Step(AsWritten, s, es[0]), es[1..]);
    }
  }

  /** A guarded request, as the code runs it benignly: bounded progress, at most 1 + GUARD_RETRIES
      sessions for every chunk, and a run that cannot go on is complete, refused or stalled. */
  lemma BenignRequestEnds(texts: seq<nat>, parallel: nat, on: bool, buffered: bool, gapLen: nat, es: seq<Event>)
    requires |texts| > 0 && parallel >= 1
    requires var s := Init(RequestSlots(texts, true), parallel, on, buffered, gapLen);
             Runs(AsWritten, s, es) && BenignRun(s, es)
    ensures var s := Init(RequestSlots(texts, true), parallel, on, buffered, gapLen);
            var t := Replay(AsWritten, s, es);
            && Count(es) <= Cost(s.conn)
            && (forall i: nat :: i < |texts| ==> Starts(es, i) <= 1 + GUARD_RETRIES)
            && ((forall e :: !Enabled(t, e)) ==>
                  || t.ended
                  || (|t.acc| > 0 && t.conn.finished && t.conn.gap.out == JoinOf(t))
                  || (parallel > 1 && Inv(t) && Stalled(t)))
  {
    var slots := RequestSlots(texts, true);
    BenignIsMeant(Init(slots, parallel, on, buffered, gapLen), es);
    RequestEnds(texts, parallel, on, buffered, gapLen, es);
    forall i: nat | i < |texts| ensures Starts(es, i) <= 1 + GUARD_RETRIES {
      AttemptsBounded(slots, parallel, on, buffered, gapLen, es, i);
    }
  }

  // ---- one chunk at a time ------------------------------------------------------------------

  /** With no parallelism only the newest chunk can be unfinished. */
  ghost predicate Serial(s: Sys) {
    s.conn.parallel == 1 && forall j: nat :: j + 1 < s.conn.next && j < |s.conn.slots| ==> s.conn.slots[j].done
  }

  predicate RefusesRetry(s: Sys, e: Event)
    requires e.Submitted? ==> e.i < |s.conn.slots|
  {
    e.Submitted? && s.conn.slots[e.i].retry && e.answer != OK
  }

  lemma SerialIsBenign(s: Sys, e: Event)
    requires Inv(s) && Serial(s) && Enabled(s, e) && !RefusesRetry(s, e)
    ensures Benign(s, e)
  {
    if e.Submitted? {
      assert SlotOk(s, e.i);
    }
  }

  lemma SerialKeeps(s: Sys, e: Event)
    requires Inv(s) && Serial(s) && Enabled(s, e) && Benign(s, e)
    ensures Serial(Step(AsWritten, s, e))
  {
    hide Callback;
    var t := Step(AsWritten, s, e);
    StepParallel(AsWritten, s, e);
    TotalZero(s.live, Ident);
    forall j: nat | j + 1 < t.conn.next && j < |t.conn.slots| ensures t.conn.slots[j].done {
      assert SlotOk(s, j);
      if e.Audio? {
        CallbackSlot(s.conn, e.i, e.pcm, e.final, j);
      }
    }
  }

  ghost predicate NeverRefused(s: Sys, es: seq<Event>)
    requires Runs(AsWritten, s, es)
    decreases |es|
  {
    es == [] || (!RefusesRetry(s, es[0]) && NeverRefused(Step(AsWritten, s, es[0]), es[1..]))
  }

  lemma {:induction false} SerialRun(s: Sys, es: seq<Event>)
    requires Inv(s) && Serial(s) && Runs(AsWritten, s, es) && NeverRefused(s, es)
    ensures BenignRun(s, es)
    decreases |es|
  {
    if es != [] {
      var e, t := es[0], Step(AsWritten, s, es[0]);
      SerialIsBenign(s, e);
      BenignStep(s, e);
      StepKeeps(s, e);
      if t.ended {
        EndedStops(AsWritten, t, es[1..]);
      } else {
        SerialKeeps(s, e);
        SerialRun(t, es[1..]);
      }
    }
  }

  /** What a caller can tell before starting: one chunk at a time, every run of the code without a
      refused regeneration is benign. */
  lemma SerialRunsAreBenign(slots: seq<Slot>, on: bool, buffered: bool, gapLen: nat, es: seq<Event>)
    requires Fresh(slots)
    requires var s := Init(slots, 1, on, buffered, gapLen); Runs(AsWritten, s, es) && NeverRefused(s, es)
    ensures BenignRun(Init(slots, 1, on, buffered, gapLen), es)
  {
    InitInv(slots, 1, on, buffered, gapLen);
    SerialRun(Init(slots, 1, on, buffered, gapLen), es);
  }

  // ---- what the code can reach ---------------------------------------------------------------

  ghost predicate Reaches(mode: Mode, s: Sys, t: Sys) {
    exists es :: Runs(mode, s, es) && Replay(mode, s, es) == t
  }

  lemma Hop(mode: Mode, s: Sys, t: Sys, e: Event)
    requires Reaches(mode, s, t) && Sized(t) && Enabled(t, e) && Sized(Step(mode, t, e))
    ensures Reaches(mode, s, Step(mode, t, e))
  {
    var es :| Runs(mode, s, es) && Replay(mode, s, es) == t;
    Extend(mode, s, es, e);
  }

  /** A chunk of 20 bytes with an 8 s cap. */
  function Chunk(attempt: nat, retries: nat, samples: nat, retry: bool): Slot {
    Slot(20, 352800, false, [], samples, retries, attempt, retry, attempt > 0)
  }

  function Start3(): Sys {
    Init([Chunk(0, GUARD_RETRIES, 0, false), Chunk(0, GUARD_RETRIES, 0, false), Chunk(0, GUARD_RETRIES, 0, false)],
         4, false, false, 0)
  }

  /** Chunk 0 heard, the other two just submitted. */
  function AllFlying(): Sys {
    Sys(Conn([Chunk(1, 2, 1, false), Chunk(1, 2, 0, false), Chunk(1, 2, 0, false)], 4, 3, 0, 3, true, false,
             Gap.State(false, false, [], false, 0, [1000]), 0),
        [1, 1, 1], [[1000], [], []], false)
  }

  /** Only chunk 0 submitted, before and after its first audio. */
  function Silent1(): Sys {
    Sys(Conn([Chunk(1, 2, 0, false), Chunk(0, 2, 0, false), Chunk(0, 2, 0, false)], 4, 1, 0, 1, false, false,
             Gap.State(false, false, [], false, 0, []), 0),
        [1, 0, 0], [[], [], []], false)
  }

  function OneFlying(): Sys {
    Sys(Conn([Chunk(1, 2, 1, false), Chunk(0, 2, 0, false), Chunk(0, 2, 0, false)], 4, 1, 0, 1, true, false,
             Gap.State(false, false, [], false, 0, [1000]), 0),
        [1, 0, 0], [[1000], [], []], false)
  }

  lemma Silent1Reached()
    ensures Reaches(AsWritten, Start3(), Silent1())
  {
    var s := Start3();
    assert Runs(AsWritten, s, []) && Replay(AsWritten, s, []) == s;
    Hop(AsWritten, s, s, Submitted(0, OK));
    assert Step(AsWritten, s, Submitted(0, OK)) == Silent1();
  }

  lemma OneFlyingReached()
    ensures Reaches(AsWritten, Start3(), OneFlying())
  {
    hide Reaches, Runs, Replay;
    var t := Silent1();
    Silent1Reached();
    Gap.FeedThrough(t.conn.gap, [1000]);
    assert [] + [1000] == [1000];
    Hop(AsWritten, Start3(), t, Audio(0, [1000], false));
    assert Step(AsWritten, t, Audio(0, [1000], false)) == OneFlying();
  }

  lemma FlyingReached()
    ensures Reaches(AsWritten, Start3(), AllFlying())
  {
    hide Reaches, Runs, Replay;
    var s, u := Start3(), OneFlying();
    OneFlyingReached();
    Hop(AsWritten, s, u, Submitted(1, OK));
    var v := Step(AsWritten, u, Submitted(1, OK));
    Hop(AsWritten, s, v, Submitted(2, OK));
    assert Step(AsWritten, v, Submitted(2, OK)) == AllFlying();
  }

  /** Chunk 1 came back empty and is armed again. */
  function Rearmed(): Sys {
    Sys(Conn([Chunk(1, 2, 1, false), Chunk(1, 1, 0, true), Chunk(1, 2, 0, false)], 4, 3, 0, 2, true, false,
             Gap.State(false, false, [], false, 0, [1000]), 0),
        [1, 0, 1], [[1000], [], []], false)
  }

  lemma RearmedReached()
    ensures Reaches(AsWritten, Start3(), Rearmed())
  {
    hide Reaches, Runs, Replay;
    FlyingReached();
    Hop(AsWritten, Start3(), AllFlying(), Audio(1, [], true));
    assert Step(AsWritten, AllFlying(), Audio(1, [], true)) == Rearmed();
  }

  /** Chunk 2 with two sessions, everything running. */
  function TwoSessions(): Sys {
    Sys(Conn([Chunk(1, 2, 1, false), Chunk(2, 1, 0, false), Chunk(2, 2, 0, false)], 4, 3, 0, 4, true, false,
             Gap.State(false, false, [], false, 0, [1000]), 0),
        [1, 1, 2], [[1000], [], []], false)
  }

  lemma TwoSessionsReached()
    ensures Reaches(AsWritten, Start3(), TwoSessions())
  {
    hide Reaches, Runs, Replay;
    var s, u := Start3(), Rearmed();
    RearmedReached();
    Hop(AsWritten, s, u, Submitted(1, OK));
    var v := Step(AsWritten, u, Submitted(1, OK));
    assert v.live == [1, 1, 1] && v.conn.inFlight == 3 && v.conn.next == 2 && !AnyRetry(v.conn);
    Hop(AsWritten, s, v, Submitted(2, OK));
    assert Step(AsWritten, v, Submitted(2, OK)) == TwoSessions();
  }

  /** As written, regenerating chunk 1 while chunk 2 runs moves the frontier back: the code then
      starts a second session for chunk 2, and both append to one take. */
  lemma FrontierMovesBack()
    ensures exists t :: Reaches(AsWritten, Start3(), t) && |t.live| == 3 && t.live[2] == 2
  {
    TwoSessionsReached();
  }

  /** Chunk i is on the wire, ends with the one sample x, and hands over to a chunk not done. */
  lemma EndsWith(o: Sys, s: Sys, i: nat, x: int) returns (t: Sys)
    requires Reaches(AsWritten, o, s) && Sized(s) && Enabled(s, Audio(i, [x], true)) && !s.conn.finished
    requires i == s.conn.emit && !Overran(s.conn, i, [x]) && !s.conn.gap.on && !s.conn.gap.lead
    requires i + 1 < |s.conn.slots| ==> !s.conn.slots[i + 1].done && s.conn.slots[i + 1].pend == []
    ensures t == Step(AsWritten, s, Audio(i, [x], true))
    ensures Reaches(AsWritten, o, t) && Sized(t) && !t.ended && t.live == s.live[i := s.live[i] - 1]
    ensures |t.conn.slots| == |s.conn.slots| && Fits(t.conn, i) && !t.conn.gap.on && !t.conn.gap.lead
    ensures if i + 1 < |s.conn.slots| then t.conn.emit == i + 1 && !t.conn.finished else t.conn.finished
    ensures forall j: nat :: i < j < |s.conn.slots| ==> t.conn.slots[j] == s.conn.slots[j]
  {
    hide Reaches, Regenerates, Submit;
    var e := Audio(i, [x], true);
    Hop(AsWritten, o, s, e);
    t := Step(AsWritten, s, e);
    Gap.FeedThrough(s.conn.gap, [x]);
    var d := Absorb(s.conn, i, [x]);
    assert t.conn == Complete(d, i);
    var c := Put(d, i, d.slots[i].(done := true)).(inFlight := d.inFlight - 1);
    AdvanceSlot(c, i);
    assert i + 1 < |c.slots| ==> Advance(c) == HandOver(c);
  }

  /** As written, the response can finish while a session of a chunk is still alive: its next
      callback meets a connection that the poll loop may already have reset. */
  lemma FinishesTooSoon()
    ensures exists t :: Reaches(AsWritten, Start3(), t) && Sized(t) && t.conn.finished && |t.live| == 3
                        && t.live[2] == 1 && Enabled(t, Audio(2, [], true))
  {
    hide Reaches, Advance, Complete, Absorb;
    var s := TwoSessions();
    TwoSessionsReached();
    var a := EndsWith(Start3(), s, 0, 7);
    var b := EndsWith(Start3(), a, 1, 7);
    var c := EndsWith(Start3(), b, 2, 7);
    assert c.live == [0, 0, 1];
  }

  /** As written, a refused regeneration is forgotten: chunk 1 is left without a session. */
  lemma RefusalForgotten()
    ensures exists t :: Reaches(AsWritten, Start3(), t) && Sized(t) && |t.live| == 3 && t.live[1] == 0
                        && !t.conn.slots[1].retry && !t.conn.slots[1].done && t.conn.next == 3
  {
    hide Reaches, Runs, Replay;
    RearmedReached();
    Hop(AsWritten, Start3(), Rearmed(), Submitted(1, FULL));
  }

  // ---- the stall --------------------------------------------------------------------------------

  /** Chunk 0 alone has been submitted, and has produced nothing. */
  ghost predicate OnlyFirst(s: Sys) {
    && Inv(s) && !s.ended && !s.conn.finished && s.conn.parallel > 1 && |s.conn.slots| > 1
    && s.conn.next == 1 && s.conn.emit == 0 && s.live[0] == 1 && s.acc[0] == []
  }

  ghost predicate StallFrom(o: Sys) {
    exists t :: Reaches(AsWritten, o, t) && Inv(t) && !t.ended && !t.conn.finished && Stalled(t)
  }

  /** An empty final for chunk 0 while regenerations are left: it is submitted again. */
  lemma SilentAgain(o: Sys, s: Sys) returns (t: Sys)
    requires Reaches(AsWritten, o, s) && OnlyFirst(s) && Empty(s.conn, 0, true)
    ensures Reaches(AsWritten, o, t) && OnlyFirst(t) && t.conn.slots[0].retries < s.conn.slots[0].retries
  {
    hide Reaches;
    var e := Audio(0, [], true);
    assert SlotOk(s, 0);
    Hop(AsWritten, o, s, e);
    AudioKeeps(s, 0, [], true);
    var u := Step(AsWritten, s, e);
    assert u.conn == Regenerate(s.conn, 0);
    Hop(AsWritten, o, u, Submitted(0, OK));
    t := Step(AsWritten, u, Submitted(0, OK));
    SubmitKeeps(u, 0, OK);
    BenignStep(u, Submitted(0, OK));
  }

  /** An empty final for chunk 0 otherwise completes it. */
  lemma SilentForGood(o: Sys, s: Sys)
    requires Reaches(AsWritten, o, s) && OnlyFirst(s) && !Empty(s.conn, 0, true)
    ensures StallFrom(o)
  {
    hide Reaches, Empty, Gap.Feed, Gap.Flush;
    var e := Audio(0, [], true);
    assert SlotOk(s, 0) && SlotOk(s, 1);
    Hop(AsWritten, o, s, e);
    AudioKeeps(s, 0, [], true);
    var c := Put(s.conn, 0, s.conn.slots[0].(done := true)).(inFlight := s.conn.inFlight - 1);
    var u := Step(AsWritten, s, e);
    assert u.conn == Advance(c) == HandOver(c);
    assert s.acc[0] + [] == [];
  }

  lemma {:induction false} SilentRun(o: Sys, s: Sys)
    requires Reaches(AsWritten, o, s) && OnlyFirst(s)
    ensures StallFrom(o)
    decreases s.conn.slots[0].retries
  {
    if Empty(s.conn, 0, true) {
      var t := SilentAgain(o, s);
      SilentRun(o, t);
    } else {
      SilentForGood(o, s);
    }
  }

  /** A parallel chain can always stall: every take of chunk 0 may come back empty. */
  lemma StallReached(slots: seq<Slot>, parallel: nat, on: bool, buffered: bool, gapLen: nat)
    requires Fresh(slots) && |slots| > 1 && parallel > 1
    ensures StallFrom(Init(slots, parallel, on, buffered, gapLen))
  {
    var s, e := Init(slots, parallel, on, buffered, gapLen), Submitted(0, OK);
    InitInv(slots, parallel, on, buffered, gapLen);
    NothingYet(AsWritten, s);
    Hop(AsWritten, s, s, e);
    SubmitKeeps(s, 0, OK);
    BenignStep(s, e);
    SilentRun(s, Step(AsWritten, s, e));
  }

  /** Which requests can stall, told from their parameters: exactly the parallel ones. */
  lemma StallPossible(slots: seq<Slot>, parallel: nat, on: bool, buffered: bool, gapLen: nat)
    requires Fresh(slots) && parallel >= 1
    ensures StallFrom(Init(slots, parallel, on, buffered, gapLen)) <==> parallel > 1 && |slots| > 1
  {
    var s := Init(slots, parallel, on, buffered, gapLen);
    if parallel > 1 && |slots| > 1 {
      StallReached(slots, parallel, on, buffered, gapLen);
    } else if StallFrom(s) {
      var t :| Reaches(AsWritten, s, t) && Inv(t) && !t.ended && !t.conn.finished && Stalled(t);
      var es :| Runs(AsWritten, s, es) && Replay(AsWritten, s, es) == t;
      SameParallel(AsWritten, s, es);
    }
  }
}
