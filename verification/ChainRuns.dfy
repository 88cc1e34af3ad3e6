/** What the chunk chain's runs guarantee: safety of every run of the step as meant, when the
    step as written agrees with it, what a finished response holds, how long a run can be and
    exactly when it can get stuck. */
module ChainRuns {
  import opened Chain
  import Gap

  // ---- runs ---------------------------------------------------------------------------

  ghost predicate Runs(mode: Mode, s: Sys, es: seq<Event>)
    decreases |es|
  {
    Sized(s) && (es == [] || (Enabled(s, es[0]) && Runs(mode, Step(mode, s, es[0]), es[1..])))
  }

  ghost function Replay(mode: Mode, s: Sys, es: seq<Event>): (t: Sys)
    requires Runs(mode, s, es)
    ensures Sized(t)
    decreases |es|
  {
    if es == [] then s else Replay(mode, Step(mode, s, es[0]), es[1..])
  }

  lemma NothingYet(mode: Mode, s: Sys)
    requires Sized(s)
    ensures Runs(mode, s, []) && Replay(mode, s, []) == s
  {
  }

  lemma StepKeeps(s: Sys, e: Event)
    requires Inv(s) && Enabled(s, e)
    ensures var t := Step(AsMeant, s, e); t.ended || Inv(t)
  {
    match e
    case Submitted(i, a) => SubmitKeeps(s, i, a);
    case Audio(i, pcm, final) => AudioKeeps(s, i, pcm, final);
  }

  lemma EndedStops(mode: Mode, s: Sys, es: seq<Event>)
    requires s.ended && Runs(mode, s, es)
    ensures es == []
  {
  }

  /** Every interleaving of submissions and callbacks, every cut of the audio into blocks. */
  lemma {:induction false} RunKeeps(s: Sys, es: seq<Event>)
    requires Inv(s) && Runs(AsMeant, s, es)
    ensures var t := Replay(AsMeant, s, es); t.ended || Inv(t)
    decreases |es|
  {
    if es != [] {
      StepKeeps(s, es[0]);
      var t := Step(AsMeant, s, es[0]);
      if t.ended {
        EndedStops(AsMeant, t, es[1..]);
      } else {
        RunKeeps(t, es[1..]);
      }
    }
  }

  // ---- the step as written ---------------------------------------------------------------

  /** A regeneration keeps the chain sound exactly when it is accepted and is the newest chunk. */
  predicate Benign(s: Sys, e: Event)
    requires e.Submitted? ==> e.i < |s.conn.slots|
  {
    e.Submitted? && s.conn.slots[e.i].retry ==> e.answer == OK && e.i + 1 == s.conn.next
  }

  /** A refused regeneration leaves its chunk unaccounted for, one behind the newest chunk moves the
      frontier below a chunk already submitted. */
  lemma BadBreaks(s: Sys, i: nat, a: Answer)
    requires Inv(s) && Enabled(s, Submitted(i, a)) && !Benign(s, Submitted(i, a)) && a != ERR
    ensures !Inv(Step(AsWritten, s, Submitted(i, a)))
  {
    hide GapNow, Total;
    var t := Step(AsWritten, s, Submitted(i, a));
    assert SlotOk(s, i);
    if a == FULL {
      assert !SlotOk(t, i);
    } else {
      assert SlotOk(s, i + 1);
      assert !SlotOk(t, i + 1);
    }
  }

  lemma BenignStep(s: Sys, e: Event)
    requires Sized(s) && Enabled(s, e) && Benign(s, e)
    ensures Step(AsWritten, s, e) == Step(AsMeant, s, e)
  {
    hide Callback;
  }

  /** The code's own step meets the invariant exactly on benign events. */
  lemma AsWrittenExactly(s: Sys, e: Event)
    requires Inv(s) && Enabled(s, e) && !Step(AsWritten, s, e).ended
    ensures Inv(Step(AsWritten, s, e)) <==> Benign(s, e)
    ensures Step(AsWritten, s, e) == Step(AsMeant, s, e) <==> Benign(s, e)
  {
    hide Callback, Inv;
    SizedInv(s);
    StepKeeps(s, e);
    if Benign(s, e) {
      BenignStep(s, e);
    } else {
      BadBreaks(s, e.i, e.answer);
    }
  }

  lemma SizedInv(s: Sys)
    requires Inv(s)
    ensures Sized(s)
  {
  }

  ghost predicate BenignRun(s: Sys, es: seq<Event>)
    requires Runs(AsWritten, s, es)
    decreases |es|
  {
    es == [] || (Benign(s, es[0]) && BenignRun(Step(AsWritten, s, es[0]), es[1..]))
  }

  /** Runs of the code in which regenerations are of the newest chunk and never refused. */
  lemma {:induction false} AsWrittenRunKeeps(s: Sys, es: seq<Event>)
    requires Inv(s) && Runs(AsWritten, s, es) && BenignRun(s, es)
    ensures var t := Replay(AsWritten, s, es); t.ended || Inv(t)
    decreases |es|
  {
    if es != [] {
      var t := Step(AsWritten, s, es[0]);
      StepKeeps(s, es[0]);
      if t.ended {
        EndedStops(AsWritten, t, es[1..]);
      } else {
        AsWrittenExactly(s, es[0]);
        AsWrittenRunKeeps(t, es[1..]);
      }
    }
  }

  /** The invariant holds in every state of the run. */
  ghost predicate SoundRun(s: Sys, es: seq<Event>)
    requires Runs(AsWritten, s, es)
    decreases |es|
  {
    Inv(s) && (es == [] || SoundRun(Step(AsWritten, s, es[0]), es[1..]))
  }

  /** A run of the code that no submit error ends is sound throughout exactly when it is benign. */
  lemma {:induction false} AsWrittenRunExactly(s: Sys, es: seq<Event>)
    requires Inv(s) && Runs(AsWritten, s, es) && !Replay(AsWritten, s, es).ended
    ensures SoundRun(s, es) <==> BenignRun(s, es)
    decreases |es|
  {
    hide Inv;
    if es != [] {
      var t := Step(AsWritten, s, es[0]);
      if t.ended {
        EndedStops(AsWritten, t, es[1..]);
      } else {
        AsWrittenExactly(s, es[0]);
        if Inv(t) {
          AsWrittenRunExactly(t, es[1..]);
        }
      }
    }
  }

  /** What the invariant says of sessions: each submitted chunk is exactly one of done, running in
      one session, and armed; the sessions and the armed chunks together fit the parallel window. */
  lemma Accounting(s: Sys, i: nat)
    requires Inv(s) && i < s.conn.next
    ensures i < |s.live| && (if s.conn.slots[i].done || s.conn.slots[i].retry then s.live[i] == 0 else s.live[i] == 1)
    ensures !(s.conn.slots[i].done && s.conn.slots[i].retry)
    ensures s.conn.inFlight == Total(s.live, Ident)
    ensures s.conn.inFlight + Total(s.conn.slots, Armed) <= s.conn.parallel
  {
    assert SlotOk(s, i);
  }

  // ---- what is on the wire ---------------------------------------------------------------

  function JoinOf(s: Sys): seq<int>
    requires |s.acc| > 0
  {
    Gap.Join(s.acc, s.conn.gap.on, s.conn.gap.buffered, s.conn.gapLen)
  }

  /** A finished response is the join of the accepted takes, nothing is left in flight or armed,
      and no event can touch the connection again. */
  lemma FinishedIsJoin(s: Sys)
    requires Inv(s) && s.conn.finished
    ensures s.conn.gap.out == JoinOf(s)
    ensures forall i: nat :: i < |s.conn.slots| ==> s.conn.slots[i].done
    ensures s.conn.inFlight == 0 && forall e :: !Enabled(s, e)
  {
    Gap.JoinIs(s.acc, s.conn.gap.on, s.conn.gap.buffered, s.conn.gapLen);
    forall i: nat | i < |s.conn.slots| ensures s.conn.slots[i].done && s.live[i] == 0 {
      assert SlotOk(s, i);
    }
    TotalZero(s.live, Ident);
  }

  /** Mid-run: what is emitted or held is the join so far plus the trimmed part of the current
      take; later takes wait, whole, in their own buffers; caps are kept. */
  lemma WireSoFar(s: Sys)
    requires Inv(s) && !s.conn.finished
    ensures var c := s.conn;
            && c.gap.out + c.gap.hold
               == Gap.JoinTo(s.acc, c.emit, c.gap.on, c.gap.buffered, c.gapLen)
                  + Gap.Trimmed(s.acc[c.emit], c.gap.on && c.emit > 0)
            && (!c.gap.on ==> c.gap.hold == [])
            && (forall i: nat :: i < |c.slots| && i > c.emit ==> c.slots[i].pend == s.acc[i])
            && (forall i: nat :: i < |c.slots| && c.slots[i].cap > 0 ==> |s.acc[i]| <= c.slots[i].cap)
  {
    var c := s.conn;
    Gap.SoFar(s.acc, c.emit, s.acc[c.emit], c.gap.on, c.gap.buffered, c.gapLen);
    forall i: nat | i < |c.slots|
      ensures i > c.emit ==> c.slots[i].pend == s.acc[i]
      ensures c.slots[i].cap > 0 ==> |s.acc[i]| <= c.slots[i].cap
    {
      assert SlotOk(s, i);
    }
  }

  lemma {:induction false} AdvanceEmits(c: Conn)
    requires c.emit < |c.slots|
    ensures c.gap.out <= Advance(c).gap.out
    decreases |c.slots| - c.emit
  {
    if c.emit + 1 < |c.slots| {
      var b := Gap.Boundary(c.gap, c.gapLen);
      Gap.FeedFrame(b, c.slots[c.emit + 1].pend);
      var d := HandOver(c);
      if d.slots[d.emit].done {
        AdvanceEmits(d);
      }
    }
  }

  lemma CompleteEmits(c: Conn, i: nat)
    requires i < |c.slots| && c.emit < |c.slots|
    ensures c.gap.out <= Complete(c, i).gap.out
  {
    if i == c.emit {
      AdvanceEmits(Put(c, i, c.slots[i].(done := true)).(inFlight := c.inFlight - 1));
    }
  }

  lemma CallbackEmits(c: Conn, i: nat, pcm: seq<int>, final: bool)
    requires Fits(c, i) && c.emit < |c.slots|
    ensures c.gap.out <= Callback(c, i, pcm, final).gap.out
  {
    hide Rejects, Overran;
    if !Rejects(c, i, pcm) {
      var kept := Kept(c, i, pcm);
      Gap.FeedFrame(c.gap, kept);
      CompleteEmits(Absorb(c, i, kept), i);
    }
  }

  /** No event, in either mode, takes back audio that has been emitted. */
  lemma EmittedStays(mode: Mode, s: Sys, e: Event)
    requires Sized(s) && Enabled(s, e)
    ensures s.conn.gap.out <= Step(mode, s, e).conn.gap.out
  {
    if e.Audio? {
      CallbackEmits(s.conn, e.i, e.pcm, e.final);
    }
  }

  /** A regeneration drops only what never reached the wire. */
  lemma RegenerationIsSilent(s: Sys, i: nat, pcm: seq<int>, final: bool)
    requires Inv(s) && Enabled(s, Audio(i, pcm, final)) && Regenerates(s.conn, i, pcm, final)
    ensures Step(AsMeant, s, Audio(i, pcm, final)).conn.gap == s.conn.gap
    ensures i == s.conn.emit ==> s.acc[i] == []
  {
    assert SlotOk(s, i);
  }

  // ---- length of runs ----------------------------------------------------------------------

  lemma {:induction false} TotalAt<T>(s: seq<T>, f: T -> nat, i: nat)
    requires i < |s|
    ensures f(s[i]) <= Total(s, f)
  {
    if i > 0 {
      TotalAt(s[1..], f, i - 1);
    }
  }

  /** Takes still to finish and regenerations still allowed. */
  function Major(c: Conn): nat {
    Total(c.slots, Undone) + Total(c.slots, Retries)
  }

  /** Audio still allowed in the current attempts, and submissions still owed. */
  function Minor(c: Conn): nat {
    Total(c.slots, Room) + Total(c.slots, Armed) + if c.next <= |c.slots| then |c.slots| - c.next else 0
  }

  function Caps(c: Conn): nat {
    Total(c.slots, Cap)
  }

  function Cost(c: Conn): nat {
    Major(c) * (Caps(c) + 2) + Minor(c)
  }

  /** Audio arrived, a session ended, or a submission was accepted. */
  predicate Progress(e: Event) {
    match e
    case Submitted(_, a) => a == OK
    case Audio(_, pcm, final) => pcm != [] || final
  }

  ghost predicate PendFree(f: Slot -> nat) {
    forall sl: Slot :: f(sl.(pend := [])) == f(sl)
  }

  lemma {:induction false} AdvanceTotal(c: Conn, f: Slot -> nat)
    requires c.emit < |c.slots| && PendFree(f)
    ensures Total(Advance(c).slots, f) == Total(c.slots, f)
    ensures |Advance(c).slots| == |c.slots| && Advance(c).next == c.next
    decreases |c.slots| - c.emit
  {
    if c.emit + 1 < |c.slots| {
      var d := HandOver(c);
      TotalUpdate(c.slots, f, d.emit, d.slots[d.emit]);
      if d.slots[d.emit].done {
        AdvanceTotal(d, f);
      }
    }
  }

  /** A lower major part pays for any minor part within one chunk's cap. */
  lemma {:induction false} Pays(a: nat, b: nat, k: nat, x: nat, y: nat)
    requires a < b && x <= y + k + 1
    ensures a * (k + 2) + x < b * (k + 2) + y
    decreases b
  {
    if b == a + 1 {
      assert b * (k + 2) == a * (k + 2) + (k + 2);
    } else {
      Pays(a, b - 1, k, x, y);
      assert b * (k + 2) == (b - 1) * (k + 2) + (k + 2);
    }
  }

  lemma Totals(slots: seq<Slot>, i: nat, x: Slot)
    requires i < |slots|
    ensures Total(slots[i := x], Undone) == Total(slots, Undone) - Undone(slots[i]) + Undone(x)
    ensures Total(slots[i := x], Retries) == Total(slots, Retries) - slots[i].retries + x.retries
    ensures Total(slots[i := x], Room) == Total(slots, Room) - Room(slots[i]) + Room(x)
    ensures Total(slots[i := x], Armed) == Total(slots, Armed) - Armed(slots[i]) + Armed(x)
    ensures Total(slots[i := x], Cap) == Total(slots, Cap) - slots[i].cap + x.cap
  {
    TotalUpdate(slots, Undone, i, x);
    TotalUpdate(slots, Retries, i, x);
    TotalUpdate(slots, Room, i, x);
    TotalUpdate(slots, Armed, i, x);
    TotalUpdate(slots, Cap, i, x);
  }

  lemma AbsorbShape(c: Conn, i: nat, kept: seq<int>)
    requires i < |c.slots|
    ensures var d := Absorb(c, i, kept);
            && d.next == c.next && d.emit == c.emit && d.parallel == c.parallel && |d.slots| == |c.slots|
            && d.slots == c.slots[i := d.slots[i]]
            && d.slots[i] == c.slots[i].(samples := c.slots[i].samples + |kept|, pend := d.slots[i].pend)
  {
    hide Gap.Feed;
    if kept == [] {
      assert c.slots[i := c.slots[i]] == c.slots;
    } else {
      AbsorbSome(c, i, kept);
    }
  }

  lemma AbsorbSome(c: Conn, i: nat, kept: seq<int>)
    requires i < |c.slots| && kept != []
    ensures var d, sl := Absorb(c, i, kept), c.slots[i];
            && d.next == c.next && d.emit == c.emit && d.parallel == c.parallel
            && d.slots == c.slots[i := sl.(samples := sl.samples + |kept|,
                                           pend := if i == c.emit then sl.pend else sl.pend + kept)]
  {
    hide Gap.Feed;
  }

  /** Totals over slots that differ in one slot's audio. */
  lemma ShapeCost(slots: seq<Slot>, i: nat, n: nat, pend: seq<int>)
    requires i < |slots| && 0 < slots[i].cap && slots[i].samples + n <= slots[i].cap
    ensures var t := slots[i := slots[i].(samples := slots[i].samples + n, pend := pend)];
            Total(t, Undone) == Total(slots, Undone) && Total(t, Retries) == Total(slots, Retries)
            && Total(t, Room) + n == Total(slots, Room) && Total(t, Armed) == Total(slots, Armed)
            && Total(t, Cap) == Total(slots, Cap)
  {
    Totals(slots, i, slots[i].(samples := slots[i].samples + n, pend := pend));
  }

  /** From c to d a take or a regeneration is used up. */
  ghost predicate Lower(d: Conn, c: Conn) {
    Caps(d) == Caps(c) && Major(d) < Major(c) && Minor(d) <= Minor(c) + Caps(c) + 1
  }

  lemma LowerCost(d: Conn, c: Conn)
    requires Lower(d, c)
    ensures Cost(d) < Cost(c)
  {
    Pays(Major(d), Major(c), Caps(c), Minor(d), Minor(c));
  }

  lemma AbsorbCost(c: Conn, i: nat, kept: seq<int>)
    requires i < |c.slots| && 0 < c.slots[i].cap && c.slots[i].samples + |kept| <= c.slots[i].cap
    ensures var d := Absorb(c, i, kept); Major(d) == Major(c) && Minor(d) + |kept| == Minor(c) && Caps(d) == Caps(c)
  {
    AbsorbShape(c, i, kept);
    ShapeCost(c.slots, i, |kept|, Absorb(c, i, kept).slots[i].pend);
  }

  lemma RegenerateCost(c: Conn, i: nat)
    requires Fits(c, i) && c.slots[i].retries > 0 && !c.slots[i].retry && c.slots[i].cap > 0
    ensures Lower(Regenerate(c, i), c)
  {
    Totals(c.slots, i, Regenerate(c, i).slots[i]);
    TotalAt(c.slots, Cap, i);
  }

  lemma AdvanceCost(c: Conn)
    requires c.emit < |c.slots|
    ensures var d := Advance(c); Major(d) == Major(c) && Minor(d) == Minor(c) && Caps(d) == Caps(c)
  {
    AdvanceTotal(c, Undone);
    AdvanceTotal(c, Retries);
    AdvanceTotal(c, Room);
    AdvanceTotal(c, Armed);
    AdvanceTotal(c, Cap);
  }

  lemma MarkCost(c: Conn, i: nat)
    requires i < |c.slots| && !c.slots[i].done
    ensures Lower(Put(c, i, c.slots[i].(done := true)).(inFlight := c.inFlight - 1), c)
  {
    Totals(c.slots, i, c.slots[i].(done := true));
  }

  lemma CompleteCost(c: Conn, i: nat)
    requires i < |c.slots| && c.emit < |c.slots| && !c.slots[i].done
    ensures Lower(Complete(c, i), c)
  {
    hide Advance, Major, Minor, Caps;
    MarkCost(c, i);
    if i == c.emit {
      AdvanceCost(Put(c, i, c.slots[i].(done := true)).(inFlight := c.inFlight - 1));
    }
  }

  lemma SettleCost(c: Conn, i: nat, cut: bool)
    requires Fits(c, i) && c.emit < |c.slots| && c.slots[i].cap > 0 && !c.slots[i].done && !c.slots[i].retry
    ensures Lower(Settle(c, i, cut), c)
  {
    if !cut && Empty(c, i, i == c.emit) {
      RegenerateCost(c, i);
    } else {
      CompleteCost(c, i);
    }
  }

  /** A callback that brings audio or ends its session costs something. */
  lemma CallbackCost(c: Conn, i: nat, pcm: seq<int>, final: bool)
    requires Fits(c, i) && c.emit < |c.slots| && c.slots[i].cap > 0 && !c.slots[i].done && !c.slots[i].retry
    ensures Cost(Callback(c, i, pcm, final)) + (if pcm != [] || final then 1 else 0) <= Cost(c)
  {
    hide Complete, Regenerate, Advance;
    if Rejects(c, i, pcm) {
      RegenerateCost(c, i);
      LowerCost(Regenerate(c, i), c);
    } else {
      var kept := Kept(c, i, pcm);
      var d := Absorb(c, i, kept);
      AbsorbShape(c, i, kept);
      AbsorbCost(c, i, kept);
      if final || Overran(c, i, pcm) {
        SettleCost(d, i, Overran(c, i, pcm));
        LowerCost(Settle(d, i, Overran(c, i, pcm)), c);
      }
    }
  }

  ghost predicate Guarded(s: Sys) {
    forall i: nat :: i < |s.conn.slots| ==> s.conn.slots[i].cap > 0
  }

  /** The hand-over loop touches nothing of a slot but its buffer. */
  lemma {:induction false} AdvanceSlot(c: Conn, j: nat)
    requires c.emit < |c.slots| && j < |c.slots|
    ensures var d := Advance(c);
            && |d.slots| == |c.slots| && d.next == c.next && d.parallel == c.parallel
            && d.slots[j] == c.slots[j].(pend := d.slots[j].pend)
    decreases |c.slots| - c.emit
  {
    if c.emit + 1 < |c.slots| {
      var d := HandOver(c);
      if d.slots[d.emit].done {
        AdvanceSlot(d, j);
      }
    }
  }

  lemma CompleteSlot(c: Conn, i: nat, j: nat)
    requires i < |c.slots| && c.emit < |c.slots| && j < |c.slots|
    ensures var d := Complete(c, i);
            && |d.slots| == |c.slots| && d.next == c.next && d.parallel == c.parallel
            && d.slots[j] == c.slots[j].(pend := d.slots[j].pend, done := c.slots[j].done || j == i)
  {
    if i == c.emit {
      AdvanceSlot(Put(c, i, c.slots[i].(done := true)).(inFlight := c.inFlight - 1), j);
    }
  }

  /** Which chunks are done after a callback, and what it never changes. */
  lemma CallbackDone(c: Conn, i: nat, pcm: seq<int>, final: bool, j: nat)
    requires Fits(c, i) && c.emit < |c.slots| && j < |c.slots|
    ensures var d, ends := Callback(c, i, pcm, final), final || Overran(c, i, pcm);
            && |d.slots| == |c.slots| && d.slots[j].textLen == c.slots[j].textLen
            && d.slots[j].done == (c.slots[j].done || (j == i && ends && !Regenerates(c, i, pcm, final)))
  {
    hide Absorb, Complete;
    if !Rejects(c, i, pcm) {
      var kept := Kept(c, i, pcm);
      AbsorbShape(c, i, kept);
      if final || Overran(c, i, pcm) {
        CompleteSlot(Absorb(c, i, kept), i, j);
      }
    }
  }

  /** What a callback leaves of any slot's guard fields. */
  lemma CallbackSlot(c: Conn, i: nat, pcm: seq<int>, final: bool, j: nat)
    requires Fits(c, i) && c.emit < |c.slots| && j < |c.slots|
    ensures var d, r := Callback(c, i, pcm, final), j == i && Regenerates(c, i, pcm, final);
            && |d.slots| == |c.slots| && d.next == c.next && d.parallel == c.parallel
            && d.slots[j].cap == c.slots[j].cap && (c.slots[j].done ==> d.slots[j].done)
            && d.slots[j].retries == c.slots[j].retries - (if r then 1 else 0)
            && d.slots[j].retry == (c.slots[j].retry || r)
  {
    hide Absorb, Complete;
    if !Rejects(c, i, pcm) {
      var kept := Kept(c, i, pcm);
      AbsorbShape(c, i, kept);
      if final || Overran(c, i, pcm) {
        CompleteSlot(Absorb(c, i, kept), i, j);
      }
    }
  }

  lemma StepGuarded(s: Sys, e: Event)
    requires Sized(s) && Enabled(s, e) && Guarded(s)
    ensures Guarded(Step(AsMeant, s, e))
  {
    if e.Audio? {
      CallbackSlot(s.conn, e.i, e.pcm, e.final, 0);
      forall j: nat | j < |s.conn.slots| ensures Step(AsMeant, s, e).conn.slots[j].cap > 0 {
        CallbackSlot(s.conn, e.i, e.pcm, e.final, j);
      }
    }
  }

  lemma SubmitCost(c: Conn, i: nat, a: Answer)
    requires i < |c.slots| && c.next <= |c.slots| && (c.slots[i].retry <==> i < c.next) && i <= c.next
    ensures Cost(Submit(AsMeant, c, i, a)) + (if a == OK then 1 else 0) <= Cost(c)
  {
    hide Total;
    Totals(c.slots, i, Submit(AsMeant, c, i, a).slots[i]);
  }

  lemma StepCost(s: Sys, e: Event)
    requires Inv(s) && Enabled(s, e) && Guarded(s)
    ensures Cost(Step(AsMeant, s, e).conn) + (if Progress(e) then 1 else 0) <= Cost(s.conn)
  {
    hide Cost, Callback, Submit;
    assert SlotOk(s, e.i);
    match e
    case Submitted(i, a) => SubmitCost(s.conn, i, a);
    case Audio(i, pcm, final) => CallbackCost(s.conn, i, pcm, final);
  }

  function Count(es: seq<Event>): nat {
    if es == [] then 0 else (if Progress(es[0]) then 1 else 0) + Count(es[1..])
  }

  /** The submission frontier never moves back, over any run of the step as meant. */
  lemma {:induction false} FrontierAdvances(s: Sys, es: seq<Event>)
    requires Runs(AsMeant, s, es)
    ensures s.conn.next <= Replay(AsMeant, s, es).conn.next
    decreases |es|
  {
    hide Callback;
    if es != [] {
      var e := es[0];
      if e.Audio? {
        CallbackSlot(s.conn, e.i, e.pcm, e.final, e.i);
      }
      FrontierAdvances(Step(AsMeant, s, e), es[1..]);
    }
  }

  /** With the guard on, a run makes at most `Cost` progress steps, whatever the interleaving. */
  lemma {:induction false} RunsAreBounded(s: Sys, es: seq<Event>)
    requires Inv(s) && Guarded(s) && Runs(AsMeant, s, es)
    ensures Count(es) + Cost(Replay(AsMeant, s, es).conn) <= Cost(s.conn)
    decreases |es|
  {
    if es != [] {
      var t := Step(AsMeant, s, es[0]);
      StepKeeps(s, es[0]);
      StepGuarded(s, es[0]);
      StepCost(s, es[0]);
      if t.ended {
        EndedStops(AsMeant, t, es[1..]);
      } else {
        RunsAreBounded(t, es[1..]);
      }
    }
  }

  // ---- where runs can stop ---------------------------------------------------------------------

  /** Chunk 0 ended without a sample, so `first_audio` never opens the window. */
  ghost predicate Stalled(s: Sys)
    requires Inv(s)
  {
    s.conn.next == 1 && s.conn.parallel > 1 && s.conn.slots[0].done && s.acc[0] == []
  }

  lemma StallIsStuck(s: Sys)
    requires Inv(s) && !s.conn.finished && Stalled(s)
    ensures forall e :: !Enabled(s, e)
  {
    forall i: nat | i < |s.conn.slots| ensures s.live[i] == 0 && !s.conn.slots[i].retry {
      assert SlotOk(s, i);
    }
  }

  /** Otherwise something can always happen: a session, an armed regeneration, or the next chunk. */
  lemma StuckIsStall(s: Sys) returns (e: Event)
    requires Inv(s) && !s.conn.finished && !s.ended && !Stalled(s)
    ensures Enabled(s, e)
  {
    var c := s.conn;
    if i: nat :| i < |c.slots| && s.live[i] > 0 {
      assert SlotOk(s, i);
      return Audio(i, [], false);
    } else if AnyRetry(c) {
      var i: nat :| i < |c.slots| && c.slots[i].retry;
      return Submitted(i, OK);
    } else {
      TotalZero(s.live, Ident);
      assert SlotOk(s, c.emit) && SlotOk(s, 0);
      return Submitted(c.next, OK);
    }
  }

  /** An unfinished chain can take no step exactly when it is stalled. */
  lemma StuckExactly(s: Sys)
    requires Inv(s) && !s.conn.finished && !s.ended
    ensures (forall e :: !Enabled(s, e)) <==> Stalled(s)
  {
    if Stalled(s) {
      StallIsStuck(s);
    } else {
      var e := StuckIsStall(s);
    }
  }

  /** A run that cannot go on has finished with the join of the accepted takes, unless a submit
      error ended it or chunk 0 came out silent in a parallel chain. */
  lemma MaximalRun(slots: seq<Slot>, parallel: nat, on: bool, buffered: bool, gapLen: nat, es: seq<Event>)
    requires Fresh(slots) && parallel >= 1
    requires var s := Init(slots, parallel, on, buffered, gapLen);
             Runs(AsMeant, s, es) && forall e :: !Enabled(Replay(AsMeant, s, es), e)
    ensures var t := Replay(AsMeant, Init(slots, parallel, on, buffered, gapLen), es);
            || t.ended
            || (t.conn.finished && t.conn.gap.out == JoinOf(t))
            || (Inv(t) && Stalled(t))
  {
    var s := Init(slots, parallel, on, buffered, gapLen);
    InitInv(slots, parallel, on, buffered, gapLen);
    RunKeeps(s, es);
    var t := Replay(AsMeant, s, es);
    if !t.ended {
      if t.conn.finished {
        FinishedIsJoin(t);
      } else {
        StuckExactly(t);
      }
    }
  }

  /** Duration cap of a chunk, in samples: text_bytes / 15 * 2 + 3 seconds, at least 8. */
  function GuardCap(textLen: nat): (c: nat)
    ensures c >= 352800
  {
    if 5880 * textLen + 132300 < 352800 then 352800 else 5880 * textLen + 132300
  }

  /** The slots of a fresh request. */
  function RequestSlots(texts: seq<nat>, guard: bool): (s: seq<Slot>)
    ensures |s| == |texts|
  {
    seq(|texts|, i requires 0 <= i < |texts| =>
      Slot(texts[i], if guard then GuardCap(texts[i]) else 0, false, [], 0, GUARD_RETRIES, 0, false, false))
  }

  /** A guarded request: every interleaving makes boundedly many progress steps, and where nothing
      can happen any more the response is complete, refused, or stalled behind a silent chunk 0. */
  lemma RequestEnds(texts: seq<nat>, parallel: nat, on: bool, buffered: bool, gapLen: nat, es: seq<Event>)
    requires |texts| > 0 && parallel >= 1
    requires Runs(AsMeant, Init(RequestSlots(texts, true), parallel, on, buffered, gapLen), es)
    ensures var s := Init(RequestSlots(texts, true), parallel, on, buffered, gapLen);
            var t := Replay(AsMeant, s, es);
            && Count(es) <= Cost(s.conn)
            && ((forall e :: !Enabled(t, e)) ==>
                  || t.ended
                  || (|t.acc| > 0 && t.conn.finished && t.conn.gap.out == JoinOf(t))
                  || (parallel > 1 && Inv(t) && Stalled(t)))
  {
    var slots := RequestSlots(texts, true);
    var s := Init(slots, parallel, on, buffered, gapLen);
    InitInv(slots, parallel, on, buffered, gapLen);
    RunsAreBounded(s, es);
    if forall e :: !Enabled(Replay(AsMeant, s, es), e) {
      MaximalRun(slots, parallel, on, buffered, gapLen, es);
      SameParallel(AsMeant, s, es);
    }
  }

  lemma StepParallel(mode: Mode, s: Sys, e: Event)
    requires Sized(s) && Enabled(s, e)
    ensures var t := Step(mode, s, e); t.conn.parallel == s.conn.parallel && |t.conn.slots| == |s.conn.slots|
  {
    hide Callback;
    if e.Audio? {
      CallbackSlot(s.conn, e.i, e.pcm, e.final, e.i);
    }
  }

  lemma {:induction false} SameParallel(mode: Mode, s: Sys, es: seq<Event>)
    requires Runs(mode, s, es)
    ensures var t := Replay(mode, s, es); t.conn.parallel == s.conn.parallel && |t.conn.slots| == |s.conn.slots|
    decreases |es|
  {
    hide Callback;
    if es != [] {
      StepParallel(mode, s, es[0]);
      SameParallel(mode, Step(mode, s, es[0]), es[1..]);
    }
  }

  // ---- attempts ------------------------------------------------------------------------------

  function Starts(es: seq<Event>, i: nat): nat {
    if es == [] then 0 else (if es[0] == Submitted(i, OK) then 1 else 0) + Starts(es[1..], i)
  }

  /** Sessions started for a chunk, up to a constant. */
  function Spent(s: Sys, i: nat): int
    requires i < |s.conn.slots|
  {
    var sl := s.conn.slots[i];
    (if i < s.conn.next then 1 else 0) - sl.retries - Armed(sl)
  }

  lemma StepSpent(s: Sys, e: Event, i: nat)
    requires Inv(s) && Enabled(s, e) && i < |s.conn.slots|
    ensures var t := Step(AsMeant, s, e);
            |t.conn.slots| == |s.conn.slots|
            && Spent(t, i) == Spent(s, i) + if e == Submitted(i, OK) then 1 else 0
  {
    assert SlotOk(s, i) && SlotOk(s, e.i);
    if e.Audio? {
      CallbackSlot(s.conn, e.i, e.pcm, e.final, i);
    }
  }

  /** No chunk gets more sessions than one and its regenerations. */
  lemma {:induction false} SpentIsStarts(s: Sys, es: seq<Event>, i: nat)
    requires Inv(s) && Runs(AsMeant, s, es) && i < |s.conn.slots|
    ensures var t := Replay(AsMeant, s, es);
            |t.conn.slots| == |s.conn.slots| && Starts(es, i) == Spent(t, i) - Spent(s, i)
    decreases |es|
  {
    if es != [] {
      var t := Step(AsMeant, s, es[0]);
      StepKeeps(s, es[0]);
      StepSpent(s, es[0], i);
      if t.ended {
        EndedStops(AsMeant, t, es[1..]);
      } else {
        SpentIsStarts(t, es[1..], i);
      }
    }
  }

  lemma AttemptsBounded(slots: seq<Slot>, parallel: nat, on: bool, buffered: bool, gapLen: nat, es: seq<Event>, i: nat)
    requires Fresh(slots) && parallel >= 1 && i < |slots|
    requires Runs(AsMeant, Init(slots, parallel, on, buffered, gapLen), es)
    ensures Starts(es, i) <= 1 + slots[i].retries
  {
    InitInv(slots, parallel, on, buffered, gapLen);
    SpentIsStarts(Init(slots, parallel, on, buffered, gapLen), es, i);
  }

  // ---- what goes wrong otherwise -----------------------------------------------------------------

  lemma {:induction false} Extend(mode: Mode, s: Sys, es: seq<Event>, e: Event)
    requires Runs(mode, s, es) && Enabled(Replay(mode, s, es), e)
    requires Sized(Step(mode, Replay(mode, s, es), e))
    ensures Runs(mode, s, es + [e]) && Replay(mode, s, es + [e]) == Step(mode, Replay(mode, s, es), e)
    decreases |es|
  {
    if es == [] {
      assert es + [e] == [e] && [e][1..] == [];
    } else {
      assert (es + [e])[1..] == es[1..] + [e];
      Extend(mode, Step(mode, s, es[0]), es[1..], e);
    }
  }
}
