/** The long-form chunk chain as a transition system: the poll loop submits chunk
    generations, scheduler callbacks deliver their audio, and one response leaves in chunk
    order.  Two submission modes: the step as written, and the step as meant (the
    submission frontier never moves back, a refused regeneration stays armed). */
module Chain {
  import Gap

  /** 0.3 s at 44.1 kHz. */
  const GUARD_EMPTY: nat := 13230
  const GUARD_EMPTY_MIN_BYTES: nat := 12
  const GUARD_RETRIES: nat := 2

  datatype Slot = Slot(textLen: nat, cap: nat, done: bool, pend: seq<int>, samples: nat, retries: nat,
                       attempt: nat, retry: bool, submitted: bool)

  datatype Conn = Conn(slots: seq<Slot>, parallel: nat, next: nat, emit: nat, inFlight: int,
                       firstAudio: bool, finished: bool, gap: Gap.State, gapLen: nat)

  datatype Answer = OK | FULL | ERR
  datatype Mode = AsWritten | AsMeant

  datatype Event =
    | Submitted(i: nat, answer: Answer)
    | Audio(i: nat, pcm: seq<int>, final: bool)

  /** The connection with what surrounds it: the scheduler's sessions per chunk, the audio each
      chunk's current attempt had accepted, and whether a submit error ended the run. */
  datatype Sys = Sys(conn: Conn, live: seq<nat>, acc: seq<seq<int>>, ended: bool)

  // ---- the connection's own steps ---------------------------------------------------

  /** Room is left, or the chunk has no cap. */
  predicate Fits(c: Conn, i: nat) {
    i < |c.slots| && (c.slots[i].cap == 0 || c.slots[i].samples <= c.slots[i].cap)
  }

  predicate Overran(c: Conn, i: nat, pcm: seq<int>)
    requires i < |c.slots|
  {
    pcm != [] && c.slots[i].cap != 0 && c.slots[i].samples + |pcm| > c.slots[i].cap
  }

  /** The part of a block below the cap. */
  function Kept(c: Conn, i: nat, pcm: seq<int>): (k: seq<int>)
    requires Fits(c, i)
  {
    if Overran(c, i, pcm) then pcm[..c.slots[i].cap - c.slots[i].samples] else pcm
  }

  function Put(c: Conn, i: nat, sl: Slot): Conn
    requires i < |c.slots|
  {
    c.(slots := c.slots[i := sl])
  }

  /** Stream the block when it is this chunk's turn, buffer it otherwise. */
  function Absorb(c: Conn, i: nat, kept: seq<int>): Conn
    requires i < |c.slots|
  {
    if kept == [] then c
    else
      var sl := c.slots[i];
      var d := c.(firstAudio := c.firstAudio || i == 0);
      if i == c.emit then Put(d, i, sl.(samples := sl.samples + |kept|)).(gap := Gap.Feed(c.gap, kept))
      else Put(d, i, sl.(samples := sl.samples + |kept|, pend := sl.pend + kept))
  }

  /** Drop the attempt and arm a new one. */
  function Regenerate(c: Conn, i: nat): Conn
    requires i < |c.slots| && c.slots[i].retries > 0
  {
    var sl := c.slots[i];
    Put(c, i, sl.(pend := [], samples := 0, retries := sl.retries - 1, retry := true)).(inFlight := c.inFlight - 1)
  }

  /** Nothing, or next to nothing, was produced; on the wire only a wholly empty take counts. */
  predicate Empty(c: Conn, i: nat, live: bool)
    requires i < |c.slots|
  {
    var sl := c.slots[i];
    sl.retries > 0 && sl.samples < GUARD_EMPTY && sl.textLen >= GUARD_EMPTY_MIN_BYTES && (!live || sl.samples == 0)
  }

  /** Close the join and hand the wire on, through every chunk that is already complete. */
  function Advance(c: Conn): Conn
    requires c.emit < |c.slots|
    decreases |c.slots| - c.emit
  {
    if c.emit + 1 >= |c.slots| then c.(gap := Gap.Flush(c.gap), finished := true)
    else
      var d := HandOver(c);
      if d.slots[d.emit].done then Advance(d) else d
  }

  /** The wire goes to the next chunk, which flushes what it buffered. */
  function HandOver(c: Conn): (d: Conn)
    requires c.emit + 1 < |c.slots|
    ensures |d.slots| == |c.slots| && d.emit == c.emit + 1
  {
    var nx := c.slots[c.emit + 1];
    Put(c, c.emit + 1, nx.(pend := [])).(emit := c.emit + 1, gap := Gap.Feed(Gap.Boundary(c.gap, c.gapLen), nx.pend))
  }

  function Complete(c: Conn, i: nat): Conn
    requires i < |c.slots| && c.emit < |c.slots|
  {
    var d := Put(c, i, c.slots[i].(done := true)).(inFlight := c.inFlight - 1);
    if i == c.emit then Advance(d) else d
  }

  /** The first reason to regenerate: a buffered take overran. */
  predicate Rejects(c: Conn, i: nat, pcm: seq<int>)
    requires i < |c.slots|
  {
    Overran(c, i, pcm) && i != c.emit && c.slots[i].retries > 0
  }

  /** The attempt is over: the second reason to regenerate is an empty take that was not cut. */
  function Settle(c: Conn, i: nat, cut: bool): Conn
    requires i < |c.slots| && c.emit < |c.slots|
  {
    if !cut && Empty(c, i, i == c.emit) then Regenerate(c, i) else Complete(c, i)
  }

  /** One scheduler callback for chunk i; it asks to cancel exactly when the block overran. */
  function Callback(c: Conn, i: nat, pcm: seq<int>, final: bool): Conn
    requires Fits(c, i) && c.emit < |c.slots|
  {
    if Rejects(c, i, pcm) then Regenerate(c, i)
    else
      var d := Absorb(c, i, Kept(c, i, pcm));
      if !final && !Overran(c, i, pcm) then d else Settle(d, i, Overran(c, i, pcm))
  }

  predicate Regenerates(c: Conn, i: nat, pcm: seq<int>, final: bool)
    requires Fits(c, i)
  {
    Rejects(c, i, pcm) || (!Overran(c, i, pcm) && final && Empty(Absorb(c, i, pcm), i, i == c.emit))
  }

  /** One submission and the scheduler's answer. */
  function Submit(mode: Mode, c: Conn, i: nat, answer: Answer): Conn
    requires i < |c.slots|
  {
    var sl := c.slots[i];
    var keep := mode == AsMeant && answer != OK && sl.retry;
    var d := Put(c, i, sl.(attempt := sl.attempt + 1, retry := keep, submitted := sl.submitted || answer == OK));
    if answer != OK then d
    else d.(inFlight := c.inFlight + 1,
            next := if mode == AsWritten || c.next <= i then i + 1 else c.next)
  }

  // ---- the whole system ---------------------------------------------------------------

  predicate AnyRetry(c: Conn) {
    exists i: nat :: i < |c.slots| && c.slots[i].retry
  }

  /** May the poll loop start chunk `next`? */
  predicate WindowOpen(c: Conn) {
    c.next < |c.slots| && c.inFlight < c.parallel && (c.next == 0 || c.parallel == 1 || c.firstAudio)
  }

  ghost predicate Sized(s: Sys) {
    |s.live| == |s.acc| == |s.conn.slots| && s.conn.emit < |s.conn.slots|
  }

  /** What may happen next: regenerations go first, only live sessions call back. */
  ghost predicate Enabled(s: Sys, e: Event)
    requires Sized(s)
  {
    !s.ended &&
    match e
    case Submitted(i, _) =>
      !s.conn.finished && i < |s.conn.slots|
      && (s.conn.slots[i].retry || (i == s.conn.next && !AnyRetry(s.conn) && WindowOpen(s.conn)))
    case Audio(i, _, _) => i < |s.conn.slots| && s.live[i] > 0 && Fits(s.conn, i)
  }

  ghost function Step(mode: Mode, s: Sys, e: Event): Sys
    requires Sized(s) && Enabled(s, e)
  {
    match e
    case Submitted(i, a) =>
      s.(conn := Submit(mode, s.conn, i, a),
         live := if a == OK then s.live[i := s.live[i] + 1] else s.live,
         ended := a == ERR || (a == FULL && !s.conn.slots[i].retry && i == 0))
    case Audio(i, pcm, final) =>
      s.(conn := Callback(s.conn, i, pcm, final),
         live := if final || Overran(s.conn, i, pcm) then s.live[i := s.live[i] - 1] else s.live,
         acc := s.acc[i := if Regenerates(s.conn, i, pcm, final) then [] else s.acc[i] + Kept(s.conn, i, pcm)])
  }

  // ---- sums -----------------------------------------------------------------------------

  function Total<T>(s: seq<T>, f: T -> nat): nat {
    if s == [] then 0 else f(s[0]) + Total(s[1..], f)
  }

  lemma {:induction false} TotalUpdate<T>(s: seq<T>, f: T -> nat, i: nat, x: T)
    requires i < |s|
    ensures Total(s[i := x], f) == Total(s, f) - f(s[i]) + f(x)
  {
    if i == 0 {
      assert s[0 := x][1..] == s[1..];
    } else {
      assert s[i := x][1..] == s[1..][i - 1 := x];
      TotalUpdate(s[1..], f, i - 1, x);
    }
  }

  lemma {:induction false} TotalZero<T>(s: seq<T>, f: T -> nat)
    ensures Total(s, f) == 0 <==> forall i: nat :: i < |s| ==> f(s[i]) == 0
  {
    if s != [] {
      TotalZero(s[1..], f);
      assert forall i: nat :: i < |s| ==> s[i] == if i == 0 then s[0] else s[1..][i - 1];
      assert forall i: nat :: i < |s| - 1 ==> s[1..][i] == s[i + 1];
    }
  }

  function Ident(x: nat): nat { x }
  function Armed(sl: Slot): nat { if sl.retry then 1 else 0 }
  function Undone(sl: Slot): nat { if sl.done then 0 else 1 }
  function Retries(sl: Slot): nat { sl.retries }
  function Cap(sl: Slot): nat { sl.cap }
  function Room(sl: Slot): nat { if sl.samples <= sl.cap then sl.cap - sl.samples else 0 }

  // ---- the invariant ----------------------------------------------------------------------

  /** A chunk below the frontier is exactly one of: done, in flight once, armed for regeneration. */
  ghost predicate SlotOk(s: Sys, i: nat)
    requires Sized(s) && i < |s.conn.slots|
  {
    var sl := s.conn.slots[i];
    && sl.samples == |s.acc[i]| && Fits(s.conn, i)
    && sl.pend == (if i > s.conn.emit then s.acc[i] else [])
    && s.live[i] <= 1
    && (sl.done ==> !sl.retry && s.live[i] == 0)
    && (sl.retry ==> s.live[i] == 0 && s.acc[i] == [])
    && (i < s.conn.next <==> sl.done || sl.retry || s.live[i] == 1)
    && (i >= s.conn.next ==> s.acc[i] == [])
  }

  ghost function GapNow(s: Sys): Gap.State
    requires Sized(s)
  {
    var c := s.conn;
    Gap.Feed(Gap.Base(s.acc, c.emit, c.gap.on, c.gap.buffered, c.gapLen), s.acc[c.emit])
  }

  /** Everything but whose turn it is. */
  ghost predicate Core(s: Sys) {
    && Sized(s) && s.conn.parallel >= 1
    && (forall i: nat :: i < |s.conn.slots| ==> SlotOk(s, i))
    && (forall i: nat :: i < s.conn.emit ==> s.conn.slots[i].done)
    && s.conn.next <= |s.conn.slots|
    && s.conn.inFlight == Total(s.live, Ident)
    && s.conn.inFlight + Total(s.conn.slots, Armed) <= s.conn.parallel
    && (s.conn.firstAudio <==> s.acc[0] != [])
    && (s.conn.next > 1 ==> s.conn.firstAudio || s.conn.parallel == 1)
  }

  ghost predicate Inv(s: Sys) {
    && Core(s)
    && (if s.conn.finished
        then s.conn.emit == |s.conn.slots| - 1 && s.conn.slots[s.conn.emit].done && s.conn.gap == Gap.Flush(GapNow(s))
        else !s.conn.slots[s.conn.emit].done && s.conn.gap == GapNow(s))
  }

  /** A fresh chain. */
  function Init(slots: seq<Slot>, parallel: nat, on: bool, buffered: bool, gapLen: nat): Sys {
    Sys(Conn(slots, parallel, 0, 0, 0, false, false, Gap.Start(on, buffered), gapLen),
        seq(|slots|, _ => 0), seq(|slots|, _ => []), false)
  }

  ghost predicate Fresh(slots: seq<Slot>) {
    |slots| > 0 && forall i: nat :: i < |slots| ==>
      !slots[i].done && slots[i].pend == [] && slots[i].samples == 0 && !slots[i].retry
  }

  lemma InitInv(slots: seq<Slot>, parallel: nat, on: bool, buffered: bool, gapLen: nat)
    requires Fresh(slots) && parallel >= 1
    ensures Inv(Init(slots, parallel, on, buffered, gapLen))
  {
    var s := Init(slots, parallel, on, buffered, gapLen);
    TotalZero(s.live, Ident);
    TotalZero(s.conn.slots, Armed);
  }

  // ---- every step keeps it -------------------------------------------------------------------

  lemma {:induction false} BaseLocal(acc: seq<seq<int>>, k: nat, i: nat, x: seq<int>, on: bool, buffered: bool,
                                     gap: nat)
    requires k <= i < |acc|
    ensures Gap.Base(acc[i := x], k, on, buffered, gap) == Gap.Base(acc, k, on, buffered, gap)
  {
    if k > 0 {
      BaseLocal(acc, k - 1, i, x, on, buffered, gap);
    }
  }

  lemma SubmitSlot(s: Sys, i: nat, a: Answer, j: nat)
    requires Inv(s) && Enabled(s, Submitted(i, a)) && j < |s.conn.slots|
    ensures var t := Step(AsMeant, s, Submitted(i, a)); SlotOk(t, j)
  {
    assert SlotOk(s, i) && SlotOk(s, j);
  }

  lemma SubmitCounts(s: Sys, i: nat, a: Answer)
    requires Inv(s) && Enabled(s, Submitted(i, a))
    ensures var t := Step(AsMeant, s, Submitted(i, a));
            t.conn.inFlight == Total(t.live, Ident) && t.conn.inFlight + Total(t.conn.slots, Armed) <= t.conn.parallel
  {
    hide Total, GapNow;
    var t := Step(AsMeant, s, Submitted(i, a));
    assert SlotOk(s, i);
    TotalUpdate(s.conn.slots, Armed, i, t.conn.slots[i]);
    if a == OK {
      TotalUpdate(s.live, Ident, i, s.live[i] + 1);
      if !s.conn.slots[i].retry {
        TotalZero(s.conn.slots, Armed);
      }
    }
  }

  lemma SubmitKeeps(s: Sys, i: nat, a: Answer)
    requires Inv(s) && Enabled(s, Submitted(i, a))
    ensures var t := Step(AsMeant, s, Submitted(i, a)); t.ended || Inv(t)
  {
    hide Total, SlotOk, GapNow;
    var t := Step(AsMeant, s, Submitted(i, a));
    SubmitCounts(s, i, a);
    SubmitGap(s, i, a);
    forall j: nat | j < |t.conn.slots| ensures t.ended || SlotOk(t, j) {
      SubmitSlot(s, i, a, j);
    }
  }

  lemma SubmitGap(s: Sys, i: nat, a: Answer)
    requires Inv(s) && Enabled(s, Submitted(i, a))
    ensures GapNow(Step(AsMeant, s, Submitted(i, a))) == GapNow(s)
    ensures if s.conn.slots[i].retry then i < s.conn.next else i == s.conn.next
  {
    hide Total;
    assert SlotOk(s, i);
  }

  /** A live session's block is taken in. */
  ghost function Absorbed(s: Sys, i: nat, kept: seq<int>): Sys
    requires Sized(s) && i < |s.conn.slots|
  {
    s.(conn := Absorb(s.conn, i, kept), acc := s.acc[i := s.acc[i] + kept])
  }

  lemma AbsorbKeeps(s: Sys, i: nat, kept: seq<int>)
    requires Inv(s) && i < |s.conn.slots| && s.live[i] > 0
    requires s.conn.slots[i].cap == 0 || s.conn.slots[i].samples + |kept| <= s.conn.slots[i].cap
    ensures Inv(Absorbed(s, i, kept))
  {
    var t := Absorbed(s, i, kept);
    assert SlotOk(s, i);
    if kept == [] {
      assert s.acc[i] + [] == s.acc[i];
      assert s.acc[i := s.acc[i]] == s.acc;
    } else {
      AbsorbGap(s, i, kept);
      AbsorbCore(s, i, kept);
    }
  }

  lemma AbsorbCore(s: Sys, i: nat, kept: seq<int>)
    requires Core(s) && i < |s.conn.slots| && s.live[i] > 0 && kept != []
    requires s.conn.slots[i].cap == 0 || s.conn.slots[i].samples + |kept| <= s.conn.slots[i].cap
    ensures Core(Absorbed(s, i, kept))
  {
    hide Fits, Total;
    var t := Absorbed(s, i, kept);
    assert SlotOk(s, i) && i >= s.conn.emit;
    forall j: nat | j < |t.conn.slots| ensures SlotOk(t, j) {
      AbsorbSlot(s, i, kept, j);
    }
    TotalUpdate(s.conn.slots, Armed, i, t.conn.slots[i]);
    assert s.acc[i] + kept != [];
  }

  lemma AbsorbSlot(s: Sys, i: nat, kept: seq<int>, j: nat)
    requires Sized(s) && i < |s.conn.slots| && j < |s.conn.slots| && SlotOk(s, i) && SlotOk(s, j)
    requires s.live[i] > 0 && kept != [] && i >= s.conn.emit
    requires s.conn.slots[i].cap == 0 || s.conn.slots[i].samples + |kept| <= s.conn.slots[i].cap
    ensures SlotOk(Absorbed(s, i, kept), j)
  {
  }

  lemma AbsorbGap(s: Sys, i: nat, kept: seq<int>)
    requires Inv(s) && i < |s.conn.slots| && s.live[i] > 0 && kept != []
    ensures var t := Absorbed(s, i, kept); !t.conn.finished && t.conn.gap == GapNow(t)
  {
    var c := s.conn;
    assert SlotOk(s, i) && SlotOk(s, c.emit);
    BaseLocal(s.acc, c.emit, i, s.acc[i] + kept, c.gap.on, c.gap.buffered, c.gapLen);
    if i == c.emit {
      var b := Gap.Base(s.acc, c.emit, c.gap.on, c.gap.buffered, c.gapLen);
      Gap.FeedConcat(b, s.acc[i], kept);
      Gap.FeedFrame(c.gap, kept);
    }
  }

  ghost function Regenerated(s: Sys, i: nat): Sys
    requires Sized(s) && i < |s.conn.slots| && s.live[i] > 0 && s.conn.slots[i].retries > 0
  {
    s.(conn := Regenerate(s.conn, i), live := s.live[i := s.live[i] - 1], acc := s.acc[i := []])
  }

  lemma RegenerateKeeps(s: Sys, i: nat)
    requires Inv(s) && i < |s.conn.slots| && s.live[i] > 0 && s.conn.slots[i].retries > 0
    requires i != s.conn.emit || s.acc[i] == []
    ensures Inv(Regenerated(s, i))
  {
    var t, c := Regenerated(s, i), s.conn;
    assert SlotOk(s, i);
    TotalUpdate(c.slots, Armed, i, t.conn.slots[i]);
    TotalUpdate(s.live, Ident, i, s.live[i] - 1);
    forall j: nat | j < |t.conn.slots| ensures SlotOk(t, j) {
      assert SlotOk(s, j);
    }
    BaseLocal(s.acc, c.emit, i, [], c.gap.on, c.gap.buffered, c.gapLen);
  }

  ghost function Marked(s: Sys, i: nat): Sys
    requires Sized(s) && i < |s.conn.slots| && s.live[i] > 0
  {
    s.(conn := Put(s.conn, i, s.conn.slots[i].(done := true)).(inFlight := s.conn.inFlight - 1),
       live := s.live[i := s.live[i] - 1])
  }

  lemma MarkKeeps(s: Sys, i: nat)
    requires Inv(s) && i < |s.conn.slots| && s.live[i] > 0
    ensures Core(Marked(s, i)) && Marked(s, i).conn.gap == GapNow(Marked(s, i))
  {
    hide Total;
    var t := Marked(s, i);
    assert SlotOk(s, i) && SlotOk(s, s.conn.emit);
    TotalUpdate(s.conn.slots, Armed, i, t.conn.slots[i]);
    TotalUpdate(s.live, Ident, i, s.live[i] - 1);
    forall j: nat | j < |t.conn.slots| ensures SlotOk(t, j) {
      assert SlotOk(s, j);
    }
  }

  lemma HandOverKeeps(s: Sys)
    requires Core(s) && s.conn.slots[s.conn.emit].done && s.conn.gap == GapNow(s)
    requires s.conn.emit + 1 < |s.conn.slots|
    ensures var t := s.(conn := HandOver(s.conn)); Core(t) && t.conn.gap == GapNow(t)
  {
    hide Total;
    var t, c := s.(conn := HandOver(s.conn)), s.conn;
    var k := c.emit + 1;
    TotalUpdate(c.slots, Armed, k, t.conn.slots[k]);
    forall j: nat | j < |t.conn.slots| ensures SlotOk(t, j) {
      assert SlotOk(s, j);
    }
    assert SlotOk(s, k);
    assert Gap.Boundary(c.gap, c.gapLen) == Gap.Base(s.acc, k, c.gap.on, c.gap.buffered, c.gapLen);
    Gap.FeedFrame(Gap.Boundary(c.gap, c.gapLen), s.acc[k]);
  }

  /** The hand-over loop stops at the first chunk not done, or closes the response. */
  lemma {:induction false} AdvanceKeeps(s: Sys)
    requires Core(s) && !s.conn.finished && s.conn.slots[s.conn.emit].done && s.conn.gap == GapNow(s)
    ensures Inv(s.(conn := Advance(s.conn)))
    decreases |s.conn.slots| - s.conn.emit
  {
    if s.conn.emit + 1 < |s.conn.slots| {
      HandOverKeeps(s);
      var t := s.(conn := HandOver(s.conn));
      if t.conn.slots[t.conn.emit].done {
        AdvanceKeeps(t);
      }
    } else {
      var t := s.(conn := Advance(s.conn));
      forall j: nat | j < |t.conn.slots| ensures SlotOk(t, j) {
        assert SlotOk(s, j);
      }
    }
  }

  lemma LiveIsOpen(s: Sys, i: nat)
    requires Inv(s) && i < |s.conn.slots| && s.live[i] > 0
    ensures Sized(s) && !s.conn.finished && !s.conn.slots[i].done && s.conn.emit <= i
  {
    assert SlotOk(s, i) && SlotOk(s, s.conn.emit);
  }

  lemma CompleteKeeps(s: Sys, i: nat)
    requires Inv(s) && i < |s.conn.slots| && s.live[i] > 0
    ensures Inv(s.(conn := Complete(s.conn, i), live := s.live[i := s.live[i] - 1]))
  {
    hide Core, GapNow, Advance;
    LiveIsOpen(s, i);
    MarkKeeps(s, i);
    if i == s.conn.emit {
      AdvanceKeeps(Marked(s, i));
    }
  }

  /** An empty take on the wire has put nothing there. */
  lemma EmptyIsSilent(s: Sys, i: nat)
    requires Inv(s) && i < |s.conn.slots| && Empty(s.conn, i, i == s.conn.emit)
    ensures i != s.conn.emit || s.acc[i] == []
  {
    assert SlotOk(s, i);
  }

  /** A session's end, on the state after its last block. */
  ghost function Settled(d: Sys, i: nat, cut: bool): Sys
    requires Sized(d) && i < |d.conn.slots| && d.live[i] > 0
  {
    d.(conn := Settle(d.conn, i, cut), live := d.live[i := d.live[i] - 1],
       acc := if !cut && Empty(d.conn, i, i == d.conn.emit) then d.acc[i := []] else d.acc)
  }

  lemma SettleKeeps(d: Sys, i: nat, cut: bool)
    requires Inv(d) && i < |d.conn.slots| && d.live[i] > 0
    ensures Inv(Settled(d, i, cut))
  {
    hide Complete, Regenerate;
    if !cut && Empty(d.conn, i, i == d.conn.emit) {
      EmptyIsSilent(d, i);
      RegenerateKeeps(d, i);
    } else {
      CompleteKeeps(d, i);
    }
  }

  lemma EndIsSettled(s: Sys, i: nat, pcm: seq<int>, final: bool)
    requires Sized(s) && Enabled(s, Audio(i, pcm, final)) && !Rejects(s.conn, i, pcm)
    requires final || Overran(s.conn, i, pcm)
    ensures Step(AsMeant, s, Audio(i, pcm, final))
         == Settled(Absorbed(s, i, Kept(s.conn, i, pcm)), i, Overran(s.conn, i, pcm))
  {
    hide Settle, Empty;
    var kept := Kept(s.conn, i, pcm);
    assert s.acc[i := s.acc[i] + kept][i := []] == s.acc[i := []];
  }

  lemma AudioKeeps(s: Sys, i: nat, pcm: seq<int>, final: bool)
    requires Inv(s) && Enabled(s, Audio(i, pcm, final))
    ensures Inv(Step(AsMeant, s, Audio(i, pcm, final)))
  {
    hide Absorb, GapNow, Gap.Flush;
    if Rejects(s.conn, i, pcm) {
      RegenerateKeeps(s, i);
    } else {
      AbsorbKeeps(s, i, Kept(s.conn, i, pcm));
      if final || Overran(s.conn, i, pcm) {
        EndIsSettled(s, i, pcm, final);
        SettleKeeps(Absorbed(s, i, Kept(s.conn, i, pcm)), i, Overran(s.conn, i, pcm));
      }
    }
  }
}
