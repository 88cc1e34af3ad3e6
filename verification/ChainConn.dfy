/** The connection as the code keeps it: fields updated by the scheduler's callbacks and by the
    poll loop's submit pass, each proved to take exactly the step of the transition system. */
module ChainConn {
  import opened Chain
  import CR = ChainRuns
  import CT = ChainTakes
  import Gap
  import GapFilter
  import Wire

  // ---- what every run of the code keeps, benign or not -----------------------------------

  /** in_flight counts the live sessions, caps hold, the gap window is well-formed. */
  ghost predicate Basic(s: Sys) {
    && Sized(s)
    && (forall i: nat :: i < |s.conn.slots| ==> Fits(s.conn, i))
    && s.conn.inFlight == Total(s.live, Ident)
    && Gap.Ok(s.conn.gap)
  }

  lemma InvBasic(s: Sys)
    requires Inv(s)
    ensures Basic(s)
  {
    forall i: nat | i < |s.conn.slots| ensures Fits(s.conn, i) {
      assert SlotOk(s, i);
    }
    var c := s.conn;
    var b := Gap.Base(s.acc, c.emit, c.gap.on, c.gap.buffered, c.gapLen);
    Gap.BaseIs(s.acc, c.emit, c.gap.on, c.gap.buffered, c.gapLen);
    Gap.FeedOk(b, s.acc[c.emit]);
  }

  lemma HandOverBasic(c: Conn)
    requires c.emit + 1 < |c.slots| && Gap.Ok(c.gap)
    ensures Gap.Ok(HandOver(c).gap)
  {
    Gap.FeedOk(Gap.Boundary(c.gap, c.gapLen), c.slots[c.emit + 1].pend);
  }

  lemma {:induction false} AdvanceBasic(c: Conn)
    requires c.emit < |c.slots| && Gap.Ok(c.gap)
    ensures var d := Advance(c); Gap.Ok(d.gap) && d.inFlight == c.inFlight && d.emit < |d.slots| == |c.slots|
    decreases |c.slots| - c.emit
  {
    if c.emit + 1 < |c.slots| {
      HandOverBasic(c);
      var d := HandOver(c);
      if d.slots[d.emit].done {
        AdvanceBasic(d);
      }
    }
  }

  lemma CompleteBasic(c: Conn, i: nat)
    requires i < |c.slots| && c.emit < |c.slots| && Gap.Ok(c.gap)
    ensures var d := Complete(c, i); Gap.Ok(d.gap) && d.inFlight == c.inFlight - 1 && d.emit < |d.slots| == |c.slots|
  {
    if i == c.emit {
      AdvanceBasic(Put(c, i, c.slots[i].(done := true)).(inFlight := c.inFlight - 1));
    }
  }

  lemma AbsorbBasic(c: Conn, i: nat, kept: seq<int>)
    requires i < |c.slots| && Gap.Ok(c.gap)
    ensures var d := Absorb(c, i, kept); Gap.Ok(d.gap) && d.inFlight == c.inFlight && d.emit == c.emit
  {
    Gap.FeedOk(c.gap, kept);
  }

  /** Everything but the session count, for one callback. */
  lemma CallbackBasic(c: Conn, i: nat, pcm: seq<int>, final: bool)
    requires Fits(c, i) && c.emit < |c.slots| && Gap.Ok(c.gap)
    ensures var d := Callback(c, i, pcm, final);
            && Gap.Ok(d.gap) && d.emit < |d.slots| == |c.slots|
            && d.inFlight == c.inFlight - (if final || Overran(c, i, pcm) then 1 else 0)
  {
    if !Rejects(c, i, pcm) {
      AbsorbBasic(c, i, Kept(c, i, pcm));
      CompleteBasic(Absorb(c, i, Kept(c, i, pcm)), i);
    }
  }

  /** A slot's audio count stays within its cap. */
  lemma CallbackFits(c: Conn, i: nat, pcm: seq<int>, final: bool, j: nat)
    requires Fits(c, i) && Fits(c, j) && c.emit < |c.slots|
    ensures Fits(Callback(c, i, pcm, final), j)
  {
    if !Rejects(c, i, pcm) {
      var d := Absorb(c, i, Kept(c, i, pcm));
      CR.AbsorbShape(c, i, Kept(c, i, pcm));
      CR.CompleteSlot(d, i, j);
    }
  }

  /** Accounting holds on every run of the code, even where the frontier moves back. */
  lemma StepBasic(mode: Mode, s: Sys, e: Event)
    requires Basic(s) && Enabled(s, e)
    ensures Basic(Step(mode, s, e))
  {
    match e
    case Submitted(i, a) =>
      if a == OK {
        TotalUpdate(s.live, Ident, i, s.live[i] + 1);
      }
      forall j: nat | j < |s.conn.slots| ensures Fits(Step(mode, s, e).conn, j) {
        assert Fits(s.conn, j);
      }
    case Audio(i, pcm, final) =>
      AudioBasic(mode, s, i, pcm, final);
  }

  lemma AudioBasic(mode: Mode, s: Sys, i: nat, pcm: seq<int>, final: bool)
    requires Basic(s) && Enabled(s, Audio(i, pcm, final))
    ensures Basic(Step(mode, s, Audio(i, pcm, final)))
  {
    hide Callback, Gap.Ok;
    CallbackBasic(s.conn, i, pcm, final);
    TotalUpdate(s.live, Ident, i, s.live[i] - 1);
    forall j: nat | j < |s.conn.slots| ensures Fits(Callback(s.conn, i, pcm, final), j) {
      CallbackFits(s.conn, i, pcm, final, j);
    }
  }

  /** A sound chain stays sound over a callback, and one that finishes holds the join. */
  lemma CallbackSound(s: Sys, i: nat, pcm: seq<int>, final: bool)
    requires Inv(s) && Enabled(s, Audio(i, pcm, final))
    ensures var t := Step(AsWritten, s, Audio(i, pcm, final));
            Inv(t) && (t.conn.finished ==> t.conn.gap.out == CR.JoinOf(t))
  {
    hide Callback, SlotOk, GapNow;
    AudioKeeps(s, i, pcm, final);
    var t := Step(AsWritten, s, Audio(i, pcm, final));
    if t.conn.finished {
      CR.FinishedIsJoin(t);
    }
  }

  // ---- the connection -----------------------------------------------------------------------

  predicate TakeOf(sl: Slot, taken: seq<int>, h: seq<int>) {
    taken == CT.Cut(sl.cap, h) && sl.samples == |taken|
  }

  /** Every accepted take is what was delivered for its chunk, cut at its cap. */
  ghost predicate AllTaken(slots: seq<Slot>, acc: seq<seq<int>>, heard: seq<seq<int>>) {
    |heard| == |slots| == |acc| && forall i: nat :: i < |slots| ==> TakeOf(slots[i], acc[i], heard[i])
  }

  /** The takes of all chunks, from what was delivered for them. */
  function TakesOf(slots: seq<Slot>, heard: seq<seq<int>>): (ts: seq<seq<int>>)
    requires |heard| == |slots|
    ensures |ts| == |slots|
  {
    seq(|slots|, i requires 0 <= i < |slots| == |heard| => CT.Cut(slots[i].cap, heard[i]))
  }

  lemma TakenAre(slots: seq<Slot>, acc: seq<seq<int>>, heard: seq<seq<int>>)
    requires AllTaken(slots, acc, heard)
    ensures |heard| == |slots| && TakesOf(slots, heard) == acc
  {
    hide CT.Cut;
    assert forall i: nat :: i < |slots| ==> TakeOf(slots[i], acc[i], heard[i]);
  }

  lemma NothingHeard(slots: seq<Slot>)
    requires Fresh(slots)
    ensures AllTaken(slots, seq(|slots|, _ => []), seq(|slots|, _ => []))
  {
  }

  lemma SubmitHeard(c: Conn, i: nat, a: Answer, acc: seq<seq<int>>, heard: seq<seq<int>>)
    requires i < |c.slots| && AllTaken(c.slots, acc, heard)
    ensures AllTaken(Submit(AsWritten, c, i, a).slots, acc, heard)
  {
    hide CT.Cut;
    forall j: nat | j < |c.slots|
      ensures TakeOf(Submit(AsWritten, c, i, a).slots[j], acc[j], heard[j])
    {
      assert TakeOf(c.slots[j], acc[j], heard[j]);
    }
  }

  class Connection {
    const filter: GapFilter.Filter
    const parallel: nat
    var slots: seq<Slot>
    var next: nat
    var emit: nat
    var inFlight: int
    var firstAudio: bool
    ghost var live: seq<nat>
    ghost var acc: seq<seq<int>>
    ghost var ended: bool
    /** What has been delivered for each chunk since its last regeneration. */
    ghost var heard: seq<seq<int>>

    ghost function View(): Conn
      reads this, filter, filter.resp, filter.hold
      requires filter.Sized()
    {
      Conn(slots, parallel, next, emit, inFlight, firstAudio, filter.resp.finished, filter.View(), filter.gapLen)
    }

    ghost function Now(): Sys
      reads this, filter, filter.resp, filter.hold
      requires filter.Sized()
    {
      Sys(View(), live, acc, ended)
    }

    /** An open response and a chain whose takes are accounted for. */
    ghost predicate Valid()
      reads this, filter, filter.resp, filter.hold
    {
      filter.Valid() && Basic(Now()) && AllTaken(slots, acc, heard)
    }

    constructor (filter: GapFilter.Filter, slots: seq<Slot>, parallel: nat)
      requires filter.Valid() && filter.View() == Gap.Start(filter.hold != null, filter.resp.buffered)
      requires Fresh(slots) && parallel >= 1
      ensures Valid() && this.filter == filter && heard == seq(|slots|, _ => [])
      ensures Now() == Init(slots, parallel, filter.hold != null, filter.resp.buffered, filter.gapLen) && Inv(Now())
    {
      this.filter, this.slots, this.parallel := filter, slots, parallel;
      next, emit, inFlight, firstAudio := 0, 0, 0, false;
      live, acc, ended := seq(|slots|, _ => 0), seq(|slots|, _ => []), false;
      heard := seq(|slots|, _ => []);
      new;
      hide AllTaken;
      NothingHeard(slots);
      InitInv(slots, parallel, filter.hold != null, filter.resp.buffered, filter.gapLen);
      InvBasic(Now());
    }

    /** The chunk whose turn it now is flushes what it buffered. */
    method TakeTurn() returns (ok: bool)
      requires filter.Valid() && emit < |slots|
      modifies `slots, filter, filter.resp, filter.hold
      ensures ok ==> filter.Valid() && slots == old(slots[emit := slots[emit].(pend := [])])
                     && filter.View() == Gap.Feed(old(filter.View()), old(slots[emit].pend))
      ensures !ok ==> filter.resp.failed
                      && filter.resp.emitted <= Gap.Feed(old(filter.View()), old(slots[emit].pend)).out
    {
      hide Wire.Response.Sound, Wire.Response.Delivered, Wire.Decode;
      var nx := slots[emit];
      if |nx.pend| > 0 {
        ok := filter.Feed(nx.pend);
        if !ok { return; }
      }
      slots := slots[emit := nx.(pend := [])];
      ok := true;
    }

    /** The join closes and the next chunk takes the wire. */
    method HandOn() returns (ok: bool)
      requires filter.Valid() && emit + 1 < |slots|
      modifies `slots, `emit, filter, filter.resp, filter.hold
      ensures ok ==> filter.Valid() && View() == HandOver(old(View()))
      ensures !ok ==> filter.resp.failed && filter.resp.emitted <= HandOver(old(View())).gap.out
    {
      hide Wire.Response.Sound, Wire.Response.Delivered, Wire.Decode, Gap.Ok, Gap.Feed, Gap.Boundary;
      Gap.FeedFrame(Gap.Boundary(filter.View(), filter.gapLen), slots[emit + 1].pend);
      ok := filter.Boundary();
      if ok {
        emit := emit + 1;
        ok := TakeTurn();
      }
    }

    /** Release the window and close the response. */
    method CloseResponse()
      requires filter.Valid()
      modifies filter, filter.resp, filter.hold
      ensures !filter.resp.failed ==>
        && filter.Sized() && View() == old(View()).(gap := Gap.Flush(old(View()).gap), finished := true)
        && filter.resp.Delivered()
      ensures filter.resp.failed ==> filter.resp.emitted <= Gap.Flush(old(View()).gap).out
    {
      hide Wire.Response.Sound, Wire.Response.Delivered, Wire.Decode, Gap.Ok;
      var ok := filter.Flush();
      if ok {
        filter.resp.Finish();
      }
    }

    /** chain_advance. */
    method ChainAdvance()
      requires filter.Valid() && emit < |slots|
      modifies `slots, `emit, filter, filter.resp, filter.hold
      ensures !filter.resp.failed ==>
        && filter.Sized() && View() == Advance(old(View()))
        && (if filter.resp.finished then filter.resp.Delivered() else filter.Valid())
      ensures filter.resp.failed ==> filter.resp.emitted <= Advance(old(View())).gap.out
    {
      hide Wire.Response.Sound, Wire.Response.Delivered, Wire.Decode, Gap.Ok, Gap.Feed, Gap.Boundary, Gap.Flush,
           HandOver;
      ghost var target := Advance(View());
      while emit + 1 < |slots|
        invariant filter.Valid() && emit < |slots| && Advance(View()) == target
        decreases |slots| - emit
      {
        HandOnward(View());
        var ok := HandOn();
        if !ok || !slots[emit].done { return; }
      }
      CloseResponse();
    }

    /** chunk_regenerate: drop the attempt, arm a resubmission. */
    method ChunkRegenerate(i: nat)
      requires filter.Sized() && i < |slots| && slots[i].retries > 0
      modifies `slots, `inFlight
      ensures View() == Regenerate(old(View()), i)
    {
      var sl := slots[i];
      slots := slots[i := sl.(pend := [], samples := 0, retries := sl.retries - 1, retry := true)];
      inFlight := inFlight - 1;
    }

    /** The audio part of a callback: to the wire, or to the chunk's own buffer. */
    method Deliver(i: nat, kept: seq<int>) returns (ok: bool)
      requires filter.Valid() && i < |slots|
      modifies `slots, `firstAudio, filter, filter.resp, filter.hold
      ensures ok ==> filter.Valid() && View() == Absorb(old(View()), i, kept)
      ensures !ok ==> filter.resp.failed && filter.resp.emitted <= Absorb(old(View()), i, kept).gap.out
    {
      hide Wire.Response.Sound, Wire.Response.Delivered, Wire.Decode, Gap.Ok;
      ok := true;
      if |kept| > 0 {
        if i == 0 {
          firstAudio := true;
        }
        var sl := slots[i];
        if i == emit {
          ok := filter.Feed(kept);
        } else {
          sl := sl.(pend := sl.pend + kept);
        }
        if ok {
          slots := slots[i := sl.(samples := sl.samples + |kept|)];
        }
      }
    }

    /** The chunk is complete; if it had the wire, the wire moves on. */
    method Finish(i: nat)
      requires filter.Valid() && i < |slots| && emit < |slots|
      modifies `slots, `inFlight, `emit, filter, filter.resp, filter.hold
      ensures !filter.resp.failed ==>
        && filter.Sized() && View() == Complete(old(View()), i)
        && (if filter.resp.finished then filter.resp.Delivered() else filter.Valid())
      ensures filter.resp.failed ==> filter.resp.emitted <= Complete(old(View()), i).gap.out
    {
      hide Wire.Response.Sound, Wire.Response.Delivered, Wire.Decode, Advance;
      slots := slots[i := slots[i].(done := true)];
      inFlight := inFlight - 1;
      if i == emit {
        ChainAdvance();
      }
    }

    /** The attempt is over: an empty take is generated again, any other completes its chunk. */
    method Conclude(i: nat, cut: bool)
      requires filter.Valid() && i < |slots| && emit < |slots|
      modifies `slots, `inFlight, `emit, filter, filter.resp, filter.hold
      ensures !filter.resp.failed ==>
        && filter.Sized() && View() == Settle(old(View()), i, cut)
        && (if filter.resp.finished then filter.resp.Delivered() else filter.Valid())
      ensures filter.resp.failed ==> filter.resp.emitted <= Settle(old(View()), i, cut).gap.out
    {
      hide Wire.Response.Sound, Wire.Response.Delivered, Wire.Decode, Complete;
      var sl := slots[i];
      if !cut && sl.retries > 0 && sl.samples < GUARD_EMPTY && sl.textLen >= GUARD_EMPTY_MIN_BYTES
         && (i != emit || sl.samples == 0) {
        ChunkRegenerate(i);
      } else {
        Finish(i);
      }
    }

    /** The fields after one callback, whatever becomes of the session. */
    method Receive(i: nat, pcm: seq<int>, final: bool) returns (cancel: bool)
      requires filter.Valid() && emit < |slots| && Fits(View(), i)
      modifies `slots, `inFlight, `emit, `firstAudio, filter, filter.resp, filter.hold
      ensures !filter.resp.failed ==>
        && filter.Sized() && View() == Callback(old(View()), i, pcm, final)
        && cancel == old(Overran(View(), i, pcm))
        && (if filter.resp.finished then filter.resp.Delivered() else filter.Valid())
      ensures filter.resp.failed ==> filter.resp.emitted <= Callback(old(View()), i, pcm, final).gap.out
    {
      hide Wire.Response.Sound, Wire.Response.Delivered, Wire.Decode, Settle, Complete, Advance, Regenerate, Gap.Ok,
           Gap.Feed, GapFilter.Filter.Sized, GapFilter.Filter.View;
      var kept, cut := pcm, false;
      var sl := slots[i];
      if |pcm| > 0 && sl.cap != 0 && sl.samples + |pcm| > sl.cap {
        if i != emit && sl.retries > 0 {
          ChunkRegenerate(i);
          return true;
        }
        kept, cut := pcm[..sl.cap - sl.samples], true;
      }
      EndEmits(View(), i, pcm, final);
      var ok := Deliver(i, kept);
      if !ok {
        return true;
      }
      if !final && !cut {
        return false;
      }
      Conclude(i, cut);
      cancel := cut;
    }

    /** What surrounds the connection, after a callback that found it in s. */
    ghost method Record(s: Sys, i: nat, pcm: seq<int>, final: bool)
      requires Sized(s) && Enabled(s, Audio(i, pcm, final)) && live == s.live && acc == s.acc
      requires |heard| == |s.conn.slots|
      modifies `live, `acc, `heard
      ensures live == Step(AsWritten, s, Audio(i, pcm, final)).live
      ensures acc == Step(AsWritten, s, Audio(i, pcm, final)).acc
      ensures heard == old(heard[i := if Regenerates(s.conn, i, pcm, final) then [] else heard[i] + pcm])
    {
      hide Callback;
      live := if final || Overran(s.conn, i, pcm) then live[i := live[i] - 1] else live;
      acc := acc[i := if Regenerates(s.conn, i, pcm, final) then [] else acc[i] + Kept(s.conn, i, pcm)];
      heard := heard[i := if Regenerates(s.conn, i, pcm, final) then [] else heard[i] + pcm];
    }

    /** tts_chunk_cb: one callback of a live session is exactly one audio step; unless the peer
        goes away, a sound chain stays sound and the response that closes holds the join. */
    method TtsChunkCb(i: nat, pcm: seq<int>, final: bool) returns (cancel: bool)
      requires Valid() && !ended && i < |slots| && live[i] > 0
      modifies this, filter, filter.resp, filter.hold
      ensures !filter.resp.failed ==>
        && filter.Sized() && Now() == Step(AsWritten, old(Now()), Audio(i, pcm, final)) && Basic(Now())
        && cancel == old(Overran(View(), i, pcm))
        && (if filter.resp.finished then filter.resp.Delivered() else Valid())
      ensures !filter.resp.failed ==>
        && AllTaken(slots, acc, heard)
        && heard == old(heard[i := if Regenerates(View(), i, pcm, final) then [] else heard[i] + pcm])
      ensures !filter.resp.failed && old(Inv(Now())) ==>
        && Inv(Now())
        && (filter.resp.finished ==>
              |heard| == |slots| > 0
              && filter.resp.emitted == Gap.Join(TakesOf(slots, heard), filter.hold != null, filter.resp.buffered,
                                                 filter.gapLen))
      ensures filter.resp.failed ==>
        filter.resp.emitted <= Step(AsWritten, old(Now()), Audio(i, pcm, final)).conn.gap.out
    {
      hide Wire.Response.Sound, Wire.Response.Delivered, Wire.Decode, Callback, Inv, Gap.Ok, Fits, Total, Gap.Join,
           AllTaken, TakesOf;
      ghost var s := Now();
      StepBasic(AsWritten, s, Audio(i, pcm, final));
      CallbackJoin(s, i, pcm, final, heard);
      cancel := Receive(i, pcm, final);
      Record(s, i, pcm, final);
    }

    /** The fields after one submission. */
    method SubmitFields(i: nat, answer: Answer)
      requires filter.Sized() && i < |slots|
      modifies `slots, `inFlight, `next
      ensures View() == Submit(AsWritten, old(View()), i, answer)
    {
      var sl := slots[i];
      sl := sl.(attempt := sl.attempt + 1, retry := false);
      inFlight := inFlight + 1;
      if answer == OK {
        sl := sl.(submitted := true);
        next := i + 1;
      } else {
        inFlight := inFlight - 1;
      }
      slots := slots[i := sl];
    }

    /** submit_chunk, with the scheduler's answer. */
    method SubmitChunk(i: nat, answer: Answer)
      requires Valid() && Enabled(Now(), Submitted(i, answer))
      modifies this
      ensures Valid() && heard == old(heard) && Now() == Step(AsWritten, old(Now()), Submitted(i, answer))
    {
      hide Wire.Response.Sound, Gap.Ok, Submit, Complete, AllTaken;
      SubmitHeard(View(), i, answer, acc, heard);
      StepBasic(AsWritten, Now(), Submitted(i, answer));
      ended := answer == ERR || (answer == FULL && !slots[i].retry && i == 0);
      SubmitFields(i, answer);
      live := if answer == OK then live[i := live[i] + 1] else live;
    }

    /** The trace of the submit pass so far. */
    ghost predicate Passed(s: Sys, es: seq<Event>)
      reads this, filter, filter.resp, filter.hold
    {
      filter.Sized() && CR.Runs(AsWritten, s, es) && Now() == CR.Replay(AsWritten, s, es)
    }

    /** One submission of the pass, recorded. */
    method SubmitNext(i: nat, answer: Answer, ghost s: Sys, ghost es: seq<Event>)
      requires Valid() && Enabled(Now(), Submitted(i, answer)) && Passed(s, es)
      modifies this
      ensures Valid() && heard == old(heard) && Passed(s, es + [Submitted(i, answer)])
      ensures Now() == Step(AsWritten, old(Now()), Submitted(i, answer))
    {
      hide AllTaken, Wire.Response.Sound, Gap.Ok;
      CR.Extend(AsWritten, s, es, Submitted(i, answer));
      SubmitChunk(i, answer);
    }

    /** chain_submit_ready: armed regenerations first, then new chunks while the window is open;
        `answers` is what the scheduler says to the k-th submission. */
    method ChainSubmitReady(answers: nat -> Answer) returns (rc: Answer, ghost es: seq<Event>)
      requires Valid() && !ended
      modifies this
      ensures Valid() && heard == old(heard) && Passed(old(Now()), es)
      ensures ended <==> rc != OK
      ensures rc == OK ==>
        || (es != [] && es[|es| - 1].Submitted? && es[|es| - 1].answer == FULL)
        || (!AnyRetry(View()) && !WindowOpen(View()))
      ensures rc == OK && old(Inv(Now())) && CR.BenignRun(old(Now()), es) ==> Inv(Now())
    {
      hide AllTaken, Wire.Response.Sound, Gap.Ok, CR.Runs, CR.Replay, Inv, CR.BenignRun;
      ghost var s := Now();
      es := [];
      CR.NothingYet(AsWritten, s);
      var q, full := 0, false;
      rc, q, full, es := SubmitRetries(answers, s);
      if rc == OK && !full {
        rc, es := SubmitWindow(answers, q, s, es);
      }
      if rc == OK && Inv(s) && CR.BenignRun(s, es) {
        CR.AsWrittenRunKeeps(s, es);
      }
    }

    method SubmitRetries(answers: nat -> Answer, ghost s: Sys)
      returns (rc: Answer, q: nat, full: bool, ghost es: seq<Event>)
      requires Valid() && !ended && s == Now()
      modifies this
      ensures Valid() && heard == old(heard) && Passed(s, es)
      ensures ended <==> rc != OK
      ensures full ==> rc == OK && es != [] && es[|es| - 1].Submitted? && es[|es| - 1].answer == FULL
      ensures rc == OK && !full ==> !AnyRetry(View())
    {
      hide AllTaken, Wire.Response.Sound, Gap.Ok, CR.Runs, CR.Replay;
      q, full, es, rc := 0, false, [], OK;
      CR.NothingYet(AsWritten, s);
      var i := 0;
      while i < |slots|
        invariant 0 <= i <= |slots| && Valid() && !ended && heard == old(heard) && Passed(s, es)
        invariant forall j: nat :: j < i ==> !slots[j].retry
        decreases |slots| - i
      {
        if slots[i].retry {
          ghost var n := |slots|;
          SubmitNext(i, answers(q), s, es);
          es := es + [Submitted(i, answers(q))];
          q := q + 1;
          if answers(q - 1) == FULL {
            full := true;
            return;
          }
          if answers(q - 1) != OK {
            rc := answers(q - 1);
            return;
          }
        }
        i := i + 1;
      }
    }

    method SubmitWindow(answers: nat -> Answer, q0: nat, ghost s: Sys, ghost es0: seq<Event>)
      returns (rc: Answer, ghost es: seq<Event>)
      requires Valid() && !ended && Passed(s, es0) && !AnyRetry(View())
      modifies this
      ensures Valid() && heard == old(heard) && Passed(s, es)
      ensures ended <==> rc != OK
      ensures rc == OK ==>
        || (es != [] && es[|es| - 1].Submitted? && es[|es| - 1].answer == FULL)
        || (!AnyRetry(View()) && !WindowOpen(View()))
    {
      hide AllTaken, Wire.Response.Sound, Gap.Ok, CR.Runs, CR.Replay;
      var q := q0;
      es := es0;
      while next < |slots| && inFlight < parallel && (next == 0 || parallel == 1 || firstAudio)
        invariant Valid() && !ended && heard == old(heard) && Passed(s, es) && !AnyRetry(View())
        decreases parallel - inFlight
      {
        var i, a := next, answers(q);
        SubmitNext(i, a, s, es);
        es := es + [Submitted(i, a)];
        q := q + 1;
        if a == FULL && i > 0 {
          return OK, es;
        }
        if a != OK {
          return a, es;
        }
      }
      rc := OK;
    }
  }

  /** After a callback every take is again what was delivered, cut. */
  lemma StillHeard(s: Sys, i: nat, pcm: seq<int>, final: bool, heard: seq<seq<int>>)
    requires Sized(s) && Enabled(s, Audio(i, pcm, final)) && AllTaken(s.conn.slots, s.acc, heard)
    ensures |heard| == |s.conn.slots|
    ensures var t := Step(AsWritten, s, Audio(i, pcm, final));
            AllTaken(t.conn.slots, t.acc, heard[i := if Regenerates(s.conn, i, pcm, final) then [] else heard[i] + pcm])
  {
    hide Callback, CT.Cut;
    var e := Audio(i, pcm, final);
    var t := Step(AsWritten, s, e);
    CR.CallbackSlot(s.conn, i, pcm, final, i);
    forall j: nat | j < |heard|
      ensures TakeOf(t.conn.slots[j], t.acc[j], CT.Delivered(s, e, j, heard[j]))
    {
      assert TakeOf(s.conn.slots[j], s.acc[j], heard[j]);
      CT.TakeStep(AsWritten, s, e, j, heard[j]);
    }
  }

  /** What a sound callback leaves, over what was delivered. */
  lemma CallbackJoin(s: Sys, i: nat, pcm: seq<int>, final: bool, heard: seq<seq<int>>)
    requires Sized(s) && Enabled(s, Audio(i, pcm, final)) && AllTaken(s.conn.slots, s.acc, heard)
    ensures |heard| == |s.conn.slots|
    ensures var t := Step(AsWritten, s, Audio(i, pcm, final));
            var h := heard[i := if Regenerates(s.conn, i, pcm, final) then [] else heard[i] + pcm];
            && AllTaken(t.conn.slots, t.acc, h)
            && (Inv(s) ==> Inv(t))
            && (Inv(s) && t.conn.finished ==>
                  |h| == |t.conn.slots| > 0
                  && t.conn.gap.out == Gap.Join(TakesOf(t.conn.slots, h), t.conn.gap.on, t.conn.gap.buffered,
                    t.conn.gapLen))
  {
    hide Callback, AllTaken, TakesOf, Inv, Gap.Join;
    StillHeard(s, i, pcm, final, heard);
    var t := Step(AsWritten, s, Audio(i, pcm, final));
    TakenAre(t.conn.slots, t.acc, heard[i := if Regenerates(s.conn, i, pcm, final) then [] else heard[i] + pcm]);
    if Inv(s) {
      CallbackSound(s, i, pcm, final);
    }
  }

  lemma EndEmits(c: Conn, i: nat, pcm: seq<int>, final: bool)
    requires Fits(c, i) && c.emit < |c.slots| && !Rejects(c, i, pcm)
    ensures Absorb(c, i, Kept(c, i, pcm)).gap.out <= Callback(c, i, pcm, final).gap.out
  {
    CR.CompleteEmits(Absorb(c, i, Kept(c, i, pcm)), i);
  }

  /** What the hand-over emits stays in what the whole advance emits. */
  lemma HandOnward(c: Conn)
    requires c.emit + 1 < |c.slots|
    ensures HandOver(c).gap.out <= Advance(c).gap.out
  {
    var d := HandOver(c);
    if d.slots[d.emit].done {
      CR.AdvanceEmits(d);
    }
  }
}
