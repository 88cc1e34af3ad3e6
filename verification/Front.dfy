/** A front-end stream as a value, and what each call makes of it. */
module Front {
  import opened Basics
  import opened Kernels
  import opened Codec
  import opened Whole
  import opened Incremental

  const BATCH_MAX: nat := 8

  /** A stream, its engine's frames and flight, and what the caller has been handed so far. */
  datatype Front = Front(
    codec: Dac,
    batch: nat,                 // frames per engine push, 1..8
    bat: seq<Frame>,            // gathered but not yet pushed to the engine
    firstFlushed: bool,
    finished: bool,
    fed: seq<Frame>,            // taken by the engine
    pending: nat,               // of these, in flight
    pushed: seq<Frame>,
    collected: seq<Col>,
    flushes: seq<nat>)          // sizes of the engine pushes

  function Target(v: Front): nat {
    if v.firstFlushed then v.batch else 1
  }

  function Gather(v: Front, f: Frame): Front {
    v.(bat := v.bat + [f], pushed := v.pushed + [f])
  }

  /** The engine has taken the gathered frames. */
  function Sent(v: Front): Front {
    v.(bat := [], fed := v.fed + v.bat, pending := |v.bat|, flushes := v.flushes + [|v.bat|])
  }

  function Flushed(v: Front): Front {
    Sent(v).(firstFlushed := true)
  }

  /** The engine's answer to a push of all gathered frames. */
  function FlushStatus(v: Front): Status {
    PushStatus(|v.fed|, v.pending, |v.bat|)
  }

  function AfterPush(v: Front, f: Frame): (Front, Status) {
    if v.finished then (v, WrongState)
    else
      var w := Gather(v, f);
      if |w.bat| < Target(w) then (w, OK)
      else if FlushStatus(w) == OK then (Flushed(w), OK)
      else (w, FlushStatus(w))
  }

  function AfterCollect(v: Front, pcm: seq<Col>): Front {
    v.(pending := 0, collected := v.collected + pcm)
  }

  /** A finish up to its collect. */
  function AfterFinish(v: Front): (Front, Status) {
    if v.finished then (v, WrongState)
    else
      var w := v.(finished := true);
      if w.bat == [] then (w, OK)
      else if FlushStatus(w) == OK then (Sent(w), OK)
      else (w, FlushStatus(w))
  }

  // ---- what every call keeps --------------------------------------------------------------

  function Sum(ns: seq<nat>): nat {
    if ns == [] then 0 else Sum(ns[..|ns| - 1]) + ns[|ns| - 1]
  }

  lemma SumSnoc(ns: seq<nat>, n: nat)
    ensures Sum(ns + [n]) == Sum(ns) + n
  {
    assert (ns + [n])[..|ns|] == ns;
  }

  /** Every frame is in the engine or in the gather buffer, in order; the engine was pushed its
      frames in flushes; what was handed out is the decode of the frames not in flight. */
  ghost predicate Sound(v: Front) {
    && 1 <= v.batch <= BATCH_MAX && |v.bat| <= BATCH_MAX && v.pending <= |v.fed|
    && v.pushed == v.fed + v.bat && Sum(v.flushes) == |v.fed|
    && v.collected == Decode(v.codec.net, v.fed[..|v.fed| - v.pending])
    && (!v.finished ==> (v.firstFlushed <==> v.flushes != []))
  }

  /** The first flush is of one frame, all others of a whole batch. */
  ghost predicate FlushSizes(flushes: seq<nat>, batch: nat) {
    forall i: nat :: i < |flushes| ==> flushes[i] == if i == 0 then 1 else batch
  }

  /** Between calls a stream has gathered less than its target. */
  ghost predicate Steady(v: Front) {
    Sound(v) && !v.finished && |v.bat| < Target(v) && FlushSizes(v.flushes, v.batch)
  }

  /** Nothing in flight, and room for one more flush below the engine's position limit. */
  predicate Idle(v: Front) {
    v.pending == 0 && |v.fed| + BATCH_MAX <= INT32_MAX / 4
  }

  lemma SentSound(v: Front)
    requires Sound(v) && v.pending == 0
    ensures v.finished ==> Sound(Sent(v))
    ensures Sound(Flushed(v))
  {
    hide Decode;
    SumSnoc(v.flushes, |v.bat|);
    assert v.fed[..|v.fed|] == v.fed;
    assert (v.fed + v.bat)[..|v.fed + v.bat| - |v.bat|] == v.fed;
  }

  lemma GatherSound(v: Front, f: Frame)
    requires Sound(v) && |v.bat| < BATCH_MAX
    ensures Sound(Gather(v, f))
  {
    hide Decode;
  }

  lemma PushSound(v: Front, f: Frame)
    requires Sound(v) && (!v.finished ==> |v.bat| < BATCH_MAX)
    ensures Sound(AfterPush(v, f).0)
  {
    hide Sound;
    if !v.finished {
      GatherSound(v, f);
      if FlushStatus(Gather(v, f)) == OK {
        SentSound(Gather(v, f));
      }
    }
  }

  lemma CollectSound(v: Front, pcm: seq<Col>)
    requires Sound(v) && Decode(v.codec.net, v.fed) == Decode(v.codec.net, v.fed[..|v.fed| - v.pending]) + pcm
    ensures Sound(AfterCollect(v, pcm)) && (Steady(v) ==> Steady(AfterCollect(v, pcm)))
  {
    hide Decode;
    assert v.fed[..|v.fed|] == v.fed;
  }

  lemma FinishSound(v: Front)
    requires Sound(v)
    ensures Sound(AfterFinish(v).0)
  {
    hide Sound;
    if !v.finished {
      var w := v.(finished := true);
      assert Sound(w) by {
        ClosedSound(v);
      }
      if FlushStatus(w) == OK {
        SentSound(w);
      }
    }
  }

  lemma ClosedSound(v: Front)
    requires Sound(v)
    ensures Sound(v.(finished := true))
  {
    hide Decode;
  }

  /** A push into an idle stream between calls is accepted, and leaves the stream between calls; it
      goes out at the target. */
  lemma PushSteady(v: Front, f: Frame)
    requires Steady(v) && Idle(v)
    ensures var (w, st) := AfterPush(v, f);
            && st == OK && Steady(w) && w.pushed == v.pushed + [f] && w.collected == v.collected
            && w.pending == if |v.bat| + 1 == Target(v) then Target(v) else 0
  {
    hide Decode;
    PushSound(v, f);
  }

  /** For every stream between calls: a push leaves it there exactly when its frame does not complete
      the batch, or the engine takes the batch. */
  lemma PushExactly(v: Front, f: Frame)
    requires Steady(v)
    ensures Steady(AfterPush(v, f).0) <==> |v.bat| + 1 < Target(v) || FlushStatus(Gather(v, f)) == OK
    ensures |v.bat| + 1 == Target(v) ==> AfterPush(v, f).1 == FlushStatus(Gather(v, f))
  {
    hide Decode;
    PushSound(v, f);
  }

  /** A push that completes the batch while samples are in flight is refused, and leaves the buffer at
      its target. */
  lemma InFlightFills(v: Front, f: Frame)
    requires Steady(v) && v.pending > 0 && |v.bat| + 1 == Target(v)
    ensures AfterPush(v, f) == (Gather(v, f), WrongState) && |Gather(v, f).bat| == Target(v)
  {
    hide Decode;
  }

  /** A collect leaves a stream between calls. */
  lemma CollectSteady(v: Front, pcm: seq<Col>)
    requires Steady(v) && Sound(AfterCollect(v, pcm))
    ensures Steady(AfterCollect(v, pcm))
  {
  }

  lemma SteadyRoom(v: Front)
    requires Steady(v)
    ensures Sound(v) && |v.fed| <= |v.pushed| && |v.bat| < BATCH_MAX && !v.finished
  {
    hide Decode;
  }

  /** Frames gathered once n have been pushed. */
  function Left(n: nat, batch: nat): nat
    requires batch >= 1
  {
    if n == 0 then 0 else (n - 1) % batch
  }

  lemma {:induction false} SizesSum(flushes: seq<nat>, batch: nat)
    requires FlushSizes(flushes, batch)
    ensures Sum(flushes) == if flushes == [] then 0 else 1 + (|flushes| - 1) * batch
  {
    if flushes != [] {
      var n: nat := |flushes| - 1;
      SizesSum(flushes[..n], batch);
      assert n > 0 ==> (n - 1) * batch + batch == n * batch;
    }
  }

  /** How much a stream between calls has gathered depends on the number of frames alone. */
  lemma SteadyLeft(v: Front)
    requires Steady(v)
    ensures |v.bat| == Left(|v.pushed|, v.batch)
  {
    hide Decode;
    SizesSum(v.flushes, v.batch);
    if v.flushes != [] {
      Remainder(|v.flushes| - 1, v.batch, |v.bat|);
    }
  }

  lemma Remainder(k: nat, b: nat, r: nat)
    requires r < b
    ensures (k * b + r) % b == r
  {
    var q := (k * b + r) / b;
    if q < k {
      RowGap(q, k, b);
    } else if k < q {
      RowGap(k, q, b);
    }
  }

  /** What a collected stream has handed out: all but the frames still gathered. */
  lemma SteadyHandedOut(v: Front)
    requires Steady(v) && v.pending == 0
    ensures Left(|v.pushed|, v.batch) <= |v.pushed|
    ensures v.collected == Decode(v.codec.net, v.pushed[..|v.pushed| - Left(|v.pushed|, v.batch)])
  {
    hide Decode;
    SteadyLeft(v);
    assert v.pushed[..|v.pushed| - |v.bat|] == v.fed == v.fed[..|v.fed|];
  }

  /** A stream that is idle between calls can be finished. */
  lemma FinishSteady(v: Front)
    requires Steady(v) && Idle(v)
    ensures AfterFinish(v).1 == OK
  {
    hide Decode;
  }

  /** A finish, collected before, hands out the rest of the run. */
  lemma FinishDone(v: Front, pcm: seq<Col>)
    requires Sound(v) && !v.finished && AfterFinish(v).1 == OK
    requires Sound(AfterCollect(AfterFinish(v).0, pcm))
    ensures var w := AfterCollect(AfterFinish(v).0, pcm);
            w.bat == [] && w.pushed == v.pushed && w.collected == Decode(v.codec.net, v.pushed)
              && |w.collected| == FRAME_SAMPLES * |v.pushed|
  {
    hide Decode;
    var w := AfterCollect(AfterFinish(v).0, pcm);
    assert w.fed[..|w.fed|] == w.fed && w.fed + [] == w.fed;
    DecodeLength(v.codec.net, v.pushed);
  }
}
