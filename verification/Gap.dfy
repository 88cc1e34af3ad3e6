/** The gap filter between the chunks of a long-form response: its code works
    on blocks with a held-back window; its meaning is a per-sample automaton,
    so it cannot depend on how the audio was cut into blocks. */
module Gap {
  import opened Basics

  const HOLD: nat := 132300
  const HALF: nat := 66150
  const LEAD_MAX: nat := 88200
  const SIL_PEAK: int := 400
  const GAP_FRAME: nat := 441
  const ZERO_BLOCK: nat := 4410

  predicate Silent(x: int) {
    -SIL_PEAK <= x <= SIL_PEAK
  }

  /** Length of the silent prefix. */
  function LeadLen(p: seq<int>): (n: nat)
    ensures n <= |p|
  {
    if p == [] || !Silent(p[0]) then 0 else 1 + LeadLen(p[1..])
  }

  /** Length of the silent suffix. */
  function TailLen(p: seq<int>): (n: nat)
    ensures n <= |p|
  {
    if p == [] || !Silent(p[|p| - 1]) then 0 else 1 + TailLen(p[..|p| - 1])
  }

  ghost predicate LeadsWith(p: seq<int>, n: nat) {
    n <= |p| && (forall i: nat :: i < n ==> Silent(p[i])) && (n < |p| ==> !Silent(p[n]))
  }

  ghost predicate EndsWith(p: seq<int>, n: nat) {
    n <= |p| && (forall i: nat :: |p| - n <= i < |p| ==> Silent(p[i])) && (n < |p| ==> !Silent(p[|p| - n - 1]))
  }

  /** The two lengths are the exact, maximal ones. */
  lemma {:induction false} LeadMaximal(p: seq<int>, n: nat)
    ensures LeadsWith(p, n) <==> n == LeadLen(p)
  {
    if p != [] && Silent(p[0]) {
      LeadMaximal(p[1..], LeadLen(p[1..]));
      var m := LeadLen(p);
      assert forall i: nat :: 0 < i < m ==> p[i] == p[1..][i - 1];
      assert LeadsWith(p, m);
      assert LeadsWith(p, n) ==> !(n < m) && !(m < n);
    }
  }

  lemma {:induction false} TailMaximal(p: seq<int>, n: nat)
    ensures EndsWith(p, n) <==> n == TailLen(p)
  {
    if p != [] && Silent(p[|p| - 1]) {
      var q := p[..|p| - 1];
      TailMaximal(q, TailLen(q));
      var m := TailLen(p);
      assert forall i: nat :: i < |q| ==> p[i] == q[i];
      assert EndsWith(p, m);
      assert EndsWith(p, n) ==> !(n < m) && !(m < n);
    }
  }

  function MinN(a: nat, b: nat): nat {
    if a < b then a else b
  }

  /** sil_lead: the 10 ms frame scan finds the exact silent prefix. */
  method SilLead(p: seq<int>) returns (r: nat)
    ensures r == LeadLen(p)
  {
    var i := 0;
    while i < |p|
      invariant i <= |p|
      invariant forall j: nat :: j < i ==> Silent(p[j])
    {
      var f := MinN(|p| - i, GAP_FRAME);
      var k := 0;
      while k < f
        invariant k <= f
        invariant forall j: nat :: j < i + k ==> Silent(p[j])
      {
        if p[i + k] > SIL_PEAK || p[i + k] < -SIL_PEAK {
          LeadMaximal(p, i + k);
          return i + k;
        }
        k := k + 1;
      }
      i := i + f;
    }
    LeadMaximal(p, |p|);
    return |p|;
  }

  /** sil_tail: the same scan from the end. */
  method SilTail(p: seq<int>) returns (r: nat)
    ensures r == TailLen(p)
  {
    var i := |p|;
    while i > 0
      invariant 0 <= i <= |p|
      invariant forall j: nat :: i <= j < |p| ==> Silent(p[j])
    {
      var f := MinN(i, GAP_FRAME);
      var k := 0;
      while k < f
        invariant k <= f
        invariant forall j: nat :: i - k <= j < |p| ==> Silent(p[j])
      {
        if p[i - 1 - k] > SIL_PEAK || p[i - 1 - k] < -SIL_PEAK {
          TailMaximal(p, |p| - (i - k));
          return |p| - (i - k);
        }
        k := k + 1;
      }
      i := i - f;
    }
    TailMaximal(p, |p|);
    return |p|;
  }

  // ---- the automaton ---------------------------------------------------------------

  /** `on`: gap_hold allocated; `lead`/`skipped`: trimming a later chunk's leading silence. */
  datatype State = State(on: bool, buffered: bool, hold: seq<int>, lead: bool, skipped: nat, out: seq<int>)

  ghost predicate Ok(g: State) {
    && |g.hold| <= HOLD
    && (g.lead ==> g.on && g.skipped < LEAD_MAX)
    && (!g.on || !g.buffered ==> g.hold == [])
  }

  /** One sample past the lead trim. */
  function Keep1(g: State, x: int): State {
    if !g.on || !g.buffered then g.(out := g.out + [x])
    else if |g.hold| >= HOLD then g.(out := g.out + g.hold[..HALF], hold := g.hold[HALF..] + [x])
    else g.(hold := g.hold + [x])
  }

  function Feed1(g: State, x: int): State {
    if g.lead && Silent(x) then g.(skipped := g.skipped + 1, lead := g.skipped + 1 < LEAD_MAX)
    else Keep1(g.(lead := false), x)
  }

  function Feed(g: State, xs: seq<int>): State
    decreases |xs|
  {
    if xs == [] then g else Feed(Feed1(g, xs[0]), xs[1..])
  }

  /** A non-last chunk ended: drop the silent end of the window, insert the gap, arm the lead trim. */
  function Boundary(g: State, gap: nat): State {
    if !g.on then g
    else
      var kept := if g.buffered then g.hold[..|g.hold| - TailLen(g.hold)] else [];
      g.(out := g.out + kept + Zeros(gap), hold := if g.buffered then [] else g.hold, lead := true, skipped := 0)
  }

  /** The last chunk ended: release the window. */
  function Flush(g: State): State {
    g.(out := g.out + g.hold, hold := [])
  }

  // ---- block independence ------------------------------------------------------------

  /** However the audio is cut, feeding block by block is feeding all of it. */
  lemma {:induction false} FeedConcat(g: State, a: seq<int>, b: seq<int>)
    ensures Feed(g, a + b) == Feed(Feed(g, a), b)
    decreases |a|
  {
    if a == [] {
      assert a + b == b;
    } else {
      assert (a + b)[1..] == a[1..] + b;
      FeedConcat(Feed1(g, a[0]), a[1..], b);
    }
  }

  lemma {:induction false} FeedOk(g: State, xs: seq<int>)
    requires Ok(g)
    ensures Ok(Feed(g, xs))
    decreases |xs|
  {
    if xs != [] {
      FeedOk(Feed1(g, xs[0]), xs[1..]);
    }
  }

  lemma {:induction false} FeedFrame(g: State, xs: seq<int>)
    ensures var r := Feed(g, xs); r.on == g.on && r.buffered == g.buffered && g.out <= r.out && (!g.lead ==> !r.lead)
    decreases |xs|
  {
    if xs != [] {
      FeedFrame(Feed1(g, xs[0]), xs[1..]);
    }
  }

  /** Past the trim, without a window, samples go straight out. */
  lemma {:induction false} FeedThrough(g: State, xs: seq<int>)
    requires !g.lead && (!g.on || !g.buffered)
    ensures Feed(g, xs) == g.(out := g.out + xs)
    decreases |xs|
  {
    if xs == [] {
      assert g.out + xs == g.out;
    } else {
      FeedThrough(Feed1(g, xs[0]), xs[1..]);
      assert g.out + [xs[0]] + xs[1..] == g.out + xs;
    }
  }

  /** Past the trim, samples that fit just fill the window. */
  lemma {:induction false} FeedFill(g: State, xs: seq<int>)
    requires !g.lead && g.on && g.buffered && |g.hold| + |xs| <= HOLD
    ensures Feed(g, xs) == g.(hold := g.hold + xs)
    decreases |xs|
  {
    if xs == [] {
      assert g.hold + xs == g.hold;
    } else {
      FeedFill(Feed1(g, xs[0]), xs[1..]);
      assert g.hold + [xs[0]] + xs[1..] == g.hold + xs;
    }
  }

  /** A full window with more to come forwards its oldest half first. */
  lemma FeedForward(g: State, xs: seq<int>)
    requires !g.lead && g.on && g.buffered && |g.hold| == HOLD && xs != []
    ensures Feed(g, xs) == Feed(g.(out := g.out + g.hold[..HALF], hold := g.hold[HALF..]), xs)
  {
    var h := g.(out := g.out + g.hold[..HALF], hold := g.hold[HALF..]);
    assert Feed1(g, xs[0]) == Feed1(h, xs[0]);
  }

  /** What the trim leaves of the filter after t more samples of a block of n. */
  function Skipped(g: State, t: nat, n: nat): State {
    g.(skipped := g.skipped + t, lead := t == n && g.skipped + t < LEAD_MAX)
  }

  /** The trim takes min(leading silence, what is left of the budget). */
  lemma {:induction false} FeedLead(g: State, xs: seq<int>)
    requires g.lead && g.skipped < LEAD_MAX
    ensures var t := MinN(LeadLen(xs), LEAD_MAX - g.skipped);
            Feed(g, xs) == Feed(Skipped(g, t, |xs|), xs[t..])
    decreases |xs|
  {
    hide Keep1;
    var t := MinN(LeadLen(xs), LEAD_MAX - g.skipped);
    if xs == [] {
      assert Skipped(g, 0, 0) == g;
    } else if !Silent(xs[0]) {
      assert t == 0 && xs[t..] == xs;
      var s := Skipped(g, t, |xs|);
      assert Feed1(g, xs[0]) == Feed1(s, xs[0]);
      assert Feed(g, xs) == Feed(s, xs);
    } else {
      var h := Feed1(g, xs[0]);
      if h.lead {
        FeedLead(h, xs[1..]);
        assert xs[1..][t - 1..] == xs[t..];
        assert Skipped(h, t - 1, |xs| - 1) == Skipped(g, t, |xs|);
        assert Feed(g, xs) == Feed(h, xs[1..]);
      } else {
        assert t == 1 && Skipped(g, t, |xs|) == h;
        assert Feed(g, xs) == Feed(h, xs[t..]);
      }
    }
  }

  // ---- what the filter makes of whole takes ---------------------------------------------

  /** How much of a take is held back after T kept samples: a function of the count alone, since
      audio leaves the window in halves. */
  function HoldLen(T: nat): (h: nat)
    ensures h <= T && h <= HOLD
    ensures T > HOLD ==> HALF < h
  {
    if T <= HOLD then T else HALF + 1 + (T - 1) % HALF
  }

  lemma HoldStep(T: nat)
    ensures HoldLen(T + 1) == if HoldLen(T) == HOLD then HALF + 1 else HoldLen(T) + 1
  {
    if T >= HOLD {
      assert T % HALF == if (T - 1) % HALF == HALF - 1 then 0 else (T - 1) % HALF + 1;
    }
  }

  /** The length of the window after T samples past the trim. */
  function Window(g: State, T: nat): nat {
    if g.on && g.buffered then HoldLen(T) else 0
  }

  lemma KeepOne(g: State, x: int, T: nat)
    requires Ok(g) && |g.hold| == Window(g, T)
    ensures var r := Keep1(g, x); r.out + r.hold == g.out + g.hold + [x] && |r.hold| == Window(g, T + 1)
  {
    HoldStep(T);
    if |g.hold| >= HOLD {
      assert g.hold[..HALF] + g.hold[HALF..] == g.hold;
    }
  }

  /** Past the trim nothing is lost or reordered, and the window length depends on counts only. */
  lemma {:induction false} FeedConserve(g: State, xs: seq<int>, T: nat)
    requires Ok(g) && !g.lead && |g.hold| == Window(g, T)
    ensures var r := Feed(g, xs);
            r.out + r.hold == g.out + g.hold + xs && |r.hold| == Window(g, T + |xs|)
    decreases |xs|
  {
    if xs != [] {
      KeepOne(g, xs[0], T);
      FeedOk(g, [xs[0]]);
      FeedConserve(Keep1(g, xs[0]), xs[1..], T + 1);
      assert g.out + g.hold + [xs[0]] + xs[1..] == g.out + g.hold + xs;
    } else {
      assert g.out + g.hold + xs == g.out + g.hold;
    }
  }

  /** A take without the leading silence a later chunk loses. */
  function Trimmed(t: seq<int>, lead: bool): seq<int> {
    if lead then t[MinN(LeadLen(t), LEAD_MAX)..] else t
  }

  /** Where the lead trim stops, the rest of the take is kept whole. */
  lemma FeedSkip(g: State, t: seq<int>)
    requires g.lead && g.skipped == 0
    ensures var n := MinN(LeadLen(t), LEAD_MAX);
            Feed(g, t) == Feed(g.(skipped := n, lead := n == |t| && n < LEAD_MAX), t[n..])
  {
    var n := MinN(LeadLen(t), LEAD_MAX);
    assert Skipped(g, n, |t|) == g.(skipped := n, lead := n == |t| && n < LEAD_MAX);
    FeedLead(g, t);
  }

  /** Any part of a take, fed after a boundary in any number of blocks. */
  lemma FeedTake(g: State, t: seq<int>)
    requires Ok(g) && g.hold == [] && (g.lead ==> g.skipped == 0)
    ensures var r, k := Feed(g, t), Trimmed(t, g.lead);
            r.out + r.hold == g.out + k && |r.hold| == Window(g, |k|)
  {
    if g.lead {
      FeedSkip(g, t);
      var n := MinN(LeadLen(t), LEAD_MAX);
      var h := g.(skipped := n, lead := n == |t| && n < LEAD_MAX);
      if h.lead {
        assert t[n..] == [];
        assert g.out + g.hold == g.out + t[n..];
      } else {
        FeedConserve(h, t[n..], 0);
        assert g.out + g.hold == g.out;
      }
    } else {
      FeedConserve(g, t, 0);
      assert g.out + g.hold == g.out;
    }
  }

  /** What a finished take contributes: later takes lose their leading silence (at most LEAD_MAX),
      non-last takes of a buffered response lose the silence that ends their held window. */
  function Piece(t: seq<int>, first: bool, last: bool, buffered: bool): seq<int> {
    if last || !buffered then Trimmed(t, !first) else Closed(Trimmed(t, !first))
  }

  /** Kept audio without the silence at the end of its held window. */
  function Closed(a: seq<int>): seq<int> {
    a[..|a| - TailLen(a[|a| - HoldLen(|a|)..])]
  }

  /** The response up to the start of chunk k. */
  function JoinTo(takes: seq<seq<int>>, k: nat, on: bool, buffered: bool, gap: nat): seq<int>
    requires k <= |takes|
  {
    if k == 0 then []
    else if !on then JoinTo(takes, k - 1, on, buffered, gap) + takes[k - 1]
    else JoinTo(takes, k - 1, on, buffered, gap) + Piece(takes[k - 1], k == 1, false, buffered) + Zeros(gap)
  }

  /** The complete response of n takes: every piece in order, exactly `gap` zeros at each join. */
  function Join(takes: seq<seq<int>>, on: bool, buffered: bool, gap: nat): seq<int>
    requires |takes| > 0
  {
    var n: nat := |takes| - 1;
    JoinTo(takes, n, on, buffered, gap) + if on then Piece(takes[n], n == 0, true, buffered) else takes[n]
  }

  function Start(on: bool, buffered: bool): State {
    State(on, buffered, [], false, 0, [])
  }

  /** The filter at the start of chunk k, all earlier takes fed and closed. */
  function Base(takes: seq<seq<int>>, k: nat, on: bool, buffered: bool, gap: nat): State
    requires k <= |takes|
  {
    if k == 0 then Start(on, buffered)
    else Boundary(Feed(Base(takes, k - 1, on, buffered, gap), takes[k - 1]), gap)
  }

  lemma {:induction false} BaseIs(takes: seq<seq<int>>, k: nat, on: bool, buffered: bool, gap: nat)
    requires k <= |takes|
    ensures Base(takes, k, on, buffered, gap) ==
      State(on, buffered, [], on && k > 0, 0, JoinTo(takes, k, on, buffered, gap))
  {
    if k > 0 {
      BaseIs(takes, k - 1, on, buffered, gap);
      var g, t := Base(takes, k - 1, on, buffered, gap), takes[k - 1];
      if on {
        CloseTake(g, t, k == 1, gap);
      } else {
        FeedThrough(g, t);
      }
    }
  }

  /** Splitting a sequence known by its concatenation. */
  lemma SplitAt(o: seq<int>, h: seq<int>, p: seq<int>, a: seq<int>, n: nat)
    requires o + h == p + a && |h| == n <= |a|
    ensures o == p + a[..|a| - n] && h == a[|a| - n..]
  {
    assert o == (o + h)[..|o|] == (p + a)[..|p| + |a| - n];
    assert h == (o + h)[|o|..] == (p + a)[|p| + |a| - n..];
  }

  lemma CutBack(out: seq<int>, a: seq<int>, n: nat, z: nat)
    requires z <= n <= |a|
    ensures out + a[..|a| - n] + a[|a| - n..][..n - z] == out + a[..|a| - z]
  {
    assert a[..|a| - n] + a[|a| - n..][..n - z] == a[..|a| - z];
  }

  lemma CloseAt(r: State, out: seq<int>, a: seq<int>, gap: nat, n: nat)
    requires r.on && r.buffered && r.out + r.hold == out + a && |r.hold| == n <= |a|
    ensures Boundary(r, gap)
         == State(true, true, [], true, 0, out + a[..|a| - TailLen(a[|a| - n..])] + Zeros(gap))
  {
    SplitAt(r.out, r.hold, out, a, n);
    CutBack(out, a, n, TailLen(r.hold));
  }

  lemma CloseBuffered(r: State, out: seq<int>, a: seq<int>, gap: nat)
    requires r.on && r.buffered && r.out + r.hold == out + a && |r.hold| == HoldLen(|a|)
    ensures Boundary(r, gap) == State(true, true, [], true, 0, out + Closed(a) + Zeros(gap))
  {
    CloseAt(r, out, a, gap, HoldLen(|a|));
  }

  lemma CloseStreamed(r: State, out: seq<int>, a: seq<int>, gap: nat)
    requires r.on && !r.buffered && r.out == out + a && r.hold == []
    ensures Boundary(r, gap) == State(true, false, [], true, 0, out + a + Zeros(gap))
  {
    assert r.out + [] == r.out;
  }

  /** Closing a take at a boundary. */
  lemma CloseTake(g: State, t: seq<int>, first: bool, gap: nat)
    requires Ok(g) && g.on && g.hold == [] && g.skipped == 0 && g.lead == !first
    ensures Boundary(Feed(g, t), gap)
         == State(true, g.buffered, [], true, 0, g.out + Piece(t, first, false, g.buffered) + Zeros(gap))
  {
    FeedFrame(g, t);
    FeedTake(g, t);
    var r, a := Feed(g, t), Trimmed(t, g.lead);
    if g.buffered {
      CloseBuffered(r, g.out, a, gap);
    } else {
      assert r.hold == [];
      assert r.out + r.hold == r.out;
      CloseStreamed(r, g.out, a, gap);
    }
  }

  /** The completed response is the join of the takes, whatever the blocks were. */
  lemma JoinIs(takes: seq<seq<int>>, on: bool, buffered: bool, gap: nat)
    requires |takes| > 0
    ensures Flush(Feed(Base(takes, |takes| - 1, on, buffered, gap), takes[|takes| - 1])).out ==
      Join(takes, on, buffered, gap)
  {
    var n: nat := |takes| - 1;
    BaseIs(takes, n, on, buffered, gap);
    FeedTake(Base(takes, n, on, buffered, gap), takes[n]);
  }

  /** Mid-response: everything emitted or held is the join of the finished takes and the trimmed
      part of the current one; only a buffered response holds anything back. */
  lemma SoFar(takes: seq<seq<int>>, k: nat, part: seq<int>, on: bool, buffered: bool, gap: nat)
    requires k <= |takes|
    ensures var r := Feed(Base(takes, k, on, buffered, gap), part);
            r.out + r.hold == JoinTo(takes, k, on, buffered, gap) + Trimmed(part, on && k > 0)
            && (!on || !buffered ==> r.hold == [])
  {
    BaseIs(takes, k, on, buffered, gap);
    FeedTake(Base(takes, k, on, buffered, gap), part);
    FeedOk(Base(takes, k, on, buffered, gap), part);
    FeedFrame(Base(takes, k, on, buffered, gap), part);
  }
}
