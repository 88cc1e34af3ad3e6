/** The codec's kernels on tensors seen as sequences of columns.

    A [C,T] activation is a sequence of T columns (one value per channel); the
    transposes between channels-first and channels-last storage are then the
    identity.  Convolutions are written out as the tap sums the kernels
    accumulate, over integers; an input index outside the tensor contributes
    nothing. */
module Kernels {
  import opened Basics

  type Col = seq<int>

  function Dot(w: Col, v: Col): int {
    if w == [] || v == [] then 0 else w[0] * v[0] + Dot(w[1..], v[1..])
  }

  function Map(f: Col -> Col, xs: seq<Col>): (ys: seq<Col>)
    ensures |ys| == |xs|
  {
    seq(|xs|, i requires 0 <= i < |xs| => f(xs[i]))
  }

  function Zip(f: (Col, Col) -> Col, xs: seq<Col>, ys: seq<Col>): (zs: seq<Col>)
    requires |xs| == |ys|
    ensures |zs| == |xs|
  {
    seq(|xs|, i requires 0 <= i < |xs| => f(xs[i], ys[i]))
  }

  /** Residual addition: s2pdk_add_ip adds y into x. */
  function AddCol(x: Col, y: Col): Col {
    seq(|x|, i requires 0 <= i < |x| => x[i] + (if i < |y| then y[i] else 0))
  }

  // ---- stride-one convolution ------------------------------------------

  /** Dense weights give one channel vector per (output channel, tap);
      depthwise weights one number. */
  datatype Weights = Dense(wd: (nat, nat) -> Col) | Depthwise(ws: (nat, nat) -> int)

  datatype ConvW = ConvW(cout: nat, w: Weights, b: nat -> int)

  function Term(c: ConvW, co: nat, kk: nat, col: Col): int {
    match c.w
    case Dense(wd) => Dot(wd(co, kk), col)
    case Depthwise(ws) => if co < |col| then ws(co, kk) * col[co] else 0
  }

  function TapAt(t0: int, kk: nat, dil: nat): int {
    t0 + kk * dil
  }

  /** Taps 0..n-1 of one output, skipping those outside the input. */
  function TapSum(c: ConvW, xs: seq<Col>, t0: int, dil: nat, co: nat, n: nat): int {
    if n == 0 then 0
    else
      var ti := TapAt(t0, n - 1, dil);
      TapSum(c, xs, t0, dil, co, n - 1)
      + if 0 <= ti < |xs| then Term(c, co, n - 1, xs[ti]) else 0
  }

  function ConvAt(c: ConvW, k: nat, dil: nat, xs: seq<Col>, t0: int): Col {
    seq(c.cout, co requires 0 <= co < c.cout => c.b(co) + TapSum(c, xs, t0, dil, co, k))
  }

  /** s2pdk_conv1d / s2pdk_dwconv1d at stride 1: output `to` starts its taps at to - leftpad. */
  function Conv1d(c: ConvW, k: nat, dil: nat, leftpad: nat, xs: seq<Col>, tout: nat): (ys: seq<Col>)
    ensures |ys| == tout
  {
    seq(tout, to requires 0 <= to < tout => ConvAt(c, k, dil, xs, to - leftpad))
  }

  /** The whole-buffer causal convolution: left pad (k-1)*dil, same length out. */
  function Causal(c: ConvW, k: nat, dil: nat, xs: seq<Col>): (ys: seq<Col>)
    requires k >= 1
    ensures |ys| == |xs|
  {
    Conv1d(c, k, dil, (k - 1) * dil, xs, |xs|)
  }

  // ---- transposed convolution ------------------------------------------

  datatype TConvW = TConvW(cout: nat, wt: (nat, nat) -> Col, bt: nat -> int)

  /** What input column `col` scatters to the output lying `off` after its first tap. */
  function Scatter(c: TConvW, k: nat, co: nat, off: int, col: Col): int {
    if 0 <= off < k then Dot(c.wt(co, off), col) else 0
  }

  function ScatterSum(c: TConvW, k: nat, s: nat, xs: seq<Col>, co: nat, to: int, n: nat): int
    requires n <= |xs|
  {
    if n == 0 then 0
    else ScatterSum(c, k, s, xs, co, to, n - 1) + Scatter(c, k, co, to - (n - 1) * s, xs[n - 1])
  }

  function TConvAt(c: TConvW, k: nat, s: nat, xs: seq<Col>, to: int): Col {
    seq(c.cout, co requires 0 <= co < c.cout => c.bt(co) + ScatterSum(c, k, s, xs, co, to, |xs|))
  }

  /** s2pdk_tconv1d: raw_out[ti*s + kk] += w[kk] * in[ti], cropped to tout columns. */
  function TConv(c: TConvW, k: nat, s: nat, xs: seq<Col>, tout: nat): (ys: seq<Col>)
    ensures |ys| == tout
  {
    seq(tout, to requires 0 <= to < tout => TConvAt(c, k, s, xs, to))
  }

  function Upsample(c: TConvW, k: nat, s: nat, xs: seq<Col>): (ys: seq<Col>)
    ensures |ys| == |xs| * s
  {
    TConv(c, k, s, xs, |xs| * s)
  }

  // ---- input histories --------------------------------------------------

  /** The last `len` columns of a signal preceded by the zero-initialised history. */
  function HistOf(len: nat, z: nat, sig: seq<Col>): (h: seq<Col>)
    ensures |h| == len
  {
    (seq(len, _ => Zeros(z)) + sig)[|sig|..]
  }

  function PadTap(xs: seq<Col>, ti: int, z: nat): Col {
    if 0 <= ti < |xs| then xs[ti] else Zeros(z)
  }

  // ---- lemmas -----------------------------------------------------------

  lemma {:induction false} DotZeros(w: Col, z: nat)
    ensures Dot(w, Zeros(z)) == 0
  {
    if w != [] && z != 0 {
      assert Zeros(z)[1..] == Zeros(z - 1);
      DotZeros(w[1..], z - 1);
    }
  }

  lemma TermZeros(c: ConvW, co: nat, kk: nat, z: nat)
    ensures Term(c, co, kk, Zeros(z)) == 0
  {
    match c.w
    case Dense(wd) => DotZeros(wd(co, kk), z);
    case Depthwise(_) =>
  }

  /** A tap sum depends only on the zero-padded tap columns. */
  lemma {:induction false} TapSumPadded(c: ConvW, xs: seq<Col>, tx: int, ys: seq<Col>, ty: int,
                                        dil: nat, co: nat, n: nat, z: nat)
    requires forall kk: nat :: kk < n ==> PadTap(xs, TapAt(tx, kk, dil), z) == PadTap(ys, TapAt(ty, kk, dil), z)
    ensures TapSum(c, xs, tx, dil, co, n) == TapSum(c, ys, ty, dil, co, n)
  {
    if n > 0 {
      TapSumPadded(c, xs, tx, ys, ty, dil, co, n - 1, z);
      assert PadTap(xs, TapAt(tx, n - 1, dil), z) == PadTap(ys, TapAt(ty, n - 1, dil), z);
      TermZeros(c, co, n - 1, z);
    }
  }

  lemma ConvAtPadded(c: ConvW, k: nat, dil: nat, xs: seq<Col>, tx: int, ys: seq<Col>, ty: int, z: nat)
    requires forall kk: nat :: kk < k ==> PadTap(xs, TapAt(tx, kk, dil), z) == PadTap(ys, TapAt(ty, kk, dil), z)
    ensures ConvAt(c, k, dil, xs, tx) == ConvAt(c, k, dil, ys, ty)
  {
    forall co: nat | co < c.cout
      ensures TapSum(c, xs, tx, dil, co, k) == TapSum(c, ys, ty, dil, co, k)
    {
      TapSumPadded(c, xs, tx, ys, ty, dil, co, k, z);
    }
  }

  lemma TapBound(kk: nat, k: nat, dil: nat)
    requires kk < k
    ensures 0 <= kk * dil <= (k - 1) * dil
  {
    assert (k - 1) * dil - kk * dil == (k - 1 - kk) * dil;
  }

  /** [history | new] read at e is the zero-padded whole signal read at |p| + e - len. */
  lemma ExtIndex(p: seq<Col>, q: seq<Col>, len: nat, z: nat, e: nat)
    requires p <= q
    requires e < len + |q| - |p|
    ensures (HistOf(len, z, p) + q[|p|..])[e] == PadTap(q, |p| + e - len, z)
  {
    if e < len {
      assert HistOf(len, z, p)[e] == (seq(len, _ => Zeros(z)) + p)[|p| + e];
    }
  }

  /** hist_update: the last `len` columns of [history | new] are the history of the longer signal. */
  lemma HistStep(p: seq<Col>, q: seq<Col>, len: nat, z: nat)
    requires p <= q
    ensures (HistOf(len, z, p) + q[|p|..])[|q| - |p|..] == HistOf(len, z, q)
  {
    var ext := HistOf(len, z, p) + q[|p|..];
    forall i: nat | i < len
      ensures ext[|q| - |p| + i] == HistOf(len, z, q)[i]
    {
      ExtIndex(p, q, len, z, |q| - |p| + i);
      ExtIndex(q, q, len, z, i);
      assert (HistOf(len, z, q) + q[|q|..])[i] == HistOf(len, z, q)[i];
    }
    assert ext[|q| - |p|..] == HistOf(len, z, q);
  }

  /** Convolving [history | new] without padding gives the whole-buffer columns of the new input. */
  lemma ConvStep(c: ConvW, k: nat, dil: nat, z: nat, p: seq<Col>, q: seq<Col>)
    requires k >= 1 && p <= q
    ensures Conv1d(c, k, dil, 0, HistOf((k - 1) * dil, z, p) + q[|p|..], |q| - |p|) == Causal(c, k, dil, q)[|p|..]
  {
    hide HistOf, TapSum;
    var pad := (k - 1) * dil;
    var ext := HistOf(pad, z, p) + q[|p|..];
    forall to: nat | to < |q| - |p|
      ensures ConvAt(c, k, dil, ext, to) == ConvAt(c, k, dil, q, |p| + to - pad)
    {
      forall kk: nat | kk < k
        ensures PadTap(ext, TapAt(to, kk, dil), z) == PadTap(q, TapAt(|p| + to - pad, kk, dil), z)
      {
        TapBound(kk, k, dil);
        ExtIndex(p, q, pad, z, to + kk * dil);
      }
      ConvAtPadded(c, k, dil, ext, to, q, |p| + to - pad, z);
    }
    assert Conv1d(c, k, dil, 0, ext, |q| - |p|) == Causal(c, k, dil, q)[|p|..];
  }

  /** Causality: columns already convolved never change when the signal grows. */
  lemma ConvPrefix(c: ConvW, k: nat, dil: nat, p: seq<Col>, q: seq<Col>)
    requires k >= 1 && p <= q
    ensures Causal(c, k, dil, p) <= Causal(c, k, dil, q)
  {
    var pad := (k - 1) * dil;
    forall to: nat | to < |p|
      ensures Causal(c, k, dil, p)[to] == Causal(c, k, dil, q)[to]
    {
      var t0 := to - pad;
      forall kk: nat | kk < k
        ensures PadTap(p, TapAt(t0, kk, dil), 0) == PadTap(q, TapAt(t0, kk, dil), 0)
      {
        TapBound(kk, k, dil);
      }
      ConvAtPadded(c, k, dil, p, to - pad, q, to - pad, 0);
    }
  }

  lemma MapStep(f: Col -> Col, p: seq<Col>, q: seq<Col>)
    requires p <= q
    ensures Map(f, p) <= Map(f, q) && Map(f, q[|p|..]) == Map(f, q)[|p|..]
  {
  }

  lemma ZipStep(f: (Col, Col) -> Col, p: seq<Col>, q: seq<Col>, r: seq<Col>, s: seq<Col>)
    requires p <= q && r <= s && |p| == |r| && |q| == |s|
    ensures Zip(f, p, r) <= Zip(f, q, s) && Zip(f, q[|p|..], s[|r|..]) == Zip(f, q, s)[|p|..]
  {
  }

  // ---- transposed convolution: causality and the context column ----------

  lemma Minus(a: int, b: int, s: int)
    ensures (a - b) * s == a * s - b * s
  {
  }

  /** The terms from m on of xs line up with those of ys, and the first m reach nothing. */
  lemma {:induction false} ScatterShift(c: TConvW, k: nat, s: nat, xs: seq<Col>, m: nat, ys: seq<Col>,
                                        co: nat, to: int, n: nat)
    requires m + n <= |xs| && n <= |ys| && xs[m..m + n] == ys[..n]
    requires forall i: nat :: i < m ==> Scatter(c, k, co, to - i * s, xs[i]) == 0
    ensures ScatterSum(c, k, s, xs, co, to, m + n) == ScatterSum(c, k, s, ys, co, to - m * s, n)
  {
    hide Scatter;
    if n > 0 {
      assert xs[m..m + n - 1] == xs[m..m + n][..n - 1] == ys[..n - 1];
      ScatterShift(c, k, s, xs, m, ys, co, to, n - 1);
      assert xs[m + n - 1] == xs[m..m + n][n - 1] == ys[n - 1];
      Minus(m + n - 1, m, s);
    } else if m > 0 {
      assert Scatter(c, k, co, to - (m - 1) * s, xs[m - 1]) == 0;
      ScatterShift(c, k, s, xs, m - 1, [], co, to, 0);
    }
  }

  /** Inputs whose first tap lies after `to` add nothing. */
  lemma {:induction false} ScatterLate(c: TConvW, k: nat, s: nat, xs: seq<Col>, co: nat, to: int, n: nat, m: nat)
    requires n <= m <= |xs| && to < n * s
    ensures ScatterSum(c, k, s, xs, co, to, m) == ScatterSum(c, k, s, xs, co, to, n)
  {
    if n < m {
      ScatterLate(c, k, s, xs, co, to, n, m - 1);
      assert n * s <= (m - 1) * s;
    }
  }

  lemma Fewer(a: nat, b: nat, s: nat)
    requires a <= b
    ensures a * s <= b * s
  {
  }

  /** An output column of a signal stays when the signal grows. */
  lemma ColumnStays(c: TConvW, k: nat, s: nat, p: seq<Col>, q: seq<Col>, to: nat)
    requires p <= q && to < |p| * s
    ensures TConvAt(c, k, s, p, to) == TConvAt(c, k, s, q, to)
  {
    hide ScatterSum, Scatter;
    forall co: nat | co < c.cout
      ensures ScatterSum(c, k, s, p, co, to, |p|) == ScatterSum(c, k, s, q, co, to, |q|)
    {
      ScatterLate(c, k, s, q, co, to, |p|, |q|);
      ScatterShift(c, k, s, q, 0, p, co, to, |p|);
    }
  }

  lemma UpsamplePrefix(c: TConvW, k: nat, s: nat, p: seq<Col>, q: seq<Col>)
    requires p <= q
    ensures Upsample(c, k, s, p) <= Upsample(c, k, s, q)
  {
    hide TConvAt;
    var n, m := |p| * s, |q| * s;
    Fewer(|p|, |q|, s);
    forall to: nat | to < n
      ensures TConv(c, k, s, p, n)[to] == TConv(c, k, s, q, m)[to]
    {
      ColumnStays(c, k, s, p, q, to);
    }
  }

  lemma ScatterZeros(c: TConvW, k: nat, co: nat, off: int, z: nat)
    ensures Scatter(c, k, co, off, Zeros(z)) == 0
  {
    if 0 <= off < k {
      DotZeros(c.wt(co, off), z);
    }
  }

  /** Inputs more than one column behind an output's own column do not reach it when k <= 2s. */
  lemma ScatterFar(c: TConvW, k: nat, s: nat, co: nat, to: int, j: nat, i: nat, col: Col)
    requires k <= 2 * s && j * s <= to && i + 2 <= j
    ensures Scatter(c, k, co, to - i * s, col) == 0
  {
    assert i * s + 2 * s == (i + 2) * s <= j * s;
  }

  /** One new output: the sum over [context | new] equals the whole-buffer sum. */
  lemma ContextSum(c: TConvW, k: nat, s: nat, z: nat, p: seq<Col>, q: seq<Col>, co: nat, to: int)
    requires p <= q && k <= 2 * s && |p| * s <= to
    ensures var ext := HistOf(1, z, p) + q[|p|..];
            ScatterSum(c, k, s, ext, co, to - (|p| - 1) * s, |ext|)
              == ScatterSum(c, k, s, q, co, to, |q|)
  {
    hide Scatter, ScatterSum;
    var ext := HistOf(1, z, p) + q[|p|..];
    var n := |q| - |p|;
    if |p| == 0 {
      assert ext == [Zeros(z)] + q;
      ScatterZeros(c, k, co, to + s, z);
      ScatterShift(c, k, s, ext, 1, q, co, to + s, n);
    } else {
      var m: nat := |p| - 1;
      assert HistOf(1, z, p) == [p[m]];
      forall i: nat | i < m
        ensures Scatter(c, k, co, to - i * s, q[i]) == 0
      {
        ScatterFar(c, k, s, co, to, |p|, i, q[i]);
      }
      assert q[m..m + n + 1] == ext;
      ScatterShift(c, k, s, q, m, ext, co, to, n + 1);
    }
  }

  lemma ContextColumn(c: TConvW, k: nat, s: nat, z: nat, p: seq<Col>, q: seq<Col>, to: nat)
    requires p <= q && k <= 2 * s
    ensures TConvAt(c, k, s, HistOf(1, z, p) + q[|p|..], s + to) == TConvAt(c, k, s, q, |p| * s + to)
  {
    var ext := HistOf(1, z, p) + q[|p|..];
    var near, far, n := s + to, |p| * s + to, |ext|;
    forall co: nat | co < c.cout
      ensures ScatterSum(c, k, s, ext, co, near, n) == ScatterSum(c, k, s, q, co, far, |q|)
    {
      ContextSum(c, k, s, z, p, q, co, |p| * s + to);
      assert |p| * s + to - (|p| - 1) * s == s + to;
    }
  }

  /** Dropping the first `s` outputs of the transposed convolution of [context | new]
      leaves exactly the whole-buffer columns of the new input. */
  lemma UpsampleStep(c: TConvW, k: nat, s: nat, z: nat, p: seq<Col>, q: seq<Col>)
    requires p <= q && k <= 2 * s
    ensures var n := |q| - |p|;
            var ext := HistOf(1, z, p) + q[|p|..];
            TConv(c, k, s, ext, n * s + s)[s..] == Upsample(c, k, s, q)[|p| * s..]
  {
    var n := |q| - |p|;
    var ext := HistOf(1, z, p) + q[|p|..];
    assert n * s + |p| * s == |q| * s;
    forall to: nat | to < n * s
      ensures TConv(c, k, s, ext, n * s + s)[s..][to] == Upsample(c, k, s, q)[|p| * s..][to]
    {
      ContextColumn(c, k, s, z, p, q, to);
    }
    assert TConv(c, k, s, ext, n * s + s)[s..] == Upsample(c, k, s, q)[|p| * s..];
  }

  lemma LocalColumn(c: TConvW, k: nat, s: nat, p: seq<Col>, q: seq<Col>, to: nat)
    requires p <= q && k <= s
    ensures TConvAt(c, k, s, q[|p|..], to) == TConvAt(c, k, s, q, |p| * s + to)
  {
    var far, n := |p| * s + to, |q| - |p|;
    forall co: nat | co < c.cout
      ensures ScatterSum(c, k, s, q[|p|..], co, to, n) == ScatterSum(c, k, s, q, co, far, |q|)
    {
      forall i: nat | i < |p|
        ensures Scatter(c, k, co, |p| * s + to - i * s, q[i]) == 0
      {
        assert i * s + s == (i + 1) * s <= |p| * s;
      }
      ScatterShift(c, k, s, q, |p|, q[|p|..], co, |p| * s + to, |q| - |p|);
    }
  }

  /** With k <= s an output reads one input column only, so no context is needed. */
  lemma UpsampleLocal(c: TConvW, k: nat, s: nat, p: seq<Col>, q: seq<Col>)
    requires p <= q && k <= s
    ensures Upsample(c, k, s, q[|p|..]) == Upsample(c, k, s, q)[|p| * s..]
  {
    var n := |q| - |p|;
    var xs := q[|p|..];
    assert n * s + |p| * s == |q| * s;
    forall to: nat | to < n * s
      ensures Upsample(c, k, s, xs)[to] == Upsample(c, k, s, q)[|p| * s..][to]
    {
      LocalColumn(c, k, s, p, q, to);
    }
    assert Upsample(c, k, s, xs) == Upsample(c, k, s, q)[|p| * s..];
  }

  // ---- the phase-partitioned kernel equals the scatter sum ----------------

  /** Output j*s + phase as the kernel gathers it: taps phase + m*s, input j - m. */
  function Gather(c: TConvW, k: nat, s: nat, xs: seq<Col>, co: nat, j: nat, phase: nat, m: nat): int
    requires s >= 1
    decreases k - (phase + m * s)
  {
    var kk := phase + m * s;
    if kk >= k then 0
    else
      assert (m + 1) * s == m * s + s;
      (if 0 <= j - m < |xs| then Dot(c.wt(co, kk), xs[j - m]) else 0)
      + Gather(c, k, s, xs, co, j, phase, m + 1)
  }

  function Reach(j: nat, m: nat, n: nat): nat {
    if m > j then 0 else if j - m + 1 <= n then j - m + 1 else n
  }

  lemma {:induction false} ScatterNothing(c: TConvW, k: nat, s: nat, xs: seq<Col>, co: nat, to: int, n: nat)
    requires n <= |xs| && k <= to - (n - 1) * s
    ensures ScatterSum(c, k, s, xs, co, to, n) == 0
  {
    if n > 0 {
      assert (n - 1) * s - (n - 2) * s == s;
      ScatterNothing(c, k, s, xs, co, to, n - 1);
    }
  }

  /** The taps are used up: the inputs still within reach add nothing. */
  lemma GatherEnds(c: TConvW, k: nat, s: nat, xs: seq<Col>, co: nat, j: nat, phase: nat, m: nat)
    requires k <= phase + m * s
    ensures ScatterSum(c, k, s, xs, co, j * s + phase, Reach(j, m, |xs|)) == 0
  {
    hide ScatterSum;
    var n := Reach(j, m, |xs|);
    if n > 0 {
      Minus(j, m, s);
      Fewer(n - 1, j - m, s);
      ScatterNothing(c, k, s, xs, co, j * s + phase, n);
    } else {
      ScatterNone(c, k, s, xs, co, j * s + phase);
    }
  }

  lemma ScatterNone(c: TConvW, k: nat, s: nat, xs: seq<Col>, co: nat, to: int)
    ensures ScatterSum(c, k, s, xs, co, to, 0) == 0
  {
  }

  /** One more tap brings one more input within reach. */
  lemma GatherTap(c: TConvW, k: nat, s: nat, xs: seq<Col>, co: nat, j: nat, phase: nat, m: nat)
    requires phase + m * s < k
    ensures ScatterSum(c, k, s, xs, co, j * s + phase, Reach(j, m, |xs|))
         == (if 0 <= j - m < |xs| then Dot(c.wt(co, phase + m * s), xs[j - m]) else 0)
            + ScatterSum(c, k, s, xs, co, j * s + phase, Reach(j, m + 1, |xs|))
  {
    hide Dot;
    if 0 <= j - m < |xs| {
      Minus(j, m, s);
      assert Reach(j, m, |xs|) == j - m + 1 && Reach(j, m + 1, |xs|) == j - m;
    }
  }

  lemma {:induction false} GatherScatter(c: TConvW, k: nat, s: nat, xs: seq<Col>, co: nat, j: nat, phase: nat, m: nat)
    requires s >= 1 && phase < s
    ensures Gather(c, k, s, xs, co, j, phase, m) == ScatterSum(c, k, s, xs, co, j * s + phase, Reach(j, m, |xs|))
    decreases k - (phase + m * s)
  {
    hide Dot, ScatterSum;
    if phase + m * s >= k {
      GatherEnds(c, k, s, xs, co, j, phase, m);
    } else {
      assert (m + 1) * s == m * s + s;
      GatherTap(c, k, s, xs, co, j, phase, m);
      GatherScatter(c, k, s, xs, co, j, phase, m + 1);
    }
  }

  /** Every output of the transposed convolution, as the kernel computes it: one phase, every s-th tap. */
  lemma TConvIsGather(c: TConvW, k: nat, s: nat, xs: seq<Col>, tout: nat, j: nat, phase: nat, co: nat)
    requires phase < s && j * s + phase < tout && co < c.cout
    ensures TConv(c, k, s, xs, tout)[j * s + phase][co] == c.bt(co) + Gather(c, k, s, xs, co, j, phase, 0)
  {
    hide Gather, Dot;
    GatherScatter(c, k, s, xs, co, j, phase, 0);
    if j + 1 < |xs| {
      ScatterLate(c, k, s, xs, co, j * s + phase, j + 1, |xs|);
    }
  }
}
