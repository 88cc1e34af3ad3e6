/** What the decode means, in numbers and sums: which code a codebook is asked for, what one output
    sample of a convolution adds up, what a query may see, and the whole chain of stages. */
module CodecMeaning {
  import opened Basics
  import opened Kernels
  import opened Codec
  import opened Whole
  import opened Incremental

  // ---- codes -----------------------------------------------------------------------------------

  /** The semantic codebook has 4096 entries, each residual one 1024. */
  predicate InRange(q: nat, v: int) {
    0 <= v <= if q == 0 then 4095 else 1023
  }

  predicate FrameInRange(f: Frame) {
    forall q: nat :: q < 10 ==> InRange(q, f[q])
  }

  function Dist(a: int, b: int): nat {
    if a < b then b - a else a - b
  }

  ghost predicate NearestCode(q: nat, v: int, g: int) {
    InRange(q, g) && forall w: int :: InRange(q, w) ==> Dist(v, g) <= Dist(v, w)
  }

  /** Every code of g is the one of its codebook nearest to that of f. */
  ghost predicate Nearest(f: Frame, g: Frame) {
    forall q: nat :: q < 10 ==> NearestCode(q, f[q], g[q])
  }

  /** There is exactly one such frame, and a frame in range is its own. */
  lemma NearestIs(f: Frame) returns (g: Frame)
    ensures Nearest(f, g) && (FrameInRange(f) ==> g == f)
    ensures forall h: Frame :: Nearest(f, h) ==> h == g
  {
    g := seq(10, q requires 0 <= q < 10 => NearestTo(q, f[q]));
    forall q: nat | q < 10
      ensures NearestCode(q, f[q], g[q])
      ensures InRange(q, f[q]) ==> g[q] == f[q]
    {
    }
    forall h: Frame | Nearest(f, h)
      ensures h == g
    {
      forall q: nat | q < 10
        ensures h[q] == g[q]
      {
        OneNearest(q, f[q], g[q], h[q]);
      }
    }
  }

  function NearestTo(q: nat, v: int): int {
    if v < 0 then 0 else if InRange(q, v) then v else if q == 0 then 4095 else 1023
  }

  lemma OneNearest(q: nat, v: int, g: int, h: int)
    requires NearestCode(q, v, g) && NearestCode(q, v, h)
    ensures g == h
  {
    assert Dist(v, g) <= Dist(v, h) && Dist(v, h) <= Dist(v, g);
    assert NearestCode(q, v, NearestTo(q, v));
    assert InRange(q, NearestTo(q, v));
    assert Dist(v, g) <= Dist(v, NearestTo(q, v)) && Dist(v, h) <= Dist(v, NearestTo(q, v));
  }

  /** The decoder's own clamping is that frame. */
  lemma ClampIsNearest(f: Frame, g: Frame)
    requires Nearest(f, g)
    ensures ClampFrame(f) == g
  {
    forall q: nat | q < 10
      ensures ClampFrame(f)[q] == g[q]
    {
      assert NearestCode(q, f[q], ClampFrame(f)[q]);
      OneNearest(q, f[q], ClampFrame(f)[q], g[q]);
    }
  }

  /** A frame is looked up under its nearest codes, and decodes as they do. */
  lemma LooksUpNearest(net: Net, fs: seq<Frame>, gs: seq<Frame>)
    requires |gs| == |fs| && forall t: nat :: t < |fs| ==> Nearest(fs[t], gs[t])
    ensures forall t: nat :: t < |fs| ==> Latents(net, fs)[t] == net.rvq(gs[t])
    ensures Decode(net, fs) == Decode(net, gs)
  {
    hide Nearest;
    forall t: nat | t < |fs|
      ensures Latents(net, fs)[t] == net.rvq(gs[t]) == Latents(net, gs)[t]
    {
      ClampIsNearest(fs[t], gs[t]);
      NearestInRange(fs[t], gs[t]);
      var h := NearestIs(gs[t]);
      ClampIsNearest(gs[t], h);
    }
    assert Latents(net, fs) == Latents(net, gs);
  }

  lemma NearestInRange(f: Frame, g: Frame)
    requires Nearest(f, g)
    ensures FrameInRange(g)
  {
    forall q: nat | q < 10 ensures InRange(q, g[q]) {
      assert NearestCode(q, f[q], g[q]);
    }
  }

  /** Codes within their codebooks are looked up as they are. */
  lemma LooksUpCodes(net: Net, fs: seq<Frame>, t: nat)
    requires t < |fs| && 0 <= fs[t][0] <= 4095 && forall q: nat :: 1 <= q < 10 ==> 0 <= fs[t][q] <= 1023
    ensures Latents(net, fs)[t] == net.rvq(fs[t])
  {
    var g := NearestIs(fs[t]);
    ClampIsNearest(fs[t], g);
  }

  /** The two layouts of the same codes. */
  lemma LayoutsAgree(a: seq<int>, b: seq<int>, tn: nat)
    requires |a| == |b| == 10 * tn
    ensures FrameMajor(a, tn) == CodebookMajor(b, tn)
       <==> forall t: nat, q: nat :: t < tn && q < 10 ==> SameCode(a, b, tn, t, q)
  {
    var fs, gs := FrameMajor(a, tn), CodebookMajor(b, tn);
    if fs == gs {
      forall t: nat, q: nat | t < tn && q < 10
        ensures SameCode(a, b, tn, t, q)
      {
        RowGap(q, 10, tn);
        assert fs[t][q] == gs[t][q];
      }
    }
    if forall t: nat, q: nat :: t < tn && q < 10 ==> SameCode(a, b, tn, t, q) {
      forall t: nat | t < tn
        ensures fs[t] == gs[t]
      {
        forall q: nat | q < 10
          ensures fs[t][q] == gs[t][q]
        {
          assert SameCode(a, b, tn, t, q);
        }
      }
    }
  }

  /** Code q of frame t stands at 10 t + q in one layout, at q tn + t in the other. */
  predicate SameCode(a: seq<int>, b: seq<int>, tn: nat, t: nat, q: nat)
    requires |a| == |b| == 10 * tn && t < tn && q < 10
  {
    RowGap(q, 10, tn);
    a[10 * t + q] == b[q * tn + t]
  }

  // ---- sums --------------------------------------------------------------------------------------

  function SumTo(n: nat, f: nat -> int): int {
    if n == 0 then 0 else SumTo(n - 1, f) + f(n - 1)
  }

  lemma {:induction false} SumShift(n: nat, f: nat -> int)
    ensures SumTo(n + 1, f) == f(0) + SumTo(n, (i: nat) => f(i + 1))
  {
    if n > 0 {
      SumShift(n - 1, f);
    }
  }

  lemma {:induction false} SumSame(n: nat, f: nat -> int, g: nat -> int)
    requires forall i: nat :: i < n ==> f(i) == g(i)
    ensures SumTo(n, f) == SumTo(n, g)
  {
    if n > 0 {
      SumSame(n - 1, f, g);
    }
  }

  function Product(w: Col, v: Col): nat -> int {
    (i: nat) => if i < |w| && i < |v| then w[i] * v[i] else 0
  }

  /** The product of two channel vectors. */
  lemma {:induction false} DotIs(w: Col, v: Col)
    ensures Dot(w, v) == SumTo(|w|, Product(w, v))
  {
    if w == [] {
    } else if v == [] {
      SumSame(|w|, Product(w, v), (i: nat) => 0);
      SumNothing(|w|);
    } else {
      DotIs(w[1..], v[1..]);
      SumShift(|w| - 1, Product(w, v));
      SumSame(|w| - 1, Product(w[1..], v[1..]), (i: nat) => Product(w, v)(i + 1));
    }
  }

  lemma {:induction false} SumNothing(n: nat)
    ensures SumTo(n, (i: nat) => 0) == 0
  {
    if n > 0 {
      SumNothing(n - 1);
    }
  }

  /** What input column u contributes to one output channel through tap kk. */
  function Weighed(c: ConvW, co: nat, kk: nat, x: Col): int {
    match c.w
    case Dense(wd) => SumTo(|wd(co, kk)|, Product(wd(co, kk), x))
    case Depthwise(ws) => if co < |x| then ws(co, kk) * x[co] else 0
  }

  function Tap(c: ConvW, co: nat, xs: seq<Col>, t0: int, dil: nat): nat -> int {
    (kk: nat) => var u := t0 + dil * kk; if 0 <= u < |xs| then Weighed(c, co, kk, xs[u]) else 0
  }

  lemma {:induction false} TapsAre(c: ConvW, xs: seq<Col>, t0: int, dil: nat, co: nat, n: nat)
    ensures TapSum(c, xs, t0, dil, co, n) == SumTo(n, Tap(c, co, xs, t0, dil))
  {
    if n > 0 {
      TapsAre(c, xs, t0, dil, co, n - 1);
      var u := t0 + dil * (n - 1);
      if 0 <= u < |xs| && c.w.Dense? {
        DotIs(c.w.wd(co, n - 1), xs[u]);
      }
    }
  }

  /** A causal convolution: output t adds tap kk of the column (k - 1 - kk) dil back. */
  lemma CausalIs(c: ConvW, k: nat, dil: nat, xs: seq<Col>, t: nat, co: nat)
    requires k >= 1 && t < |xs| && co < c.cout
    ensures |Causal(c, k, dil, xs)[t]| == c.cout
    ensures Causal(c, k, dil, xs)[t][co] == c.b(co) + SumTo(k, Tap(c, co, xs, t - (k - 1) * dil, dil))
  {
    TapsAre(c, xs, t - (k - 1) * dil, dil, co, k);
  }

  /** The last tap of a causal convolution reads the newest column, the first the oldest. */
  lemma CausalReach(k: nat, dil: nat, t: nat, kk: nat)
    requires kk < k
    ensures t - (k - 1) * dil + dil * kk == t - dil * (k - 1 - kk)
  {
  }

  function Spread(c: TConvW, k: nat, s: nat, xs: seq<Col>, to: int, co: nat): nat -> int {
    (u: nat) => var off := to - s * u;
         if u < |xs| && 0 <= off < k then SumTo(|c.wt(co, off)|, Product(c.wt(co, off), xs[u])) else 0
  }

  lemma {:induction false} ScattersAre(c: TConvW, k: nat, s: nat, xs: seq<Col>, co: nat, to: int, n: nat)
    requires n <= |xs|
    ensures ScatterSum(c, k, s, xs, co, to, n) == SumTo(n, Spread(c, k, s, xs, to, co))
  {
    if n > 0 {
      ScattersAre(c, k, s, xs, co, to, n - 1);
      var off := to - s * (n - 1);
      if 0 <= off < k {
        DotIs(c.wt(co, off), xs[n - 1]);
      }
    }
  }

  /** An up-sampler: input column u reaches the outputs s u to s u + k - 1, through tap `to - s u`. */
  lemma UpsampleIs(c: TConvW, k: nat, s: nat, xs: seq<Col>, to: nat, co: nat)
    requires to < |xs| * s && co < c.cout
    ensures Upsample(c, k, s, xs)[to][co] == c.bt(co) + SumTo(|xs|, Spread(c, k, s, xs, to, co))
  {
    ScattersAre(c, k, s, xs, co, to, |xs|);
  }

  // ---- residual blocks ---------------------------------------------------------------------------

  /** y is x with the branch added to it, channel by channel. */
  ghost predicate Added(x: Col, branch: Col, y: Col) {
    |y| == |x| && forall ch: nat :: ch < |x| ==> y[ch] == x[ch] + if ch < |branch| then branch[ch] else 0
  }

  ghost predicate Residual(x: seq<Col>, branch: seq<Col>, y: seq<Col>) {
    |x| == |branch| == |y| && forall t: nat :: t < |x| ==> Added(x[t], branch[t], y[t])
  }

  lemma ZipAdds(x: seq<Col>, branch: seq<Col>)
    requires |x| == |branch|
    ensures Residual(x, branch, Zip(AddCol, x, branch))
  {
    forall t: nat | t < |x|
      ensures Added(x[t], branch[t], Zip(AddCol, x, branch)[t])
    {
      assert Zip(AddCol, x, branch)[t] == AddCol(x[t], branch[t]);
    }
  }

  /** The output of a residual unit less its input is what its branch computes from the input. */
  lemma UnitIsResidual(ru: Ru, dil: nat, xs: seq<Col>)
    ensures Residual(xs, Causal(ru.c1, 1, 1, Map(ru.alpha1, Causal(ru.c7, 7, dil, Map(ru.alpha0, xs)))),
                     RuOut(ru, dil, xs))
  {
    hide Residual, Causal, Map;
    ZipAdds(xs, RuBranch(ru, dil, xs));
  }

  /** So it is for a ConvNeXt block: depthwise convolution, norm, two products around the activation,
      and the scale. */
  lemma CnxIsResidual(c: Cnx, xs: seq<Col>)
    ensures Residual(xs, Map(c.gamma, Map(c.pw2, Map(c.gelu, Map(c.pw1, Map(c.layernorm, Causal(c.dw, 7, 1, xs)))))),
                     CnxOut(c, xs))
  {
    hide Residual, Causal;
    var d := Causal(c.dw, 7, 1, xs);
    assert Map(e => CnxRow(c, e), d) == Map(c.gamma, Map(c.pw2, Map(c.gelu, Map(c.pw1, Map(c.layernorm, d)))));
    ZipAdds(xs, Map(e => CnxRow(c, e), d));
  }

  // ---- attention -----------------------------------------------------------------------------------

  /** How many rows a query at row t sees: itself and up to 127 before it. */
  function Seen(t: nat): (n: nat)
    ensures 1 <= n <= t + 1
  {
    if t <= 127 then t + 1 else 128
  }

  /** Row u is among them exactly when it is not later than t and fewer than 128 rows back; they keep
      their order. */
  lemma VisibleAre(rows: seq<Col>, t: nat)
    requires t < |rows|
    ensures |Visible(rows, t)| == Seen(t)
    ensures forall j: nat :: j < Seen(t) ==> Visible(rows, t)[j] == rows[t + 1 - Seen(t) + j]
    ensures forall u: nat :: u <= t && t - u < 128 ==> Visible(rows, t)[u - (t + 1 - Seen(t))] == rows[u]
  {
  }

  function Projected(net: Net, l: nat, x: Col): Qkv {
    net.layer(l).wqkv(net.layer(l).attnNorm(x))
  }

  /** The keys a query at row t meets, each rotated at its own row. */
  function KeysSeen(net: Net, l: nat, xs: seq<Col>, t: nat): seq<Col>
    requires t < |xs|
  {
    seq(Seen(t), j requires 0 <= j < Seen(t) =>
      net.rope(t + 1 - Seen(t) + j, Projected(net, l, xs[t + 1 - Seen(t) + j]).k))
  }

  function ValuesSeen(net: Net, l: nat, xs: seq<Col>, t: nat): seq<Col>
    requires t < |xs|
  {
    seq(Seen(t), j requires 0 <= j < Seen(t) => Projected(net, l, xs[t + 1 - Seen(t) + j]).v)
  }

  lemma SeenAre(net: Net, l: nat, xs: seq<Col>, t: nat)
    requires t < |xs|
    ensures Visible(KeyRows(net, l, xs), t) == KeysSeen(net, l, xs, t)
    ensures Visible(ValueRows(net, l, xs), t) == ValuesSeen(net, l, xs, t)
  {
    hide Visible;
    var ks, vs := Visible(KeyRows(net, l, xs), t), Visible(ValueRows(net, l, xs), t);
    VisibleAre(KeyRows(net, l, xs), t);
    VisibleAre(ValueRows(net, l, xs), t);
    forall j: nat | j < Seen(t)
      ensures ks[j] == KeysSeen(net, l, xs, t)[j] && vs[j] == ValuesSeen(net, l, xs, t)[j]
    {
      var u: nat := t + 1 - Seen(t) + j;
      assert ks[j] == KeyRows(net, l, xs)[u] == net.rope(u, Projected(net, l, xs[u]).k);
      assert vs[j] == ValueRows(net, l, xs)[u] == Projected(net, l, xs[u]).v;
    }
  }

  /** One row of one layer: both residuals, the one around attention taken from the layer's input, the
      one around the feed-forward part from the attended row. */
  lemma LayerRow(net: Net, l: nat, xs: seq<Col>, t: nat)
    requires t < |xs|
    ensures var ly := net.layer(l);
            var att := net.attention(net.rope(t, Projected(net, l, xs[t]).q),
                                     KeysSeen(net, l, xs, t), ValuesSeen(net, l, xs, t));
            var a := ly.gAttn(xs[t], ly.wo(att));
            var h := ly.ffnNorm(a);
            LayerOut(net, l, xs)[t] == ly.gFfn(a, ly.w2(ly.siluMul(ly.w1(h), ly.w3(h))))
  {
    hide Visible, KeyRows, ValueRows, KeysSeen, ValuesSeen;
    SeenAre(net, l, xs, t);
  }

  // ---- the stages ----------------------------------------------------------------------------------

  /** A decoder block: activation, an up-sampler of k taps and stride s, residual units dilated by 1, 3
      and 9. */
  function Block(net: Net, i: nat, k: nat, s: nat, x: seq<Col>): seq<Col> {
    var y := Upsample(net.blockUp(i), k, s, Map(net.blockAlpha(i), x));
    RuOut(net.ru(i, 2), 9, RuOut(net.ru(i, 1), 3, RuOut(net.ru(i, 0), 1, y)))
  }

  lemma BlockIs(net: Net, i: nat, x: seq<Col>)
    requires i < 4
    ensures BlockIn(net, i + 1, x) == Block(net, i, [16, 16, 8, 4][i], [8, 8, 4, 2][i], BlockIn(net, i, x))
  {
    hide RuOut, Upsample, Map;
    UnitNext(net, i, 2, x);
    UnitNext(net, i, 1, x);
    UnitNext(net, i, 0, x);
  }

  lemma UnitNext(net: Net, i: nat, r: nat, x: seq<Col>)
    requires i < 4 && r < 3
    ensures BlockStage(net, i, r + 1, x) == RuOut(net.ru(i, r), [1, 3, 9][r], BlockStage(net, i, r, x))
  {
    hide RuOut, Upsample, Map;
  }

  /** The decode as one chain from codes to samples. */
  lemma DecodeIs(net: Net, fs: seq<Frame>)
    ensures var z := Map(net.postNorm, Rows(net, net.layers, Latents(net, fs)));
            var y0 := CnxOut(net.upCnx(0), Upsample(net.upT(0), 2, 2, z));
            var y1 := CnxOut(net.upCnx(1), Upsample(net.upT(1), 2, 2, y0));
            var x1 := Block(net, 0, 16, 8, Causal(net.conv0, 7, 1, y1));
            var x4 := Block(net, 3, 4, 2, Block(net, 2, 8, 4, Block(net, 1, 16, 8, x1)));
            Decode(net, fs) == Map(net.tanh, Causal(net.convf, 7, 1, Map(net.decAlpha, x4)))
  {
    hide Block, Causal, Map, CnxOut, Upsample, Rows, Latents;
    var x := Cnx1(net, Latents(net, fs));
    BlockIs(net, 3, x);
    BlockIs(net, 2, x);
    BlockIs(net, 1, x);
    BlockIs(net, 0, x);
  }

  /** Widths halve from 1536 to 96 channels, and one latent column becomes 2048 samples a frame. */
  lemma Widths(i: nat)
    requires i < 4
    ensures BLOCK_CIN[i] * [1, 2, 4, 8][i] == 1536 && 2 * BLOCK_COUT[i] == BLOCK_CIN[i]
    ensures BLOCK_COUT[3] == 96 && FRAME_SAMPLES == 4 * 8 * 8 * 4 * 2
  {
  }

  // ---- a push --------------------------------------------------------------------------------------

  /** The engine's answer: 1 to 8 frames, nothing in flight, and at most (2^31 - 1) / 4 frames in all. */
  lemma PushAnswers(pos: nat, pending: nat, tn: int)
    ensures PushStatus(pos, pending, tn) == OK <==> 1 <= tn <= 8 && pending == 0 && pos + tn <= 536870911
    ensures PushStatus(pos, pending, tn) == WrongState <==> 1 <= tn <= 8 && pending > 0
    ensures PushStatus(pos, pending, tn) in {OK, WrongState, Invalid}
  {
  }

  /** What a layer keeps of its rows between pushes: the last 127, or all. */
  lemma KeptRows(net: Net, l: nat, z: seq<Col>)
    ensures var n, m := |z|, if |z| < 127 then |z| else 127;
            && KeyTail(net, l, z) == KeyRows(net, l, Rows(net, l, z))[n - m..]
            && ValueTail(net, l, z) == ValueRows(net, l, Rows(net, l, z))[n - m..]
  {
  }

  // ---- a new stream --------------------------------------------------------------------------------

  /** n columns of c zeros each. */
  ghost predicate Blank(h: seq<Col>, n: nat, c: nat) {
    |h| == n && forall i: nat :: i < n ==> |h[i]| == c && forall ch: nat :: ch < c ==> h[i][ch] == 0
  }

  /** The histories a new stream starts with: six columns ahead of every convolution of seven taps, spread
      for the dilated ones, and one ahead of every up-sampler of a block. */
  lemma NewHistories(layers: nat, i: nat, r: nat)
    requires i < 4 && r < 3
    ensures var d := FreshDevice(layers);
            && |d.cnx| == 2 && Blank(d.cnx[0], 6, 1024) && Blank(d.cnx[1], 6, 1024) && Blank(d.c0, 6, 1024)
            && |d.up| == |d.ru| == 4 && |d.ru[i]| == 3
            && Blank(d.up[i], 1, [1536, 768, 384, 192][i])
            && Blank(d.ru[i][r], 6 * [1, 3, 9][r], [768, 384, 192, 96][i])
            && Blank(d.cf, 6, 96)
  {
    assert forall n: nat, c: nat :: Blank(ZeroHist(c, n), n, c);
  }
}
