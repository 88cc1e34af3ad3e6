/** What the whole-buffer decode computes, stage by stage, as functions of the
    full input of each stage; and, for every stage, that growing the input only
    appends to the output. */
module Codec {
  import opened Kernels

  const CB_SIZE: int := 4096
  const CHANNELS: nat := 1024
  const WINDOW: nat := 128
  const FRAME_SAMPLES: nat := 2048

  const BLOCK_CIN: seq<nat> := [1536, 768, 384, 192]
  const BLOCK_COUT: seq<nat> := [768, 384, 192, 96]
  const BLOCK_K: seq<nat> := [16, 16, 8, 4]
  const BLOCK_S: seq<nat> := [8, 8, 4, 2]
  const RU_DIL: seq<nat> := [1, 3, 9]

  // ---- weights as parameters --------------------------------------------

  datatype Qkv = Qkv(q: Col, k: Col, v: Col)

  /** One transformer layer: each field is one row-wise kernel with its weights. */
  datatype Layer = Layer(
    attnNorm: Col -> Col, wqkv: Col -> Qkv, wo: Col -> Col, gAttn: (Col, Col) -> Col,
    ffnNorm: Col -> Col, w1: Col -> Col, w3: Col -> Col, siluMul: (Col, Col) -> Col,
    w2: Col -> Col, gFfn: (Col, Col) -> Col)

  datatype Cnx = Cnx(dw: ConvW, layernorm: Col -> Col, pw1: Col -> Col, gelu: Col -> Col,
                     pw2: Col -> Col, gamma: Col -> Col)

  datatype Ru = Ru(alpha0: Col -> Col, c7: ConvW, alpha1: Col -> Col, c1: ConvW)

  /** The loaded codec: kernels that act on one column or row are arbitrary functions of it;
      attention is an arbitrary function of the query and the ordered visible keys and values. */
  datatype Net = Net(
    rvq: seq<int> -> Col,
    layers: nat,
    layer: nat -> Layer,
    rope: (nat, Col) -> Col,
    attention: (Col, seq<Col>, seq<Col>) -> Col,
    postNorm: Col -> Col,
    upT: nat -> TConvW,
    upCnx: nat -> Cnx,
    conv0: ConvW,
    blockAlpha: nat -> Col -> Col,
    blockUp: nat -> TConvW,
    ru: (nat, nat) -> Ru,
    decAlpha: Col -> Col,
    convf: ConvW,
    tanh: Col -> Col)

  // ---- codes -------------------------------------------------------------

  type Frame = f: seq<int> | |f| == 10 witness [0, 0, 0, 0, 0, 0, 0, 0, 0, 0]

  function ClampTo(v: int, hi: int): int {
    if v < 0 then 0 else if v > hi then hi else v
  }

  function CodeMax(q: nat): int {
    if q == 0 then CB_SIZE - 1 else 1023
  }

  function ClampFrame(f: Frame): Frame {
    seq(10, q requires 0 <= q < 10 => ClampTo(f[q], CodeMax(q)))
  }

  function FrameIndex(t: nat, q: nat, tn: nat): (i: nat)
    requires t < tn && q < 10
    ensures i < 10 * tn
  {
    10 * t + q
  }

  function CodebookIndex(t: nat, q: nat, tn: nat): (i: nat)
    requires t < tn && q < 10
    ensures i < 10 * tn
  {
    assert q * tn + t < (q + 1) * tn <= 10 * tn;
    q * tn + t
  }

  /** Frame-major codes [tn][10], as the streaming calls take them. */
  function FrameMajor(codes: seq<int>, tn: nat): (fs: seq<Frame>)
    requires |codes| == 10 * tn
    ensures |fs| == tn
  {
    seq(tn, t requires 0 <= t < tn => seq(10, q requires 0 <= q < 10 => codes[FrameIndex(t, q, tn)]))
  }

  /** Codebook-major codes [10][tn], as the whole-buffer decode takes them. */
  function CodebookMajor(codes: seq<int>, tn: nat): (fs: seq<Frame>)
    requires |codes| == 10 * tn
    ensures |fs| == tn
  {
    seq(tn, t requires 0 <= t < tn => seq(10, q requires 0 <= q < 10 => codes[CodebookIndex(t, q, tn)]))
  }

  function Latents(net: Net, fs: seq<Frame>): (z: seq<Col>)
    ensures |z| == |fs|
  {
    seq(|fs|, t requires 0 <= t < |fs| => net.rvq(ClampFrame(fs[t])))
  }

  // ---- post_module ---------------------------------------------------------

  function QkvOf(ly: Layer, x: Col): Qkv {
    ly.wqkv(ly.attnNorm(x))
  }

  function QueryRow(net: Net, l: nat, t: nat, x: Col): Col {
    net.rope(t, QkvOf(net.layer(l), x).q)
  }

  function QueryRows(net: Net, l: nat, xs: seq<Col>): (qs: seq<Col>)
    ensures |qs| == |xs|
  {
    seq(|xs|, t requires 0 <= t < |xs| => QueryRow(net, l, t, xs[t]))
  }

  function KeyRows(net: Net, l: nat, xs: seq<Col>): (ks: seq<Col>)
    ensures |ks| == |xs|
  {
    seq(|xs|, t requires 0 <= t < |xs| => net.rope(t, QkvOf(net.layer(l), xs[t]).k))
  }

  function ValueRows(net: Net, l: nat, xs: seq<Col>): (vs: seq<Col>)
    ensures |vs| == |xs|
  {
    seq(|xs|, t requires 0 <= t < |xs| => QkvOf(net.layer(l), xs[t]).v)
  }

  /** The rows a query at index t may read: max(0, t-window+1) .. t. */
  function Visible(rows: seq<Col>, t: nat): (vis: seq<Col>)
    requires t < |rows|
    ensures |vis| == if t < WINDOW then t + 1 else WINDOW
  {
    rows[(if t < WINDOW then 0 else t - WINDOW + 1)..t + 1]
  }

  function Ffn(ly: Layer, x: Col): Col {
    var h := ly.ffnNorm(x);
    ly.gFfn(x, ly.w2(ly.siluMul(ly.w1(h), ly.w3(h))))
  }

  function Mix(ly: Layer, x: Col, att: Col): Col {
    Ffn(ly, ly.gAttn(x, ly.wo(att)))
  }

  function AttendRow(net: Net, l: nat, xs: seq<Col>, t: nat): Col
    requires t < |xs|
  {
    net.attention(QueryRow(net, l, t, xs[t]), Visible(KeyRows(net, l, xs), t), Visible(ValueRows(net, l, xs), t))
  }

  function AttendRows(net: Net, l: nat, xs: seq<Col>): (ys: seq<Col>)
    ensures |ys| == |xs|
  {
    seq(|xs|, t requires 0 <= t < |xs| => AttendRow(net, l, xs, t))
  }

  function LayerOut(net: Net, l: nat, xs: seq<Col>): (ys: seq<Col>)
    ensures |ys| == |xs|
  {
    seq(|xs|, t requires 0 <= t < |xs| => Mix(net.layer(l), xs[t], AttendRow(net, l, xs, t)))
  }

  /** Input rows of layer l (output rows of the stack when l == net.layers). */
  function Rows(net: Net, l: nat, z: seq<Col>): (ys: seq<Col>)
    ensures |ys| == |z|
  {
    if l == 0 then z else LayerOut(net, l - 1, Rows(net, l - 1, z))
  }

  function Post(net: Net, z: seq<Col>): (ys: seq<Col>)
    ensures |ys| == |z|
  {
    Map(net.postNorm, Rows(net, net.layers, z))
  }

  /** s2pdk_rope_ip_off: row j is rotated at absolute position t0 + j. */
  function RopeRows(net: Net, t0: nat, rows: seq<Col>): (rs: seq<Col>)
    ensures |rs| == |rows|
  {
    seq(|rows|, j requires 0 <= j < |rows| => net.rope(t0 + j, rows[j]))
  }

  /** s2pdk_sdpa_inc: query j stands at key row hl + j (s2pdk_sdpa is the case hl == 0). */
  function Sdpa(net: Net, qs: seq<Col>, ks: seq<Col>, vs: seq<Col>, hl: nat): (out: seq<Col>)
    requires |ks| == |vs| == hl + |qs|
    ensures |out| == |qs|
  {
    seq(|qs|, j requires 0 <= j < |qs| => net.attention(qs[j], Visible(ks, hl + j), Visible(vs, hl + j)))
  }

  function Queries(qkv: seq<Qkv>): (qs: seq<Col>)
    ensures |qs| == |qkv|
  {
    seq(|qkv|, j requires 0 <= j < |qkv| => qkv[j].q)
  }

  function Keys(qkv: seq<Qkv>): (ks: seq<Col>)
    ensures |ks| == |qkv|
  {
    seq(|qkv|, j requires 0 <= j < |qkv| => qkv[j].k)
  }

  function Values(qkv: seq<Qkv>): (vs: seq<Col>)
    ensures |vs| == |qkv|
  {
    seq(|qkv|, j requires 0 <= j < |qkv| => qkv[j].v)
  }

  function Project(ly: Layer, xs: seq<Col>): (qkv: seq<Qkv>)
    ensures |qkv| == |xs|
  {
    seq(|xs|, j requires 0 <= j < |xs| => ly.wqkv(xs[j]))
  }

  // ---- up-sampling and the convolution decoder --------------------------------

  function CnxRow(c: Cnx, d: Col): Col {
    c.gamma(c.pw2(c.gelu(c.pw1(c.layernorm(d)))))
  }

  function CnxOut(c: Cnx, xs: seq<Col>): (ys: seq<Col>)
    ensures |ys| == |xs|
  {
    Zip(AddCol, xs, Map(d => CnxRow(c, d), Causal(c.dw, 7, 1, xs)))
  }

  function RuBranch(ru: Ru, dil: nat, xs: seq<Col>): (ys: seq<Col>)
    ensures |ys| == |xs|
  {
    Causal(ru.c1, 1, 1, Map(ru.alpha1, Causal(ru.c7, 7, dil, Map(ru.alpha0, xs))))
  }

  function RuOut(ru: Ru, dil: nat, xs: seq<Col>): (ys: seq<Col>)
    ensures |ys| == |xs|
  {
    Zip(AddCol, xs, RuBranch(ru, dil, xs))
  }

  /** The signals between the stages, each a function of all latents so far. */
  function Up0(net: Net, z: seq<Col>): seq<Col> { Upsample(net.upT(0), 2, 2, Post(net, z)) }

  function Cnx0(net: Net, z: seq<Col>): seq<Col> { CnxOut(net.upCnx(0), Up0(net, z)) }

  function Up1(net: Net, z: seq<Col>): seq<Col> { Upsample(net.upT(1), 2, 2, Cnx0(net, z)) }

  function Cnx1(net: Net, z: seq<Col>): seq<Col> { CnxOut(net.upCnx(1), Up1(net, z)) }

  function BlockIn(net: Net, i: nat, x: seq<Col>): seq<Col>
    requires i <= 4
    decreases i, 4, x
  {
    if i == 0 then Causal(net.conv0, 7, 1, x) else BlockStage(net, i - 1, 3, x)
  }

  function BlockSnaked(net: Net, i: nat, x: seq<Col>): seq<Col>
    requires i < 4
    decreases i, 5, x
  {
    Map(net.blockAlpha(i), BlockIn(net, i, x))
  }

  /** Block i after its up-sampler and its first r residual units. */
  function BlockStage(net: Net, i: nat, r: nat, x: seq<Col>): seq<Col>
    requires i < 4 && r <= 3
    decreases i, 6 + r, x
  {
    if r == 0 then Upsample(net.blockUp(i), BLOCK_K[i], BLOCK_S[i], BlockSnaked(net, i, x))
    else RuOut(net.ru(i, r - 1), RU_DIL[r - 1], BlockStage(net, i, r - 1, x))
  }

  function FinalIn(net: Net, x: seq<Col>): seq<Col> {
    Map(net.decAlpha, BlockIn(net, 4, x))
  }

  function Pcm(net: Net, x: seq<Col>): seq<Col> {
    Map(net.tanh, Causal(net.convf, 7, 1, FinalIn(net, x)))
  }

  /** s2p_dac_decode as a function: all samples of a code sequence. */
  function Decode(net: Net, fs: seq<Frame>): seq<Col> {
    Pcm(net, Cnx1(net, Latents(net, fs)))
  }

  // ---- growing the input appends to the output ----------------------------------

  lemma VisiblePrefix(p: seq<Col>, q: seq<Col>, t: nat)
    requires p <= q && t < |p|
    ensures Visible(p, t) == Visible(q, t)
  {
  }

  lemma LayerPrefix(net: Net, l: nat, p: seq<Col>, q: seq<Col>)
    requires p <= q
    ensures LayerOut(net, l, p) <= LayerOut(net, l, q)
  {
    forall t: nat | t < |p|
      ensures LayerOut(net, l, p)[t] == LayerOut(net, l, q)[t]
    {
      VisiblePrefix(KeyRows(net, l, p), KeyRows(net, l, q), t);
      VisiblePrefix(ValueRows(net, l, p), ValueRows(net, l, q), t);
    }
  }

  lemma NextRows(net: Net, l: nat, z: seq<Col>)
    ensures Rows(net, l + 1, z) == LayerOut(net, l, Rows(net, l, z))
  {
  }

  lemma {:induction false} RowsPrefix(net: Net, l: nat, p: seq<Col>, q: seq<Col>)
    requires p <= q
    ensures Rows(net, l, p) <= Rows(net, l, q)
  {
    hide LayerOut;
    if l > 0 {
      RowsPrefix(net, l - 1, p, q);
      NextRowsPrefix(net, l - 1, p, q);
    }
  }

  lemma NextRowsPrefix(net: Net, l: nat, p: seq<Col>, q: seq<Col>)
    requires p <= q && Rows(net, l, p) <= Rows(net, l, q)
    ensures Rows(net, l + 1, p) <= Rows(net, l + 1, q)
  {
    NextRows(net, l, p);
    NextRows(net, l, q);
    LayerPrefix(net, l, Rows(net, l, p), Rows(net, l, q));
  }

  lemma PostPrefix(net: Net, p: seq<Col>, q: seq<Col>)
    requires p <= q
    ensures Post(net, p) <= Post(net, q)
  {
    RowsPrefix(net, net.layers, p, q);
    MapStep(net.postNorm, Rows(net, net.layers, p), Rows(net, net.layers, q));
  }

  lemma CnxPrefix(c: Cnx, p: seq<Col>, q: seq<Col>)
    requires p <= q
    ensures CnxOut(c, p) <= CnxOut(c, q)
  {
    ConvPrefix(c.dw, 7, 1, p, q);
    var f := d => CnxRow(c, d);
    MapStep(f, Causal(c.dw, 7, 1, p), Causal(c.dw, 7, 1, q));
    ZipStep(AddCol, p, q, Map(f, Causal(c.dw, 7, 1, p)), Map(f, Causal(c.dw, 7, 1, q)));
  }

  lemma RuPrefix(ru: Ru, dil: nat, p: seq<Col>, q: seq<Col>)
    requires p <= q
    ensures RuOut(ru, dil, p) <= RuOut(ru, dil, q)
    ensures RuBranch(ru, dil, p) <= RuBranch(ru, dil, q)
  {
    var a, b := Map(ru.alpha0, p), Map(ru.alpha0, q);
    MapStep(ru.alpha0, p, q);
    ConvPrefix(ru.c7, 7, dil, a, b);
    MapStep(ru.alpha1, Causal(ru.c7, 7, dil, a), Causal(ru.c7, 7, dil, b));
    ConvPrefix(ru.c1, 1, 1, Map(ru.alpha1, Causal(ru.c7, 7, dil, a)), Map(ru.alpha1, Causal(ru.c7, 7, dil, b)));
    ZipStep(AddCol, p, q, RuBranch(ru, dil, p), RuBranch(ru, dil, q));
  }

  lemma UpPrefix(net: Net, p: seq<Col>, q: seq<Col>)
    requires p <= q
    ensures Up0(net, p) <= Up0(net, q) && Cnx0(net, p) <= Cnx0(net, q)
    ensures Up1(net, p) <= Up1(net, q) && Cnx1(net, p) <= Cnx1(net, q)
  {
    PostPrefix(net, p, q);
    UpsamplePrefix(net.upT(0), 2, 2, Post(net, p), Post(net, q));
    CnxPrefix(net.upCnx(0), Up0(net, p), Up0(net, q));
    UpsamplePrefix(net.upT(1), 2, 2, Cnx0(net, p), Cnx0(net, q));
    CnxPrefix(net.upCnx(1), Up1(net, p), Up1(net, q));
  }

  lemma {:induction false} BlockInPrefix(net: Net, i: nat, p: seq<Col>, q: seq<Col>)
    requires i <= 4 && p <= q
    ensures BlockIn(net, i, p) <= BlockIn(net, i, q)
    decreases i, 4
  {
    if i == 0 {
      ConvPrefix(net.conv0, 7, 1, p, q);
    } else {
      BlockStagePrefix(net, i - 1, 3, p, q);
    }
  }

  lemma {:induction false} BlockStagePrefix(net: Net, i: nat, r: nat, p: seq<Col>, q: seq<Col>)
    requires i < 4 && r <= 3 && p <= q
    ensures BlockStage(net, i, r, p) <= BlockStage(net, i, r, q)
    decreases i, 6 + r
  {
    hide Map, Causal, Upsample, RuOut;
    if r == 0 {
      BlockInPrefix(net, i, p, q);
      MapStep(net.blockAlpha(i), BlockIn(net, i, p), BlockIn(net, i, q));
      UpsamplePrefix(net.blockUp(i), BLOCK_K[i], BLOCK_S[i], BlockSnaked(net, i, p), BlockSnaked(net, i, q));
    } else {
      BlockStagePrefix(net, i, r - 1, p, q);
      RuPrefix(net.ru(i, r - 1), RU_DIL[r - 1], BlockStage(net, i, r - 1, p), BlockStage(net, i, r - 1, q));
    }
  }

  // ---- lengths ------------------------------------------------------------------

  /** Columns per latent column at the input of block i, and after its up-sampler. */
  function Rate(i: nat): nat
    requires i <= 4
  {
    [1, 8, 64, 256, 512][i]
  }

  lemma {:induction false} BlockInLength(net: Net, i: nat, x: seq<Col>)
    requires i <= 4
    ensures |BlockIn(net, i, x)| == |x| * Rate(i)
    decreases i, 4
  {
    if i > 0 {
      BlockStageLength(net, i - 1, 3, x);
    }
  }

  lemma {:induction false} BlockStageLength(net: Net, i: nat, r: nat, x: seq<Col>)
    requires i < 4 && r <= 3
    ensures |BlockStage(net, i, r, x)| == |x| * Rate(i + 1)
    decreases i, 6 + r
  {
    if r > 0 {
      BlockStageLength(net, i, r - 1, x);
    } else {
      BlockInLength(net, i, x);
      assert Rate(i) * BLOCK_S[i] == Rate(i + 1);
    }
  }

  /** One frame is 2048 samples: the strides multiply to exactly that. */
  lemma DecodeLength(net: Net, fs: seq<Frame>)
    ensures |Decode(net, fs)| == FRAME_SAMPLES * |fs|
  {
    BlockInLength(net, 4, Cnx1(net, Latents(net, fs)));
  }

  /** The samples of a longer code sequence start with the samples of a shorter one. */
  lemma DecodePrefix(net: Net, p: seq<Frame>, q: seq<Frame>)
    requires p <= q
    ensures Decode(net, p) <= Decode(net, q)
  {
    UpPrefix(net, Latents(net, p), Latents(net, q));
    PcmPrefix(net, Cnx1(net, Latents(net, p)), Cnx1(net, Latents(net, q)));
  }

  lemma PcmPrefix(net: Net, p: seq<Col>, q: seq<Col>)
    requires p <= q
    ensures FinalIn(net, p) <= FinalIn(net, q) && Pcm(net, p) <= Pcm(net, q)
  {
    BlockInPrefix(net, 4, p, q);
    MapStep(net.decAlpha, BlockIn(net, 4, p), BlockIn(net, 4, q));
    ConvPrefix(net.convf, 7, 1, FinalIn(net, p), FinalIn(net, q));
    MapStep(net.tanh, Causal(net.convf, 7, 1, FinalIn(net, p)), Causal(net.convf, 7, 1, FinalIn(net, q)));
  }
}
