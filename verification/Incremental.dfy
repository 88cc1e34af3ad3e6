/** The incremental engine: per-stream state that makes decoding a few frames
    at a time produce exactly the samples of the whole-buffer decode. */
module Incremental {
  import opened Basics
  import opened Kernels
  import opened Codec
  import opened Whole
  import opened Scratch

  const KVHIST: nat := WINDOW - 1
  const MAX_TN: int := 8

  /** The five rotating scratch buffers, bx to bext. */
  const ROLES: nat := 5

  /** Which of x and y holds the input of decoder block i: the pair swaps after every block. */
  function LiveRole(i: nat): nat {
    if i % 2 == 0 then BY else BX
  }

  lemma RolesSwap(i: nat)
    ensures LiveRole(i + 2) == LiveRole(i)
  {
  }

  function BlocksAfter(k: nat): nat {
    if k < 3 then 0 else if k < 7 then k - 3 else 4
  }

  function PushStatus(pos: nat, pending: nat, tn: int): Status {
    if tn < 1 || tn > MAX_TN then Invalid
    else if pending != 0 then WrongState
    else if pos + tn > INT32_MAX / 4 then Invalid
    else OK
  }

  function Keep(n: nat): nat {
    if n < KVHIST then n else KVHIST
  }

  /** hist_init: a zeroed history of `len` columns. */
  function ZeroHist(c: nat, len: nat): (h: seq<Col>)
    ensures |h| == len
  {
    seq(len, _ => Zeros(c))
  }

  function FreshRows(layers: nat): (h: seq<seq<Col>>)
    ensures |h| == layers
  {
    seq(layers, _ => seq(KVHIST, _ => []))
  }

  function FreshUps(): (h: seq<seq<Col>>)
    ensures |h| == 4
  {
    seq(4, i requires 0 <= i < 4 => ZeroHist(BLOCK_CIN[i], 1))
  }

  function FreshRus(): (h: seq<seq<seq<Col>>>)
    ensures |h| == 4
  {
    seq(4, i requires 0 <= i < 4 => seq(3, r requires 0 <= r < 3 => ZeroHist(BLOCK_COUT[i], 6 * RU_DIL[r])))
  }

  function Tail(rows: seq<Col>, n: nat): (t: seq<Col>)
    requires n <= |rows|
    ensures |t| == n
  {
    rows[|rows| - n..]
  }

  // ---- what each history must hold after latents z -----------------------------

  function RuSig(net: Net, i: nat, r: nat, x: seq<Col>): seq<Col>
    requires i < 4 && r < 3
  {
    Map(net.ru(i, r).alpha0, BlockStage(net, i, r, x))
  }

  function RuHist(net: Net, i: nat, r: nat, x: seq<Col>): seq<Col>
    requires i < 4 && r < 3
  {
    HistOf(6 * RU_DIL[r], BLOCK_COUT[i], RuSig(net, i, r, x))
  }

  function UpHist(net: Net, i: nat, x: seq<Col>): seq<Col>
    requires i < 4
  {
    HistOf(1, BLOCK_CIN[i], BlockSnaked(net, i, x))
  }

  function KeyTail(net: Net, l: nat, z: seq<Col>): seq<Col> {
    Tail(KeyRows(net, l, Rows(net, l, z)), Keep(|z|))
  }

  function ValueTail(net: Net, l: nat, z: seq<Col>): seq<Col> {
    Tail(ValueRows(net, l, Rows(net, l, z)), Keep(|z|))
  }

  /** The valid front rows of a layer's key and value buffers. */
  ghost predicate KvIs(net: Net, l: nat, z: seq<Col>, ks: seq<Col>, vs: seq<Col>) {
    && |ks| == KVHIST && |vs| == KVHIST
    && ks[..Keep(|z|)] == KeyTail(net, l, z)
    && vs[..Keep(|z|)] == ValueTail(net, l, z)
  }

  /** Layers below l have advanced to latents q; the others still hold p. */
  ghost predicate KvUpto(net: Net, l: nat, p: seq<Col>, q: seq<Col>, kh: seq<seq<Col>>, vh: seq<seq<Col>>) {
    && |kh| == net.layers && |vh| == net.layers
    && (forall m: nat :: m < l && m < net.layers ==> KvIs(net, m, q, kh[m], vh[m]))
    && (forall m: nat :: l <= m < net.layers ==> KvIs(net, m, p, kh[m], vh[m]))
  }

  ghost predicate CnxIs(net: Net, z: seq<Col>, h: seq<seq<Col>>) {
    |h| == 2 && h[0] == HistOf(6, CHANNELS, Up0(net, z)) && h[1] == HistOf(6, CHANNELS, Up1(net, z))
  }

  ghost predicate RuIs(net: Net, i: nat, x: seq<Col>, h: seq<seq<Col>>)
    requires i < 4
  {
    |h| == 3 && h[0] == RuHist(net, i, 0, x) && h[1] == RuHist(net, i, 1, x) && h[2] == RuHist(net, i, 2, x)
  }

  /** Blocks below i have advanced to decoder input y; the others still hold x. */
  ghost predicate BlocksUpto(net: Net, i: nat, x: seq<Col>, y: seq<Col>, up: seq<seq<Col>>, ru: seq<seq<seq<Col>>>) {
    && |up| == 4 && |ru| == 4
    && (forall b: nat :: b < i && b < 4 ==> up[b] == UpHist(net, b, y) && RuIs(net, b, y, ru[b]))
    && (forall b: nat :: i <= b < 4 ==> up[b] == UpHist(net, b, x) && RuIs(net, b, x, ru[b]))
  }

  /** What a stream keeps in device memory: K/V rows, convolution inputs, scratch roles, samples. */
  datatype Device = Device(
    kh: seq<seq<Col>>, vh: seq<seq<Col>>,
    cnx: seq<seq<Col>>, c0: seq<Col>, up: seq<seq<Col>>, ru: seq<seq<seq<Col>>>, cf: seq<Col>,
    buf: seq<seq<Col>>, brow: seq<Col>, pcm: seq<Col>)

  /** Every history is a function of the latents z. */
  ghost predicate StateIs(net: Net, z: seq<Col>, d: Device) {
    var x := Cnx1(net, z);
    && KvUpto(net, net.layers, z, z, d.kh, d.vh)
    && CnxIs(net, z, d.cnx)
    && d.c0 == HistOf(6, CHANNELS, x)
    && BlocksUpto(net, 4, x, x, d.up, d.ru)
    && d.cf == HistOf(6, 96, FinalIn(net, x))
    && |d.buf| == ROLES
  }

  // ---- attention over [history | new] --------------------------------------------

  /** [history | new rows] is a suffix of the full row sequence. */
  lemma KvExt(p: seq<Col>, q: seq<Col>)
    requires p <= q
    ensures Tail(p, Keep(|p|)) + q[|p|..] == q[|p| - Keep(|p|)..]
  {
  }

  lemma SubSlice(q: seq<Col>, off: nat, lo: nat, hi: nat)
    requires off <= lo <= hi <= |q|
    ensures q[off..][lo - off..hi - off] == q[lo..hi]
  {
  }

  /** Query j over [history | new] sees exactly the rows of its absolute window. */
  lemma VisibleExt(p: seq<Col>, q: seq<Col>, j: nat)
    requires p <= q && j < |q| - |p|
    ensures Visible(Tail(p, Keep(|p|)) + q[|p|..], Keep(|p|) + j) == Visible(q, |p| + j)
  {
    KvExt(p, q);
    var off := |p| - Keep(|p|);
    var lo := if |p| + j < WINDOW then 0 else |p| + j - WINDOW + 1;
    SubSlice(q, off, lo, |p| + j + 1);
  }

  /** Retaining the last min(127, hl+tn) rows of [history | new]. */
  lemma KvRetain(p: seq<Col>, q: seq<Col>)
    requires p <= q
    ensures var ext := Tail(p, Keep(|p|)) + q[|p|..];
            Keep(|ext|) == Keep(|q|) && ext[|ext| - Keep(|ext|)..] == Tail(q, Keep(|q|))
  {
    KvExt(p, q);
  }

  /** The new key and value rows, computed from the new rows alone. */
  lemma NewKv(net: Net, l: nat, x: seq<Col>, t0: nat, qkv: seq<Qkv>)
    requires t0 <= |x|
    requires qkv == Project(net.layer(l), Map(net.layer(l).attnNorm, x[t0..]))
    ensures RopeRows(net, t0, Keys(qkv)) == KeyRows(net, l, x)[t0..]
    ensures Values(qkv) == ValueRows(net, l, x)[t0..]
    ensures RopeRows(net, t0, Queries(qkv)) == QueryRows(net, l, x)[t0..]
  {
    var ly := net.layer(l);
    forall j: nat | j < |qkv|
      ensures qkv[j] == QkvOf(ly, x[t0 + j])
    {
      assert x[t0..][j] == x[t0 + j];
    }
    assert RopeRows(net, t0, Keys(qkv)) == KeyRows(net, l, x)[t0..];
    assert Values(qkv) == ValueRows(net, l, x)[t0..];
    assert RopeRows(net, t0, Queries(qkv)) == QueryRows(net, l, x)[t0..];
  }

  function KeyExt(net: Net, l: nat, p: seq<Col>, x: seq<Col>): (ks: seq<Col>)
    requires p <= x
    ensures |ks| == Keep(|p|) + |x| - |p|
  {
    Tail(KeyRows(net, l, p), Keep(|p|)) + KeyRows(net, l, x)[|p|..]
  }

  function ValueExt(net: Net, l: nat, p: seq<Col>, x: seq<Col>): (vs: seq<Col>)
    requires p <= x
    ensures |vs| == Keep(|p|) + |x| - |p|
  {
    Tail(ValueRows(net, l, p), Keep(|p|)) + ValueRows(net, l, x)[|p|..]
  }

  /** Attention over the retained tail equals attention over the full sequence. */
  lemma SdpaExt(net: Net, l: nat, p: seq<Col>, x: seq<Col>)
    requires p <= x
    ensures Sdpa(net, QueryRows(net, l, x)[|p|..], KeyExt(net, l, p, x), ValueExt(net, l, p, x), Keep(|p|))
              == AttendRows(net, l, x)[|p|..]
  {
    var out := Sdpa(net, QueryRows(net, l, x)[|p|..], KeyExt(net, l, p, x), ValueExt(net, l, p, x), Keep(|p|));
    forall j: nat | j < |x| - |p|
      ensures out[j] == AttendRows(net, l, x)[|p|..][j]
    {
      VisibleExt(KeyRows(net, l, p), KeyRows(net, l, x), j);
      VisibleExt(ValueRows(net, l, p), ValueRows(net, l, x), j);
    }
  }

  lemma MixedRows(net: Net, l: nat, x: seq<Col>, t0: nat, xs: seq<Col>, att: seq<Col>, y: seq<Col>)
    requires t0 <= |x| && xs == x[t0..] && att == AttendRows(net, l, x)[t0..] && |y| == |xs|
    requires forall t: nat :: t < |xs| ==> y[t] == Mix(net.layer(l), xs[t], att[t])
    ensures y == LayerOut(net, l, x)[t0..]
  {
    forall t: nat | t < |y|
      ensures y[t] == LayerOut(net, l, x)[t0..][t]
    {
      assert xs[t] == x[t0 + t];
      assert att[t] == AttendRow(net, l, x, t0 + t);
    }
  }

  lemma RetainedTail(net: Net, l: nat, px: seq<Col>, x: seq<Col>)
    requires px <= x
    ensures var ek, ev, keep := KeyExt(net, l, px, x), ValueExt(net, l, px, x), Keep(|x|);
            && keep <= |ek|
            && ek[|ek| - keep..] == Tail(KeyRows(net, l, x), keep)
            && ev[|ev| - keep..] == Tail(ValueRows(net, l, x), keep)
  {
    KvRetain(KeyRows(net, l, px), KeyRows(net, l, x));
    KvRetain(ValueRows(net, l, px), ValueRows(net, l, x));
  }

  function FreshDevice(layers: nat): Device {
    Device(FreshRows(layers), FreshRows(layers),
           [ZeroHist(CHANNELS, 6), ZeroHist(CHANNELS, 6)], ZeroHist(CHANNELS, 6), FreshUps(), FreshRus(),
             ZeroHist(96, 6),
           seq(ROLES, _ => []), [], [])
  }

  lemma FreshState(net: Net)
    ensures StateIs(net, [], FreshDevice(net.layers))
  {
    hide FreshUps, BlocksUpto, FinalIn;
    var d := FreshDevice(net.layers);
    FreshConv(net, d.up, d.ru);
  }

  /** With nothing fed every signal is empty, so every history is its zero pad. */
  lemma FreshConv(net: Net, up: seq<seq<Col>>, ru: seq<seq<seq<Col>>>)
    requires |up| == |ru| == 4
    requires forall i: nat :: i < 4 ==> up[i] == ZeroHist(BLOCK_CIN[i], 1) && |ru[i]| == 3
    requires forall i: nat, r: nat :: i < 4 && r < 3 ==> ru[i][r] == ZeroHist(BLOCK_COUT[i], 6 * RU_DIL[r])
    ensures |Up0(net, [])| == |Up1(net, [])| == |Cnx1(net, [])| == |FinalIn(net, Cnx1(net, []))| == 0
    ensures BlocksUpto(net, 4, Cnx1(net, []), Cnx1(net, []), up, ru)
  {
    var x := Cnx1(net, []);
    BlockInLength(net, 4, x);
    forall i: nat | i < 4
      ensures up[i] == UpHist(net, i, x) && RuIs(net, i, x, ru[i])
    {
      FreshBlock(net, i, x, up[i], ru[i]);
    }
  }

  lemma FreshBlock(net: Net, i: nat, x: seq<Col>, up: seq<Col>, ru: seq<seq<Col>>)
    requires i < 4 && x == [] && |ru| == 3 && up == ZeroHist(BLOCK_CIN[i], 1)
    requires forall r: nat :: r < 3 ==> ru[r] == ZeroHist(BLOCK_COUT[i], 6 * RU_DIL[r])
    ensures up == UpHist(net, i, x) && RuIs(net, i, x, ru)
  {
    BlockInLength(net, i, x);
    BlockStageLength(net, i, 0, x);
    BlockStageLength(net, i, 1, x);
    BlockStageLength(net, i, 2, x);
  }

  // ---- post_module over new rows -----------------------------------------------------

  /** Rotated queries and the extended key and value rows of a layer's new input rows. */
  method ExtendKv(net: Net, l: nat, pos: nat, ks: seq<Col>, vs: seq<Col>, at1: seq<Col>,
                  ghost px: seq<Col>, ghost x: seq<Col>)
    returns (qs: seq<Col>, axk: seq<Col>, axv: seq<Col>)
    requires px <= x && pos == |px|
    requires at1 == Map(net.layer(l).attnNorm, x[|px|..])
    requires ks == Tail(KeyRows(net, l, px), Keep(|px|))
    requires vs == Tail(ValueRows(net, l, px), Keep(|px|))
    ensures qs == QueryRows(net, l, x)[|px|..]
    ensures axk == KeyExt(net, l, px, x) && axv == ValueExt(net, l, px, x)
  {
    var aq := Project(net.layer(l), at1);
    NewKv(net, l, x, |px|, aq);
    qs := RopeRows(net, pos, Queries(aq));
    axk := ks + RopeRows(net, pos, Keys(aq));
    axv := vs + Values(aq);
  }

  lemma KvAdvance(net: Net, l: nat, p: seq<Col>, q: seq<Col>, kh: seq<seq<Col>>, vh: seq<seq<Col>>, kl: seq<Col>,
                  vl: seq<Col>)
    requires l < net.layers && KvUpto(net, l, p, q, kh, vh) && KvIs(net, l, q, kl, vl)
    ensures KvUpto(net, l + 1, p, q, kh[l := kl], vh[l := vl])
  {
  }

  /** One transformer layer over tn new rows at absolute position pos; its history holds the last
      min(127, hl+tn) rows in front afterwards. */
  method PostLayer(net: Net, l: nat, pos: nat, hl: nat, tn: nat, kh: array<seq<Col>>, vh: array<seq<Col>>, x: seq<Col>,
                   ghost p: seq<Col>, ghost q: seq<Col>)
    returns (y: seq<Col>)
    requires p <= q && |q| - |p| == tn && pos == |p| && hl == Keep(|p|)
    requires l < net.layers && kh != vh && KvUpto(net, l, p, q, kh[..], vh[..]) && x == Rows(net, l, q)[|p|..]
    modifies kh, vh
    ensures KvUpto(net, l + 1, p, q, kh[..], vh[..]) && y == Rows(net, l + 1, q)[|p|..]
  {
    hide Rows, LayerOut, AttendRows, Sdpa, QueryRows, KeyExt, ValueExt, KeyRows, ValueRows, Mix;
    var ly := net.layer(l);
    ghost var px, qx, k0, v0 := Rows(net, l, p), Rows(net, l, q), kh[..], vh[..];
    RowsPrefix(net, l, p, q);
    assert KvIs(net, l, p, k0[l], v0[l]);
    var qs, axk, axv := ExtendKv(net, l, pos, kh[l][..hl], vh[l][..hl], Map(ly.attnNorm, x), px, qx);
    var att := Sdpa(net, qs, axk, axv, hl);
    SdpaExt(net, l, px, qx);
    y := RunMix(ly, x, att);
    MixedRows(net, l, qx, |p|, x, att, y);
    NextRows(net, l, q);
    var keep := if hl + tn < KVHIST then hl + tn else KVHIST;
    var from := hl + tn - keep;
    RetainedTail(net, l, px, qx);
    kh[l], vh[l] := axk[from..] + kh[l][keep..], axv[from..] + vh[l][keep..];
    KvAdvance(net, l, p, q, k0, v0, kh[l], vh[l]);
    assert kh[..] == k0[l := kh[l]] && vh[..] == v0[l := vh[l]];
  }

  /** All layers in turn, each updating its own K/V history. */
  method PostLayers(net: Net, pos: nat, hl: nat, tn: nat, kh: array<seq<Col>>, vh: array<seq<Col>>, x: seq<Col>,
                    ghost p: seq<Col>, ghost q: seq<Col>)
    returns (y: seq<Col>)
    requires p <= q && |q| - |p| == tn && pos == |p| && hl == Keep(|p|)
    requires kh != vh && KvUpto(net, 0, p, q, kh[..], vh[..]) && x == q[|p|..]
    modifies kh, vh
    ensures KvUpto(net, net.layers, p, q, kh[..], vh[..]) && y == Rows(net, net.layers, q)[|p|..]
  {
    y := x;
    for l := 0 to net.layers
      invariant KvUpto(net, l, p, q, kh[..], vh[..]) && y == Rows(net, l, q)[|p|..]
    {
      y := PostLayer(net, l, pos, hl, tn, kh, vh, y, p, q);
    }
  }

  // ---- one stage over new columns --------------------------------------------------

  /** conv_hist: convolve [history | new] unpadded, then keep its last (k-1)*dil columns. */
  method ConvHist(c: ConvW, k: nat, dil: nat, z: nat, h: seq<Col>, xs: seq<Col>, ghost p: seq<Col>, ghost q: seq<Col>)
    returns (h': seq<Col>, out: seq<Col>)
    requires k >= 1 && p <= q && h == HistOf((k - 1) * dil, z, p) && xs == q[|p|..]
    ensures h' == HistOf((k - 1) * dil, z, q)
    ensures out == Causal(c, k, dil, q)[|p|..]
  {
    var tn := |xs|;
    var ext := h + xs;
    out := Conv1d(c, k, dil, 0, ext, tn);
    h' := ext[tn..];
    ConvStep(c, k, dil, z, p, q);
    HistStep(p, q, (k - 1) * dil, z);
  }

  /** inc_cnx: ConvNeXt over new columns with its depthwise history. */
  method IncCnx(c: Cnx, h: seq<Col>, xs: seq<Col>, ghost p: seq<Col>, ghost q: seq<Col>)
    returns (h': seq<Col>, y: seq<Col>)
    requires p <= q && h == HistOf(6, CHANNELS, p) && xs == q[|p|..]
    ensures h' == HistOf(6, CHANNELS, q)
    ensures y == CnxOut(c, q)[|p|..]
  {
    var tA;
    h', tA := ConvHist(c.dw, 7, 1, CHANNELS, h, xs, p, q);
    var tB := Map(c.layernorm, tA);
    var tC := Map(c.gelu, Map(c.pw1, tB));
    CnxNew(c, p, q, tA);
    tA := Map(c.gamma, Map(c.pw2, tC));
    y := Zip(AddCol, xs, tA);
  }

  /** The column-wise part of a ConvNeXt block on new columns. */
  lemma CnxNew(c: Cnx, p: seq<Col>, q: seq<Col>, tA: seq<Col>)
    requires p <= q && tA == Causal(c.dw, 7, 1, q)[|p|..]
    ensures Zip(AddCol, q[|p|..], Map(c.gamma, Map(c.pw2, Map(c.gelu, Map(c.pw1, Map(c.layernorm, tA))))))
              == CnxOut(c, q)[|p|..]
  {
    var b := Map(c.gamma, Map(c.pw2, Map(c.gelu, Map(c.pw1, Map(c.layernorm, tA)))));
    var d := Map(e => CnxRow(c, e), Causal(c.dw, 7, 1, q));
    assert b == d[|p|..];
    assert Zip(AddCol, q[|p|..], b) == Zip(AddCol, q, d)[|p|..];
  }

  /** A residual unit over new columns with the history of its dilated convolution. */
  method IncRu(ru: Ru, dil: nat, z: nat, h: seq<Col>, xs: seq<Col>, ghost p: seq<Col>, ghost q: seq<Col>)
    returns (h': seq<Col>, y: seq<Col>)
    requires p <= q && h == HistOf(6 * dil, z, Map(ru.alpha0, p)) && xs == q[|p|..]
    ensures h' == HistOf(6 * dil, z, Map(ru.alpha0, q))
    ensures y == RuOut(ru, dil, q)[|p|..]
  {
    var bt1 := Map(ru.alpha0, xs);
    ghost var a, b := Map(ru.alpha0, p), Map(ru.alpha0, q);
    MapStep(ru.alpha0, p, q);
    var bt2;
    h', bt2 := ConvHist(ru.c7, 7, dil, z, h, bt1, a, b);
    RuNew(ru, dil, p, q, bt2);
    bt2 := Map(ru.alpha1, bt2);
    bt1 := Conv1d(ru.c1, 1, 1, 0, bt2, |bt2|);
    y := Zip(AddCol, xs, bt1);
  }

  /** The rest of a residual unit on new columns. */
  lemma RuNew(ru: Ru, dil: nat, p: seq<Col>, q: seq<Col>, o: seq<Col>)
    requires p <= q && o == Causal(ru.c7, 7, dil, Map(ru.alpha0, q))[|p|..]
    ensures Zip(AddCol, q[|p|..], Conv1d(ru.c1, 1, 1, 0, Map(ru.alpha1, o), |o|)) == RuOut(ru, dil, q)[|p|..]
  {
    var c := Causal(ru.c7, 7, dil, Map(ru.alpha0, q));
    assert Map(ru.alpha1, o) == Map(ru.alpha1, c)[|p|..];
    Pointwise(ru.c1, Map(ru.alpha1, c), |p|);
    assert Zip(AddCol, q[|p|..], Conv1d(ru.c1, 1, 1, 0, Map(ru.alpha1, o), |o|)) == RuOut(ru, dil, q)[|p|..];
  }

  /** A width-one convolution needs no history. */
  lemma Pointwise(c: ConvW, xs: seq<Col>, n: nat)
    requires n <= |xs|
    ensures Conv1d(c, 1, 1, 0, xs[n..], |xs| - n) == Causal(c, 1, 1, xs)[n..]
  {
    ConvStep(c, 1, 1, 0, xs[..n], xs);
    assert HistOf(0, 0, xs[..n]) + xs[n..] == xs[n..];
  }

  /** An up-sampler over [context | new], dropping the context column's outputs. */
  method UpHist1(c: TConvW, k: nat, s: nat, z: nat, h: seq<Col>, ys: seq<Col>, ghost p: seq<Col>, ghost q: seq<Col>)
    returns (h': seq<Col>, x: seq<Col>)
    requires k <= 2 * s && p <= q && h == HistOf(1, z, p) && ys == q[|p|..]
    ensures h' == HistOf(1, z, q)
    ensures |p| * s <= |q| * s && x == Upsample(c, k, s, q)[|p| * s..]
  {
    hide TConv, Upsample;
    var Lc := |ys|;
    var ext := h + ys;
    var Lo := UpLength(Lc, s);
    var bt2 := TConv(c, k, s, ext, Lo + s);
    x := bt2[s..];
    h' := ext[Lc..];
    HistStep(p, q, 1, z);
    Fewer(|p|, |q|, s);
    UpsampleStep(c, k, s, z, p, q);
  }

  /** A block's up-sampler over new columns with its one column of context. */
  method IncUp(net: Net, i: nat, h: seq<Col>, ys: seq<Col>, ghost p: seq<Col>, ghost q: seq<Col>)
    returns (h': seq<Col>, x: seq<Col>)
    requires i < 4 && p <= q && h == HistOf(1, BLOCK_CIN[i], p) && ys == q[|p|..]
    ensures h' == HistOf(1, BLOCK_CIN[i], q)
    ensures |p| * BLOCK_S[i] <= |q| * BLOCK_S[i]
    ensures x == Upsample(net.blockUp(i), BLOCK_K[i], BLOCK_S[i], q)[|p| * BLOCK_S[i]..]
  {
    hide HistOf, Upsample;
    h', x := UpHist1(net.blockUp(i), BLOCK_K[i], BLOCK_S[i], BLOCK_CIN[i], h, ys, p, q);
  }

  /** What stage r of block i still lacks of the longer signal. */
  ghost function StageNew(net: Net, i: nat, r: nat, px: seq<Col>, qx: seq<Col>): seq<Col>
    requires i < 4 && r <= 3 && px <= qx
  {
    BlockStagePrefix(net, i, r, px, qx);
    BlockStage(net, i, r, qx)[|BlockStage(net, i, r, px)|..]
  }

  ghost function BlockNew(net: Net, i: nat, px: seq<Col>, qx: seq<Col>): seq<Col>
    requires i <= 4 && px <= qx
  {
    BlockInPrefix(net, i, px, qx);
    BlockIn(net, i, qx)[|BlockIn(net, i, px)|..]
  }

  method IncBlockUp(net: Net, i: nat, up: seq<Col>, ys: seq<Col>, ghost px: seq<Col>, ghost qx: seq<Col>)
    returns (up': seq<Col>, xs: seq<Col>)
    requires i < 4 && px <= qx && up == UpHist(net, i, px) && ys == BlockNew(net, i, px, qx)
    ensures up' == UpHist(net, i, qx) && xs == StageNew(net, i, 0, px, qx)
  {
    BlockInPrefix(net, i, px, qx);
    MapStep(net.blockAlpha(i), BlockIn(net, i, px), BlockIn(net, i, qx));
    var snaked := Map(net.blockAlpha(i), ys);
    up', xs := IncUp(net, i, up, snaked, BlockSnaked(net, i, px), BlockSnaked(net, i, qx));
    BlockStagePrefix(net, i, 0, px, qx);
  }

  ghost predicate RuUpto(net: Net, i: nat, r: nat, px: seq<Col>, qx: seq<Col>, h: seq<seq<Col>>)
    requires i < 4
  {
    && |h| == 3
    && (forall s: nat :: s < r && s < 3 ==> h[s] == RuHist(net, i, s, qx))
    && (forall s: nat :: r <= s < 3 ==> h[s] == RuHist(net, i, s, px))
  }

  method IncBlockRu(net: Net, i: nat, r: nat, h: seq<seq<Col>>, xs: seq<Col>, ghost px: seq<Col>, ghost qx: seq<Col>)
    returns (h': seq<seq<Col>>, xs': seq<Col>)
    requires i < 4 && r < 3 && px <= qx && RuUpto(net, i, r, px, qx, h) && xs == StageNew(net, i, r, px, qx)
    ensures RuUpto(net, i, r + 1, px, qx, h') && xs' == StageNew(net, i, r + 1, px, qx)
  {
    ghost var a, b := BlockStage(net, i, r, px), BlockStage(net, i, r, qx);
    BlockStagePrefix(net, i, r, px, qx);
    BlockStagePrefix(net, i, r + 1, px, qx);
    var hr;
    hr, xs' := IncRu(net.ru(i, r), RU_DIL[r], BLOCK_COUT[i], h[r], xs, a, b);
    h' := h[r := hr];
  }

  /** One decoder block over new columns: up-sampler, then three residual units. */
  method IncBlock(net: Net, i: nat, up: seq<Col>, ru: seq<seq<Col>>, ys: seq<Col>, ghost px: seq<Col>,
                  ghost qx: seq<Col>)
    returns (up': seq<Col>, ru': seq<seq<Col>>, xs: seq<Col>)
    requires i < 4 && px <= qx && up == UpHist(net, i, px) && RuIs(net, i, px, ru)
    requires ys == BlockNew(net, i, px, qx)
    ensures up' == UpHist(net, i, qx) && RuIs(net, i, qx, ru')
    ensures xs == BlockNew(net, i + 1, px, qx)
  {
    hide BlockStage;
    up', xs := IncBlockUp(net, i, up, ys, px, qx);
    ru' := ru;
    for r := 0 to 3
      invariant RuUpto(net, i, r, px, qx, ru') && xs == StageNew(net, i, r, px, qx)
    {
      ru', xs := IncBlockRu(net, i, r, ru', xs, px, qx);
    }
  }

  /** The last convolution over new columns. */
  method IncFinal(net: Net, h: seq<Col>, ys: seq<Col>, ghost px: seq<Col>, ghost qx: seq<Col>)
    returns (h': seq<Col>, pcm: seq<Col>)
    requires px <= qx && h == HistOf(6, 96, FinalIn(net, px)) && ys == BlockNew(net, 4, px, qx)
    ensures h' == HistOf(6, 96, FinalIn(net, qx))
    ensures Pcm(net, qx) == Pcm(net, px) + pcm
  {
    var a := Map(net.decAlpha, ys);
    FinalNew(net, px, qx);
    var o;
    h', o := ConvHist(net.convf, 7, 1, 96, h, a, FinalIn(net, px), FinalIn(net, qx));
    pcm := Map(net.tanh, o);
    PcmNew(net, px, qx, pcm);
  }

  lemma FinalNew(net: Net, px: seq<Col>, qx: seq<Col>)
    requires px <= qx
    ensures FinalIn(net, px) <= FinalIn(net, qx)
    ensures Map(net.decAlpha, BlockNew(net, 4, px, qx)) == FinalIn(net, qx)[|FinalIn(net, px)|..]
  {
    BlockInPrefix(net, 4, px, qx);
    MapStep(net.decAlpha, BlockIn(net, 4, px), BlockIn(net, 4, qx));
  }

  lemma PcmNew(net: Net, px: seq<Col>, qx: seq<Col>, pcm: seq<Col>)
    requires px <= qx && FinalIn(net, px) <= FinalIn(net, qx)
    requires pcm == Map(net.tanh, Causal(net.convf, 7, 1, FinalIn(net, qx))[|FinalIn(net, px)|..])
    ensures Pcm(net, qx) == Pcm(net, px) + pcm
  {
    var a, b := Causal(net.convf, 7, 1, FinalIn(net, px)), Causal(net.convf, 7, 1, FinalIn(net, qx));
    ConvPrefix(net.convf, 7, 1, FinalIn(net, px), FinalIn(net, qx));
    MapStep(net.tanh, a, b);
    assert Map(net.tanh, b)[..|a|] == Map(net.tanh, a);
  }

  lemma BlocksAdvance(net: Net, i: nat, px: seq<Col>, qx: seq<Col>, up: seq<seq<Col>>, ru: seq<seq<seq<Col>>>,
                      ui: seq<Col>, ri: seq<seq<Col>>)
    requires i < 4 && BlocksUpto(net, i, px, qx, up, ru) && ui == UpHist(net, i, qx) && RuIs(net, i, qx, ri)
    ensures BlocksUpto(net, i + 1, px, qx, up[i := ui], ru[i := ri])
  {
    hide RuIs, UpHist;
  }

  /** Clamp frame-major codes [tn][10] into the codebook-major staging buffer [10][tn]. */
  method ClampFrameMajor(codes: seq<int>, tn: nat) returns (cl: array<int>)
    requires |codes| == 10 * tn
    ensures fresh(cl) && cl.Length == 10 * tn
    ensures forall t: nat, q: nat :: t < tn && q < 10 ==>
      cl[CodebookIndex(t, q, tn)] == ClampTo(codes[FrameIndex(t, q, tn)], CodeMax(q))
  {
    cl := new int[10 * tn];
    for t := 0 to tn
      invariant forall u: nat, q: nat :: u < t && q < 10 ==>
        cl[CodebookIndex(u, q, tn)] == ClampTo(codes[FrameIndex(u, q, tn)], CodeMax(q))
    {
      ClampOneFrame(codes, cl, t, tn);
    }
  }

  method ClampOneFrame(codes: seq<int>, cl: array<int>, t: nat, tn: nat)
    requires t < tn && |codes| == cl.Length == 10 * tn
    requires forall u: nat, q: nat :: u < t && q < 10 ==>
      cl[CodebookIndex(u, q, tn)] == ClampTo(codes[FrameIndex(u, q, tn)], CodeMax(q))
    modifies cl
    ensures forall u: nat, q: nat :: u <= t && q < 10 ==>
      cl[CodebookIndex(u, q, tn)] == ClampTo(codes[FrameIndex(u, q, tn)], CodeMax(q))
  {
    cl[t] := ClampTo(codes[FrameIndex(t, 0, tn)], CB_SIZE - 1);
    IndexApart(t, 0, tn);
    for q := 1 to 10
      invariant forall u: nat, r: nat :: u <= t && r < 10 && (u < t || r < q) ==>
        cl[CodebookIndex(u, r, tn)] == ClampTo(codes[FrameIndex(u, r, tn)], CodeMax(r))
    {
      IndexApart(t, q, tn);
      cl[CodebookIndex(t, q, tn)] := ClampTo(codes[FrameIndex(t, q, tn)], 1023);
    }
  }

  /** Distinct (frame, codebook) pairs have distinct places. */
  lemma IndexApart(t: nat, q: nat, tn: nat)
    requires t < tn && q < 10
    ensures CodebookIndex(t, 0, tn) == t
    ensures forall u: nat, r: nat :: u < tn && r < 10 && (u != t || r != q) ==>
      CodebookIndex(u, r, tn) != CodebookIndex(t, q, tn)
  {
    forall u: nat, r: nat | u < tn && r < 10 && (u != t || r != q)
      ensures CodebookIndex(u, r, tn) != CodebookIndex(t, q, tn)
    {
      if r < q {
        RowGap(r, q, tn);
      } else if q < r {
        RowGap(q, r, tn);
      }
    }
  }

  lemma RvqLoaded(net: Net, codes: seq<int>, cl: seq<int>, tn: nat)
    requires |codes| == |cl| == 10 * tn
    requires forall t: nat, q: nat :: t < tn && q < 10 ==>
      cl[CodebookIndex(t, q, tn)] == ClampTo(codes[FrameIndex(t, q, tn)], CodeMax(q))
    ensures RvqFromIndices(net, cl, tn) == Latents(net, FrameMajor(codes, tn))
  {
    forall t: nat | t < tn
      ensures CodebookMajor(cl, tn)[t] == ClampFrame(FrameMajor(codes, tn)[t])
    {
    }
  }

  // ---- the stages of a push ------------------------------------------------------------

  /** Where a push from latents p to latents q stands after stage k: the histories of finished
      stages hold q, the others still p, and the live buffer holds the next stage's new input. */
  ghost predicate FlightIs(net: Net, k: nat, p: seq<Col>, q: seq<Col>, d: Device) {
    && p <= q && |d.buf| == ROLES
    && (var z := if k >= 1 then q else p; KvUpto(net, net.layers, z, z, d.kh, d.vh))
    && CnxIs(net, if k >= 2 then q else p, d.cnx)
    && var px, qx := Cnx1(net, p), Cnx1(net, q);
    && px <= qx
    && d.c0 == HistOf(6, CHANNELS, if k >= 3 then qx else px)
    && BlocksUpto(net, BlocksAfter(k), px, qx, d.up, d.ru)
    && d.cf == HistOf(6, 96, FinalIn(net, if k >= 8 then qx else px))
    && LiveIs(net, k, p, q, d)
  }

  ghost predicate LiveIs(net: Net, k: nat, p: seq<Col>, q: seq<Col>, d: Device)
    requires p <= q && Cnx1(net, p) <= Cnx1(net, q) && |d.buf| == ROLES
  {
    var px, qx := Cnx1(net, p), Cnx1(net, q);
    if k == 0 then d.brow == q[|p|..]
    else if k == 1 then d.buf[BX] == Post(net, q)[|p|..]
    else if k == 2 then d.buf[BX] == qx[|px|..]
    else if k < 8 then d.buf[LiveRole(k - 3)] == BlockNew(net, k - 3, px, qx)
    else Pcm(net, qx) == Pcm(net, px) + d.pcm
  }

  /** The latents of a stream's new frames start its push. */
  lemma FlightStarts(net: Net, fed: seq<Frame>, fs: seq<Frame>, d: Device)
    requires StateIs(net, Latents(net, fed), d) && d.brow == Latents(net, fs)
    ensures FlightIs(net, 0, Latents(net, fed), Latents(net, fed + fs), d)
  {
    var p, q := Latents(net, fed), Latents(net, fed + fs);
    assert (fed + fs)[|fed|..] == fs;
    UpPrefix(net, p, q);
  }

  /** Clamp a push's codes and look them up. */
  method ClampLookup(net: Net, codes: seq<int>, tn: nat) returns (z: seq<Col>)
    requires |codes| == 10 * tn
    ensures z == Latents(net, FrameMajor(codes, tn))
  {
    var cl := ClampFrameMajor(codes, tn);
    RvqLoaded(net, codes, cl[..], tn);
    z := RvqFromIndices(net, cl[..], tn);
  }

  /** Codes upload, clamp and RVQ lookup. */
  method LoadCodes(net: Net, d: Device, codes: seq<int>, tn: nat, ghost fed: seq<Frame>) returns (d': Device)
    requires |codes| == 10 * tn && StateIs(net, Latents(net, fed), d)
    ensures FlightIs(net, 0, Latents(net, fed), Latents(net, fed + FrameMajor(codes, tn)), d')
  {
    hide FlightIs;
    var z := ClampLookup(net, codes, tn);
    d' := d.(buf := d.buf[BX := z], brow := z);
    FlightStarts(net, fed, FrameMajor(codes, tn), d');
  }

  /** inc_post: all layers and the final norm; the new columns end in bx. */
  method StagePost(net: Net, d: Device, pos: nat, hl: nat, tn: nat, ghost p: seq<Col>, ghost q: seq<Col>)
    returns (d': Device)
    requires FlightIs(net, 0, p, q, d) && |q| - |p| == tn && pos == |p| && hl == Keep(|p|)
    ensures FlightIs(net, 1, p, q, d')
  {
    hide CnxIs, BlocksUpto, StateIs;
    var kh := new seq<Col>[|d.kh|](i requires 0 <= i < |d.kh| => d.kh[i]);
    var vh := new seq<Col>[|d.vh|](i requires 0 <= i < |d.vh| => d.vh[i]);
    assert kh[..] == d.kh && vh[..] == d.vh;
    var y := PostLayers(net, pos, hl, tn, kh, vh, d.brow, p, q);
    RowsPrefix(net, net.layers, p, q);
    MapStep(net.postNorm, Rows(net, net.layers, p), Rows(net, net.layers, q));
    y := Map(net.postNorm, y);
    d' := d.(kh := kh[..], vh := vh[..], brow := y, buf := d.buf[BX := y]);
  }

  /** tconv k2 s2 (column-local), then ConvNeXt over new columns. */
  method IncUpStage(net: Net, i: nat, h: seq<Col>, xs: seq<Col>, ghost p: seq<Col>, ghost q: seq<Col>)
    returns (h': seq<Col>, y: seq<Col>)
    requires p <= q && xs == q[|p|..] && h == HistOf(6, CHANNELS, Upsample(net.upT(i), 2, 2, p))
    ensures h' == HistOf(6, CHANNELS, Upsample(net.upT(i), 2, 2, q))
    ensures var a, b := Upsample(net.upT(i), 2, 2, p), Upsample(net.upT(i), 2, 2, q);
            a <= b && y == CnxOut(net.upCnx(i), b)[|a|..]
  {
    y := TConv(net.upT(i), 2, 2, xs, 2 * |xs|);
    UpsampleLocal(net.upT(i), 2, 2, p, q);
    UpsamplePrefix(net.upT(i), 2, 2, p, q);
    h', y := IncCnx(net.upCnx(i), h, y, Upsample(net.upT(i), 2, 2, p), Upsample(net.upT(i), 2, 2, q));
  }

  /** Both up-sampling stages: bx to by to bx. */
  method StageUp(net: Net, d: Device, ghost p: seq<Col>, ghost q: seq<Col>) returns (d': Device)
    requires FlightIs(net, 1, p, q, d)
    ensures FlightIs(net, 2, p, q, d')
  {
    hide Post, Causal, Upsample, HistOf, KvUpto, BlocksUpto, CnxOut, BlockIn;
    PostPrefix(net, p, q);
    UpPrefix(net, p, q);
    var h0, y := IncUpStage(net, 0, d.cnx[0], d.buf[BX], Post(net, p), Post(net, q));
    var h1, x := IncUpStage(net, 1, d.cnx[1], y, Cnx0(net, p), Cnx0(net, q));
    d' := d.(cnx := [h0, h1], buf := d.buf[BY := y][BX := x]);
  }

  /** Decoder conv0 over [history | new]: bx to by. */
  method StageConv(net: Net, d: Device, ghost p: seq<Col>, ghost q: seq<Col>) returns (d': Device)
    requires FlightIs(net, 2, p, q, d)
    ensures FlightIs(net, 3, p, q, d')
  {
    var c0, out := ConvHist(net.conv0, 7, 1, CHANNELS, d.c0, d.buf[BX], Cnx1(net, p), Cnx1(net, q));
    d' := d.(c0 := c0, buf := d.buf[BY := out]);
  }

  /** Decoder block i: input in role y, output in role x. */
  method StageBlock(net: Net, i: nat, x: nat, y: nat, d: Device, ghost p: seq<Col>, ghost q: seq<Col>)
    returns (d': Device)
    requires i < 4 && FlightIs(net, 3 + i, p, q, d) && y == LiveRole(i) && x == LiveRole(i + 1)
    ensures FlightIs(net, 4 + i, p, q, d')
  {
    ghost var px, qx := Cnx1(net, p), Cnx1(net, q);
    var up, ru, xs := IncBlock(net, i, d.up[i], d.ru[i], d.buf[y], px, qx);
    BlocksAdvance(net, i, px, qx, d.up, d.ru, up, ru);
    d' := d.(up := d.up[i := up], ru := d.ru[i := ru], buf := d.buf[x := xs]);
  }

  /** The last stage writes its samples to role `out` (x in a single push, bt1 in a batch). */
  method StageFinal(net: Net, d: Device, out: nat, ghost p: seq<Col>, ghost q: seq<Col>) returns (d': Device)
    requires out < ROLES && FlightIs(net, 7, p, q, d)
    ensures FlightIs(net, 8, p, q, d')
  {
    var cf, pcm := IncFinal(net, d.cf, d.buf[LiveRole(4)], Cnx1(net, p), Cnx1(net, q));
    d' := d.(cf := cf, buf := d.buf[out := pcm], pcm := pcm);
  }

  lemma FlightDone(net: Net, fed: seq<Frame>, fs: seq<Frame>, d: Device)
    requires FlightIs(net, 8, Latents(net, fed), Latents(net, fed + fs), d)
    ensures StateIs(net, Latents(net, fed + fs), d)
    ensures Decode(net, fed + fs) == Decode(net, fed) + d.pcm
  {
  }

  // ---- the engine ------------------------------------------------------------------

  class Inc {
    const dac: Dac
    /** Device address of this stream's scratch allocation. */
    const base: int
    var pos: nat
    var kvLen: nat
    var dev: Device
    var pending: nat
    /** Every frame pushed so far. */
    ghost var fed: seq<Frame>

    ghost predicate OutputReady()
      reads this
    {
      && pending <= |fed|
      && Decode(dac.net, fed) == Decode(dac.net, fed[..|fed| - pending]) + dev.pcm
    }

    /** The engine's state is a function of the frames fed. */
    ghost predicate Valid()
      reads this
    {
      && pos == |fed| && kvLen == Keep(pos)
      && StateIs(dac.net, Latents(dac.net, fed), dev)
      && (pending > 0 ==> OutputReady())
    }

    /** s2pd_inc_create: zeroed histories, no retained rows. */
    constructor (d: Dac, base: int)
      ensures dac == d && this.base == base && fed == [] && pos == 0 && pending == 0
      ensures Valid()
    {
      dac, this.base := d, base;
      pos, kvLen, pending := 0, 0, 0;
      dev := FreshDevice(d.net.layers);
      fed := [];
      new;
      FreshState(dac.net);
      assert Latents(dac.net, fed) == [];
    }

    /** The pipeline of one push; x and y swap roles after every decoder block. */
    method RunStages(codes: seq<int>, tn: nat)
      requires Valid() && |codes| == 10 * tn
      modifies this`dev
      ensures FlightIs(dac.net, 8, Latents(dac.net, fed), Latents(dac.net, fed + FrameMajor(codes, tn)), dev)
    {
      hide FlightIs, CnxIs, BlocksUpto, StateIs;
      var net := dac.net;
      ghost var p, q := Latents(net, fed), Latents(net, fed + FrameMajor(codes, tn));
      var d := LoadCodes(net, dev, codes, tn, fed);
      d := StagePost(net, d, pos, kvLen, tn, p, q);
      d := StageUp(net, d, p, q);
      d := StageConv(net, d, p, q);
      d := RunBlocks(net, d, p, q);
      d := StageFinal(net, d, BX, p, q);
      dev := d;
    }

    /** Account for the pushed frames. */
    method Commit(tn: nat, ghost fs: seq<Frame>)
      modifies this`pending, this`pos, this`kvLen, this`fed
      ensures pending == tn && pos == old(pos) + tn && fed == old(fed) + fs
      ensures old(Landed(tn, fs)) ==> Valid()
    {
      hide FlightIs;
      if Landed(tn, fs) {
        assert (fed + fs)[..|fed|] == fed;
        FlightDone(dac.net, fed, fs, dev);
      }
      pending := tn;
      pos := pos + tn;
      kvLen := if kvLen + tn < KVHIST then kvLen + tn else KVHIST;
      fed := fed + fs;
    }

    /** All stages of a push of tn frames are done, and it has not been accounted for. */
    ghost predicate Landed(tn: nat, fs: seq<Frame>)
      reads this
    {
      && pos == |fed| && kvLen == Keep(pos) && tn == |fs|
      && FlightIs(dac.net, 8, Latents(dac.net, fed), Latents(dac.net, fed + fs), dev)
    }

    /** s2pd_inc_push_async: 1..8 frames, one push in flight at a time. */
    method PushAsync(codes: seq<int>, tn: int) returns (st: Status)
      requires Valid()
      requires 1 <= tn <= MAX_TN ==> |codes| == 10 * tn
      modifies this, dac
      ensures Valid() && st == PushStatus(old(pos), old(pending), tn)
      ensures st == OK ==> fed == old(fed) + FrameMajor(codes, tn) && pending == tn && pos == old(pos) + tn
      ensures st == OK ==> dac.ropeRows >= pos
      ensures st != OK ==> fed == old(fed) && pending == old(pending) && pos == old(pos) && dev == old(dev)
    {
      hide FrameMajor, Keep, Inc.OutputReady;
      if tn < 1 || tn > MAX_TN {
        return Invalid;
      }
      if pending != 0 {
        return WrongState;
      }
      if pos + tn > INT32_MAX / 4 {
        return Invalid;
      }
      dac.RopeEnsure(pos + tn);
      RunStages(codes, tn);
      Commit(tn, FrameMajor(codes, tn));
      st := OK;
    }

    /** s2pd_inc_collect: the samples in flight, or none. */
    method Collect() returns (pcm: seq<Col>)
      requires Valid()
      modifies this`pending
      ensures Valid() && pending == 0
      ensures pcm == if old(pending) == 0 then [] else dev.pcm
      ensures old(pending) <= |fed| && |pcm| == FRAME_SAMPLES * old(pending)
      ensures Decode(dac.net, fed) == Decode(dac.net, fed[..|fed| - old(pending)]) + pcm
    {
      if pending == 0 {
        assert fed[..|fed|] == fed;
        return [];
      }
      pcm := dev.pcm;
      DecodeLength(dac.net, fed);
      DecodeLength(dac.net, fed[..|fed| - pending]);
      pending := 0;
    }
  }

  ghost predicate BlocksRun(net: Net, i: nat, p: seq<Col>, q: seq<Col>, d: Device) {
    FlightIs(net, 3 + i, p, q, d)
  }

  method RunBlocks(net: Net, d: Device, ghost p: seq<Col>, ghost q: seq<Col>) returns (d': Device)
    requires FlightIs(net, 3, p, q, d)
    ensures FlightIs(net, 7, p, q, d')
  {
    d' := d;
    var x, y := BX, BY;
    for i := 0 to 4
      invariant x == LiveRole(i + 1) && y == LiveRole(i) && BlocksRun(net, i, p, q, d')
    {
      d' := StageBlock(net, i, x, y, d', p, q);
      RolesSwap(i);
      x, y := y, x;
    }
  }
}
