/** The whole-buffer decode: every stage over the full sequence, in four
    rotating workspace buffers. */
module Whole {
  import opened Basics
  import opened Kernels
  import opened Codec

  const INT32_MAX: int := 0x7fff_ffff

  /** The loaded codec: immutable weights, and the growable rotation table. */
  class Dac {
    const net: Net
    var ropeRows: nat

    constructor (net: Net)
      ensures this.net == net && ropeRows == 8192
    {
      this.net := net;
      ropeRows := 8192;
    }

    /** Doubles the table until it covers the rows asked for; never shrinks it,
        and for the streaming limit never leaves the 32-bit range. */
    method RopeEnsure(needed: int)
      modifies this
      ensures ropeRows >= needed && ropeRows >= old(ropeRows)
      ensures needed <= INT32_MAX / 4 && old(ropeRows) <= INT32_MAX ==> ropeRows <= INT32_MAX
    {
      if needed <= ropeRows {
        return;
      }
      var rows := if ropeRows > 0 then ropeRows else 8192;
      while rows < needed
        invariant 0 < rows && old(ropeRows) <= rows
        invariant needed <= INT32_MAX / 4 && old(ropeRows) <= INT32_MAX ==> rows <= INT32_MAX
        decreases needed - rows
      {
        rows := rows * 2;
      }
      ropeRows := rows;
    }
  }

  /** Which code a position of a codebook-major buffer holds: the first row is the semantic codebook. */
  function RowMax(i: nat, tn: nat): int {
    if i < tn then CB_SIZE - 1 else 1023
  }

  /** Clamp a copy into the codebook-major staging buffer, row by row. */
  method ClampCodebookMajor(codes: seq<int>, tn: nat) returns (cl: array<int>)
    requires |codes| == 10 * tn
    ensures fresh(cl) && cl.Length == 10 * tn
    ensures forall i: nat :: i < 10 * tn ==> cl[i] == ClampTo(codes[i], RowMax(i, tn))
  {
    hide ClampTo, RowMax;
    cl := new int[10 * tn];
    ClampFirst(codes, cl, tn);
    for q := 1 to 10
      invariant forall i: nat :: i < q * tn ==> cl[i] == ClampTo(codes[i], RowMax(i, tn))
    {
      ClampRow(codes, cl, q, tn);
    }
  }

  /** The semantic codebook's row. */
  method ClampFirst(codes: seq<int>, cl: array<int>, tn: nat)
    requires |codes| == cl.Length == 10 * tn
    modifies cl
    ensures forall i: nat :: i < 1 * tn ==> cl[i] == ClampTo(codes[i], RowMax(i, tn))
  {
    hide ClampTo;
    for t := 0 to tn
      invariant forall i: nat :: i < t ==> cl[i] == ClampTo(codes[i], RowMax(i, tn))
    {
      cl[t] := ClampTo(codes[t], CB_SIZE - 1);
    }
  }

  /** One residual codebook's row. */
  method ClampRow(codes: seq<int>, cl: array<int>, q: nat, tn: nat)
    requires 1 <= q < 10 && |codes| == cl.Length == 10 * tn
    requires forall i: nat :: i < q * tn ==> cl[i] == ClampTo(codes[i], RowMax(i, tn))
    modifies cl
    ensures forall i: nat :: i < (q + 1) * tn ==> cl[i] == ClampTo(codes[i], RowMax(i, tn))
  {
    var base := q * tn;
    RowBounds(q, tn);
    for t := 0 to tn
      invariant forall i: nat :: i < base + t ==> cl[i] == ClampTo(codes[i], RowMax(i, tn))
    {
      cl[base + t] := ClampTo(codes[base + t], 1023);
    }
  }

  lemma RowBounds(q: nat, tn: nat)
    requires 1 <= q < 10
    ensures tn <= q * tn && (q + 1) * tn == q * tn + tn <= 10 * tn
  {
  }

  /** s2pdk_rvq_from_indices: column t looks up the ten codes codes[q*T + t]. */
  function RvqFromIndices(net: Net, cl: seq<int>, tn: nat): (z: seq<Col>)
    requires |cl| == 10 * tn
    ensures |z| == tn
  {
    seq(tn, t requires 0 <= t < tn => net.rvq(CodebookMajor(cl, tn)[t]))
  }

  lemma RvqClamped(net: Net, codes: seq<int>, cl: seq<int>, tn: nat)
    requires |codes| == |cl| == 10 * tn
    requires forall i: nat :: i < 10 * tn ==> cl[i] == ClampTo(codes[i], RowMax(i, tn))
    ensures RvqFromIndices(net, cl, tn) == Latents(net, CodebookMajor(codes, tn))
  {
    forall t: nat | t < tn
      ensures CodebookMajor(cl, tn)[t] == ClampFrame(CodebookMajor(codes, tn)[t])
    {
      forall q: nat | q < 10
        ensures RowMax(CodebookIndex(t, q, tn), tn) == CodeMax(q)
      {
        if q > 0 {
          RowBounds(q, tn);
        }
      }
    }
  }

  // ---- the stages, in place on the workspace -----------------------------------

  method RunRu(ru: Ru, dil: nat, bufs: array<seq<Col>>, x: nat, t1: nat, t2: nat)
    requires bufs.Length == 4 && x < 4 && t1 < 4 && t2 < 4 && x != t1 && x != t2 && t1 != t2
    modifies bufs
    ensures bufs[x] == RuOut(ru, dil, old(bufs[x]))
  {
    var T := |bufs[x]|;
    bufs[t1] := Map(ru.alpha0, bufs[x]);
    bufs[t2] := Conv1d(ru.c7, 7, dil, 6 * dil, bufs[t1], T);
    bufs[t2] := Map(ru.alpha1, bufs[t2]);
    bufs[t1] := Conv1d(ru.c1, 1, 1, 0, bufs[t2], T);
    bufs[x] := Zip(AddCol, bufs[x], bufs[t1]);
  }

  method RunCnx(c: Cnx, bufs: array<seq<Col>>, x: nat, tA: nat, tB: nat, tC: nat)
    requires bufs.Length == 4 && x < 4 && tA < 4 && tB < 4 && tC < 4
    requires x != tA && x != tB && x != tC && tA != tB && tA != tC && tB != tC
    modifies bufs
    ensures bufs[x] == CnxOut(c, old(bufs[x]))
  {
    bufs[tA] := Conv1d(c.dw, 7, 1, 6, bufs[x], |bufs[x]|);
    bufs[tB] := Map(c.layernorm, bufs[tA]);
    bufs[tC] := Map(c.pw1, bufs[tB]);
    bufs[tC] := Map(c.gelu, bufs[tC]);
    bufs[tA] := Map(c.pw2, bufs[tC]);
    bufs[tA] := Map(c.gamma, bufs[tA]);
    bufs[tB] := bufs[tA];
    ghost var d := Causal(c.dw, 7, 1, bufs[x]);
    assert bufs[tB] == Map(e => CnxRow(c, e), d);
    bufs[x] := Zip(AddCol, bufs[x], bufs[tB]);
  }

  /** The attention half of a layer over all rows. */
  method RunAttention(net: Net, l: nat, x: seq<Col>) returns (att: seq<Col>)
    ensures att == AttendRows(net, l, x)
  {
    var ly := net.layer(l);
    var t1 := Map(ly.attnNorm, x);
    var qkv := Project(ly, t1);
    var qs := RopeRows(net, 0, Queries(qkv));
    var ks := RopeRows(net, 0, Keys(qkv));
    forall t: nat | t < |x|
      ensures ks[t] == KeyRows(net, l, x)[t]
    {
      assert qkv[t] == QkvOf(ly, x[t]);
      assert Keys(qkv)[t] == qkv[t].k;
      assert ks[t] == net.rope(0 + t, Keys(qkv)[t]);
    }
    assert ks == KeyRows(net, l, x);
    assert Values(qkv) == ValueRows(net, l, x);
    att := Sdpa(net, qs, ks, Values(qkv), 0);
  }

  /** Output projection, residual and feed-forward of a layer, row by row. */
  method RunMix(ly: Layer, x: seq<Col>, att: seq<Col>) returns (y: seq<Col>)
    requires |att| == |x|
    ensures |y| == |x|
    ensures forall t: nat :: t < |x| ==> y[t] == Mix(ly, x[t], att[t])
  {
    var t3 := Map(ly.wo, att);
    y := Zip(ly.gAttn, x, t3);
    var t1 := Map(ly.ffnNorm, y);
    var t2 := Map(ly.w1, t1);
    t3 := Map(ly.w3, t1);
    t2 := Zip(ly.siluMul, t2, t3);
    t1 := Map(ly.w2, t2);
    y := Zip(ly.gFfn, y, t1);
  }

  method RunTf(net: Net, z: seq<Col>) returns (x: seq<Col>)
    ensures x == Post(net, z)
  {
    x := z;
    for i := 0 to net.layers
      invariant x == Rows(net, i, z)
    {
      var att := RunAttention(net, i, x);
      var y := RunMix(net.layer(i), x, att);
      assert y == LayerOut(net, i, x);
      x := y;
    }
    x := Map(net.postNorm, x);
  }

  /** (cur + k) & 3 */
  function Rot(cur: nat, k: nat): (r: nat)
    requires cur < 4 && k < 4
    ensures r < 4
  {
    if cur + k < 4 then cur + k else cur + k - 4
  }

  function UpLength(n: nat, s: nat): nat {
    n * s
  }

  /** Snake and up-sampler of block i; the result is in the next buffer. */
  method RunBlockUp(net: Net, i: nat, bufs: array<seq<Col>>, cur: nat, ghost x: seq<Col>) returns (nxt: nat)
    requires i < 4 && bufs.Length == 4 && cur < 4 && bufs[cur] == BlockIn(net, i, x)
    modifies bufs
    ensures nxt < 4 && bufs[nxt] == BlockStage(net, i, 0, x)
  {
    bufs[cur] := Map(net.blockAlpha(i), bufs[cur]);
    assert bufs[cur] == BlockSnaked(net, i, x);
    nxt := Rot(cur, 1);
    var Lo := UpLength(|bufs[cur]|, BLOCK_S[i]);
    bufs[nxt] := TConv(net.blockUp(i), BLOCK_K[i], BLOCK_S[i], bufs[cur], Lo);
  }

  lemma BlockStageNext(net: Net, i: nat, r: nat, x: seq<Col>)
    requires i < 4 && r < 3
    ensures BlockStage(net, i, r + 1, x) == RuOut(net.ru(i, r), RU_DIL[r], BlockStage(net, i, r, x))
    ensures BlockIn(net, i + 1, x) == BlockStage(net, i, 3, x)
  {
  }

  /** One decoder block on bufs[cur]; the result is in the next buffer. */
  method RunBlock(net: Net, i: nat, bufs: array<seq<Col>>, cur: nat, ghost x: seq<Col>) returns (nxt: nat)
    requires i < 4 && bufs.Length == 4 && cur < 4 && bufs[cur] == BlockIn(net, i, x)
    modifies bufs
    ensures nxt < 4 && bufs[nxt] == BlockIn(net, i + 1, x)
  {
    hide BlockStage, BlockIn, RuOut;
    nxt := RunBlockUp(net, i, bufs, cur, x);
    for r := 0 to 3
      invariant bufs[nxt] == BlockStage(net, i, r, x)
    {
      BlockStageNext(net, i, r, x);
      RunRu(net.ru(i, r), RU_DIL[r], bufs, nxt, Rot(nxt, 1), Rot(nxt, 2));
    }
    BlockStageNext(net, i, 2, x);
  }

  method RunDecoderStack(net: Net, bufs: array<seq<Col>>, start: nat) returns (out: nat)
    requires bufs.Length == 4 && start < 4
    modifies bufs
    ensures out < 4 && bufs[out] == Pcm(net, old(bufs[start]))
  {
    ghost var x := bufs[start];
    var cur := Rot(start, 1);
    bufs[cur] := Conv1d(net.conv0, 7, 1, 6, bufs[start], |bufs[start]|);
    for i := 0 to 4
      invariant cur < 4 && bufs[cur] == BlockIn(net, i, x)
    {
      cur := RunBlock(net, i, bufs, cur, x);
    }
    bufs[cur] := Map(net.decAlpha, bufs[cur]);
    out := Rot(cur, 1);
    bufs[out] := Conv1d(net.convf, 7, 1, 6, bufs[cur], |bufs[cur]|);
    bufs[out] := Map(net.tanh, bufs[out]);
  }

  /** Both up-samplers with their ConvNeXt blocks, from bufs[0] back into bufs[0]. */
  method RunUpsample(net: Net, bufs: array<seq<Col>>, ghost z: seq<Col>)
    requires bufs.Length == 4 && bufs[0] == Post(net, z)
    modifies bufs
    ensures bufs[0] == Cnx1(net, z)
  {
    var T := |bufs[0]|;
    bufs[1] := TConv(net.upT(0), 2, 2, bufs[0], 2 * T);
    assert bufs[1] == Up0(net, z);
    RunCnx(net.upCnx(0), bufs, 1, 2, 3, 0);
    assert bufs[1] == Cnx0(net, z);
    bufs[0] := TConv(net.upT(1), 2, 2, bufs[1], 4 * T);
    assert bufs[0] == Up1(net, z);
    RunCnx(net.upCnx(1), bufs, 0, 2, 3, 1);
  }

  /** s2p_dac_decode: codebook-major codes [10][T] to 2048*T samples. */
  method DecodeAll(d: Dac, codes: seq<int>, T: int) returns (st: Status, pcm: seq<Col>)
    requires T >= 1 ==> |codes| == 10 * T
    modifies d
    ensures T < 1 ==> st == Invalid && pcm == []
    ensures T >= 1 ==> st == OK && pcm == Decode(d.net, CodebookMajor(codes, T)) && |pcm| == FRAME_SAMPLES * T
  {
    if T < 1 {
      return Invalid, [];
    }
    d.RopeEnsure(T);
    var net := d.net;
    var cl := ClampCodebookMajor(codes, T);
    ghost var fs := CodebookMajor(codes, T);
    ghost var z := Latents(net, fs);
    var bufs := new seq<Col>[4](_ => []);
    bufs[0] := RvqFromIndices(net, cl[..], T);
    assert bufs[0] == z by {
      RvqClamped(net, codes, cl[..], T);
    }
    bufs[1] := RunTf(net, bufs[0]);
    bufs[0] := bufs[1];
    RunUpsample(net, bufs, z);
    var out := RunDecoderStack(net, bufs, 0);
    pcm := bufs[out];
    st := OK;
    DecodeLength(net, fs);
  }
}
