/** What the program of a push does to one stream: the same stages as a single push, in that
    stream's own scratch regions. */
module OpsSound {
  import opened Kernels
  import opened Codec
  import opened Scratch
  import opened Incremental
  import opened Ops

  /** The stream as a single push would hold it. */
  function AsDevice(v: Sess): Device {
    v.d.(buf := [Read(v.loc, BX), Read(v.loc, BY), Read(v.loc, BT1), Read(v.loc, BT2), Read(v.loc, BEXT)],
         brow := Read(v.loc, BROW))
  }

  /** A stream tn frames into the future, position and retained rows still those of p. */
  ghost predicate Frames(p: seq<Col>, q: seq<Col>, tn: nat, v: Sess) {
    && p <= q && |q| == |p| + tn && 1 <= tn <= MAX_TN && v.pos == |p| && v.hl == Keep(|p|) && Tidy(v.loc)
  }

  ghost predicate StageAt(net: Net, k: nat, p: seq<Col>, q: seq<Col>, tn: nat, v: Sess) {
    Frames(p, q, tn, v) && FlightIs(net, k, p, q, AsDevice(v))
  }

  // ---- a transformer layer ------------------------------------------------------------------------

  /** Layers below l are done; everything but the key and value rows is as at the start. */
  ghost predicate RowsAt(net: Net, l: nat, p: seq<Col>, q: seq<Col>, tn: nat, d0: Device, v: Sess) {
    && Frames(p, q, tn, v) && v.d == d0.(kh := v.d.kh, vh := v.d.vh)
    && KvUpto(net, l, p, q, v.d.kh, v.d.vh) && Read(v.loc, BROW) == Rows(net, l, q)[|p|..]
  }

  /** After the attention half of a layer. */
  ghost predicate AttendedAt(net: Net, l: nat, p: seq<Col>, q: seq<Col>, tn: nat, d0: Device, v: Sess) {
    && RowsAt(net, l, p, q, tn, d0, v) && Rows(net, l, p) <= Rows(net, l, q)
    && Read(v.loc, AT1) == AttendRows(net, l, Rows(net, l, q))[|p|..]
    && Read(v.loc, AXK) == KeyExt(net, l, Rows(net, l, p), Rows(net, l, q))
    && Read(v.loc, AXV) == ValueExt(net, l, Rows(net, l, p), Rows(net, l, q))
  }

  /** The joint projection splits into queries, keys and values. */
  lemma QkvParts(ly: Layer, xs: seq<Col>)
    ensures var aq, n, qkv := ByQkv(ly)(xs), |xs|, Project(ly, xs);
            Take(aq, n) == Queries(qkv) && Take(Drop(aq, n), n) == Keys(qkv) && Drop(aq, 2 * n) == Values(qkv)
  {
  }

  lemma AttendPartsAre(net: Net, l: nat, tn: nat, p: seq<Col>, q: seq<Col>, v: Sess)
    requires Frames(p, q, tn, v) && l < net.layers && KvUpto(net, l, p, q, v.d.kh, v.d.vh)
    requires Read(v.loc, AQ) == ByQkv(net.layer(l))(Map(net.layer(l).attnNorm, Rows(net, l, q)[|p|..]))
    ensures Rows(net, l, p) <= Rows(net, l, q)
    ensures var (aq, axk, axv, att) := AttendParts(net, tn, Read(v.loc, AQ), v.d.kh[l], v.d.vh[l], v.pos, v.hl);
            && axk == KeyExt(net, l, Rows(net, l, p), Rows(net, l, q))
            && axv == ValueExt(net, l, Rows(net, l, p), Rows(net, l, q))
            && att == AttendRows(net, l, Rows(net, l, q))[|p|..]
  {
    hide Rows, AttendRows, Sdpa, KeyExt, ValueExt, RopeRows, Project, Queries, Keys, Values, QueryRows, KeyRows;
    hide ValueRows;
    var ly, px, qx := net.layer(l), Rows(net, l, p), Rows(net, l, q);
    RowsPrefix(net, l, p, q);
    assert KvIs(net, l, p, v.d.kh[l], v.d.vh[l]);
    var xs := Map(ly.attnNorm, qx[|p|..]);
    QkvParts(ly, xs);
    NewKv(net, l, qx, |p|, Project(ly, xs));
    AttendExt(net, l, px, qx);
  }

  lemma AttendExt(net: Net, l: nat, px: seq<Col>, qx: seq<Col>)
    requires px <= qx
    ensures var hl := Keep(|px|);
            && KeyExt(net, l, px, qx) == Tail(KeyRows(net, l, px), hl) + KeyRows(net, l, qx)[|px|..]
            && ValueExt(net, l, px, qx) == Tail(ValueRows(net, l, px), hl) + ValueRows(net, l, qx)[|px|..]
            && Sdpa(net, QueryRows(net, l, qx)[|px|..], KeyExt(net, l, px, qx), ValueExt(net, l, px, qx), hl)
                 == AttendRows(net, l, qx)[|px|..]
  {
    hide AttendRows, Sdpa, KeyRows, ValueRows, QueryRows;
    SdpaExt(net, l, px, qx);
  }

  lemma AttendSound(net: Net, l: nat, tn: nat, p: seq<Col>, q: seq<Col>, d0: Device, d: seq<Op>, s: Sess)
    requires AllReady(d) && l < net.layers && RowsAt(net, l, p, q, tn, d0, Run(net, d, s))
    ensures AllReady(AttendProg(net, l, tn, d))
    ensures AttendedAt(net, l, p, q, tn, d0, Run(net, AttendProg(net, l, tn, d), s))
  {
    hide Rows, AttendRows, KeyExt, ValueExt, ByQkv, KvIs, Tidy, Write, Run, AttendParts, Offset;
    var ly, v := net.layer(l), Run(net, d, s);
    var a := Kernel(BROW, AT1, 1024 * tn, ByCol(ly.attnNorm));
    var b := Kernel(AT1, AQ, 3072 * tn, ByQkv(ly));
    var c := Attend(l, tn);
    RunSnoc(net, d, a, s);
    RunSnoc(net, d + [a], b, s);
    RunSnoc(net, d + [a] + [b], c, s);
    var v1 := Do(net, a, v);
    WriteRead(v.loc, AT1, 1024 * tn, a.f(Read(v.loc, BROW)));
    var v2 := Do(net, b, v1);
    WriteRead(v1.loc, AQ, 3072 * tn, b.f(Read(v1.loc, AT1)));
    AttendPartsAre(net, l, tn, p, q, v2);
    var (aq, axk, axv, att) := AttendParts(net, tn, Read(v2.loc, AQ), v2.d.kh[l], v2.d.vh[l], v2.pos, v2.hl);
    var w := Write(v2.loc, AQ, 3072 * tn, aq);
    WriteRead(v2.loc, AQ, 3072 * tn, aq);
    var x := Write(w, AXK, 1024 * (v2.hl + tn), axk);
    WriteRead(w, AXK, 1024 * (v2.hl + tn), axk);
    var y := Write(x, AXV, 1024 * (v2.hl + tn), axv);
    WriteRead(x, AXV, 1024 * (v2.hl + tn), axv);
    WriteRead(y, AT1, 1024 * tn, att);
  }

  /** What the eight kernels of the mixing half compute, row by row. */
  function MixOf(ly: Layer, xs: seq<Col>, att: seq<Col>): seq<Col>
    requires |xs| == |att|
  {
    var y := Zip(ly.gAttn, xs, Map(ly.wo, att));
    var h := Map(ly.ffnNorm, y);
    Zip(ly.gFfn, y, Map(ly.w2, Zip(ly.siluMul, Map(ly.w1, h), Map(ly.w3, h))))
  }

  lemma MixRows(net: Net, l: nat, p: seq<Col>, q: seq<Col>, xs: seq<Col>, att: seq<Col>)
    requires p <= q && xs == Rows(net, l, q)[|p|..] && att == AttendRows(net, l, Rows(net, l, q))[|p|..]
    ensures |xs| == |att| && MixOf(net.layer(l), xs, att) == Rows(net, l + 1, q)[|p|..]
  {
    hide Rows, AttendRows;
    NextRows(net, l, q);
    MixedRows(net, l, Rows(net, l, q), |p|, xs, att, MixOf(net.layer(l), xs, att));
  }

  /** The first four kernels: attention is added, and normalised rows stand in at1. */
  lemma MixFirst(net: Net, l: nat, tn: nat, v: Sess) returns (v3: Sess)
    requires 1 <= tn <= MAX_TN && Tidy(v.loc) && |Read(v.loc, BROW)| == |Read(v.loc, AT1)|
    ensures var ly, y := net.layer(l),
      Zip(net.layer(l).gAttn, Read(v.loc, BROW), Map(net.layer(l).wo, Read(v.loc, AT1)));
            && v3 == Do(net, Kernel(BROW, AT1, 1024 * tn, ByCol(ly.ffnNorm)),
                        Do(net, Kernel2(BROW, AT3, BROW, 1024 * tn, ByPair(ly.gAttn)),
                           Do(net, Kernel(AT1, AT3, 1024 * tn, ByCol(ly.wo)), v)))
            && Tidy(v3.loc) && v3 == v.(loc := v3.loc) && Read(v3.loc, BROW) == y
              && Read(v3.loc, AT1) == Map(ly.ffnNorm, y)
            && Read(v3.loc, AXK) == Read(v.loc, AXK) && Read(v3.loc, AXV) == Read(v.loc, AXV)
  {
    hide Tidy, Write, Zip, Map;
    var ly := net.layer(l);
    var a, b, c := Kernel(AT1, AT3, 1024 * tn, ByCol(ly.wo)), Kernel2(BROW, AT3, BROW, 1024 * tn, ByPair(ly.gAttn)),
                   Kernel(BROW, AT1, 1024 * tn, ByCol(ly.ffnNorm));
    var v1 := Do(net, a, v);
    WriteRead(v.loc, AT3, 1024 * tn, a.f(Read(v.loc, AT1)));
    var v2 := Do(net, b, v1);
    WriteRead(v1.loc, BROW, 1024 * tn, b.g(Read(v1.loc, BROW), Read(v1.loc, AT3)));
    v3 := Do(net, c, v2);
    WriteRead(v2.loc, AT1, 1024 * tn, c.f(Read(v2.loc, BROW)));
  }

  /** The other five: the feed-forward of at1 is added. */
  lemma MixSecond(net: Net, l: nat, tn: nat, v: Sess) returns (v5: Sess)
    requires 1 <= tn <= MAX_TN && Tidy(v.loc) && |Read(v.loc, BROW)| == |Read(v.loc, AT1)|
    ensures var ly, y, h := net.layer(l), Read(v.loc, BROW), Read(v.loc, AT1);
            && v5 == Do(net, Kernel2(BROW, AT1, BROW, 1024 * tn, ByPair(ly.gFfn)),
                        Do(net, Kernel(AF1, AT1, 1024 * tn, ByCol(ly.w2)),
                           Do(net, Kernel2(AF1, AF2, AF1, 3072 * tn, ByPair(ly.siluMul)),
                              Do(net, Kernel(AT1, AF2, 3072 * tn, ByCol(ly.w3)),
                                 Do(net, Kernel(AT1, AF1, 3072 * tn, ByCol(ly.w1)), v)))))
            && Tidy(v5.loc) && v5 == v.(loc := v5.loc)
            && Read(v5.loc, BROW) == Zip(ly.gFfn, y, Map(ly.w2, Zip(ly.siluMul, Map(ly.w1, h), Map(ly.w3, h))))
            && Read(v5.loc, AXK) == Read(v.loc, AXK) && Read(v5.loc, AXV) == Read(v.loc, AXV)
  {
    hide Tidy, Write, Zip, Map;
    var ly := net.layer(l);
    var a, b := Kernel(AT1, AF1, 3072 * tn, ByCol(ly.w1)), Kernel(AT1, AF2, 3072 * tn, ByCol(ly.w3));
    var c, e := Kernel2(AF1, AF2, AF1, 3072 * tn, ByPair(ly.siluMul)), Kernel(AF1, AT1, 1024 * tn, ByCol(ly.w2));
    var g := Kernel2(BROW, AT1, BROW, 1024 * tn, ByPair(ly.gFfn));
    var v1 := Do(net, a, v);
    WriteRead(v.loc, AF1, 3072 * tn, a.f(Read(v.loc, AT1)));
    var v2 := Do(net, b, v1);
    WriteRead(v1.loc, AF2, 3072 * tn, b.f(Read(v1.loc, AT1)));
    var v3 := Do(net, c, v2);
    WriteRead(v2.loc, AF1, 3072 * tn, c.g(Read(v2.loc, AF1), Read(v2.loc, AF2)));
    var v4 := Do(net, e, v3);
    WriteRead(v3.loc, AT1, 1024 * tn, e.f(Read(v3.loc, AF1)));
    v5 := Do(net, g, v4);
    WriteRead(v4.loc, BROW, 1024 * tn, g.g(Read(v4.loc, BROW), Read(v4.loc, AT1)));
  }

  lemma MixRun(net: Net, l: nat, tn: nat, d: seq<Op>, s: Sess) returns (v: Sess)
    requires AllReady(d) && 1 <= tn <= MAX_TN && Tidy(Run(net, d, s).loc)
    requires |Read(Run(net, d, s).loc, BROW)| == |Read(Run(net, d, s).loc, AT1)|
    ensures AllReady(MixProg(net, l, tn, d)) && v == Run(net, MixProg(net, l, tn, d), s)
    ensures var u := Run(net, d, s);
            && Tidy(v.loc) && v == u.(loc := v.loc)
            && Read(v.loc, BROW) == MixOf(net.layer(l), Read(u.loc, BROW), Read(u.loc, AT1))
            && Read(v.loc, AXK) == Read(u.loc, AXK) && Read(v.loc, AXV) == Read(u.loc, AXV)
  {
    hide Tidy, Write, Run, Do;
    var ly := net.layer(l);
    var a, b, c := Kernel(AT1, AT3, 1024 * tn, ByCol(ly.wo)), Kernel2(BROW, AT3, BROW, 1024 * tn, ByPair(ly.gAttn)),
                   Kernel(BROW, AT1, 1024 * tn, ByCol(ly.ffnNorm));
    var e, f := Kernel(AT1, AF1, 3072 * tn, ByCol(ly.w1)), Kernel(AT1, AF2, 3072 * tn, ByCol(ly.w3));
    var g, h := Kernel2(AF1, AF2, AF1, 3072 * tn, ByPair(ly.siluMul)), Kernel(AF1, AT1, 1024 * tn, ByCol(ly.w2));
    var k := Kernel2(BROW, AT1, BROW, 1024 * tn, ByPair(ly.gFfn));
    RunSnoc(net, d, a, s);
    RunSnoc(net, d + [a], b, s);
    RunSnoc(net, d + [a] + [b], c, s);
    RunSnoc(net, d + [a] + [b] + [c], e, s);
    RunSnoc(net, d + [a] + [b] + [c] + [e], f, s);
    RunSnoc(net, d + [a] + [b] + [c] + [e] + [f], g, s);
    RunSnoc(net, d + [a] + [b] + [c] + [e] + [f] + [g], h, s);
    RunSnoc(net, d + [a] + [b] + [c] + [e] + [f] + [g] + [h], k, s);
    var v3 := MixFirst(net, l, tn, Run(net, d, s));
    v := MixSecond(net, l, tn, v3);
  }

  /** The front rows of a buffer overwritten by the last rows of [retained | new]. */
  lemma RetainRows(was: seq<Col>, ext: seq<Col>, hl: nat, tn: nat)
    requires |was| == KVHIST && |ext| == hl + tn
    ensures var keep := Keep(hl + tn);
            var r := Take(Drop(ext, hl + tn - keep), keep) + Drop(was, keep);
            |r| == KVHIST && r[..keep] == ext[|ext| - keep..]
  {
  }

  lemma RetainSound(net: Net, l: nat, tn: nat, p: seq<Col>, q: seq<Col>, v: Sess)
    requires Frames(p, q, tn, v) && l < net.layers && KvUpto(net, l, p, q, v.d.kh, v.d.vh)
    requires Rows(net, l, p) <= Rows(net, l, q)
    requires Read(v.loc, AXK) == KeyExt(net, l, Rows(net, l, p), Rows(net, l, q))
    requires Read(v.loc, AXV) == ValueExt(net, l, Rows(net, l, p), Rows(net, l, q))
    ensures var u := Do(net, Retain(l, tn), v);
            && u == v.(d := v.d.(kh := u.d.kh, vh := u.d.vh)) && KvUpto(net, l + 1, p, q, u.d.kh, u.d.vh)
  {
    hide Rows, KeyExt, ValueExt, Tidy, KeyRows, ValueRows, Read, Take, Drop;
    var px, qx := Rows(net, l, p), Rows(net, l, q);
    RetainedTail(net, l, px, qx);
    var u := Do(net, Retain(l, tn), v);
    var k, w := v.d.kh[l], v.d.vh[l];
    assert KvIs(net, l, p, k, w);
    RetainRows(k, Read(v.loc, AXK), v.hl, tn);
    RetainRows(w, Read(v.loc, AXV), v.hl, tn);
    assert KvIs(net, l, q, u.d.kh[l], u.d.vh[l]);
    KvAdvance(net, l, p, q, v.d.kh, v.d.vh, u.d.kh[l], u.d.vh[l]);
  }

  lemma LayerSound(net: Net, l: nat, tn: nat, p: seq<Col>, q: seq<Col>, d0: Device, d: seq<Op>, s: Sess)
    requires AllReady(d) && l < net.layers && RowsAt(net, l, p, q, tn, d0, Run(net, d, s))
    ensures AllReady(LayerProg(net, l, tn, d))
    ensures RowsAt(net, l + 1, p, q, tn, d0, Run(net, LayerProg(net, l, tn, d), s))
  {
    hide Rows, AttendRows, KeyExt, ValueExt, KvUpto, Tidy, Write, Run, Do, AttendProg, MixProg, MixOf;
    AttendSound(net, l, tn, p, q, d0, d, s);
    var a := AttendProg(net, l, tn, d);
    var u := Run(net, a, s);
    MixRows(net, l, p, q, Read(u.loc, BROW), Read(u.loc, AT1));
    var v := MixRun(net, l, tn, a, s);
    RetainSound(net, l, tn, p, q, v);
    RunSnoc(net, MixProg(net, l, tn, a), Retain(l, tn), s);
  }

  lemma {:induction false} LayersSound(net: Net, n: nat, tn: nat, p: seq<Col>, q: seq<Col>, d0: Device, s: Sess)
    requires n <= net.layers && RowsAt(net, 0, p, q, tn, d0, s)
    ensures AllReady(LayersProg(net, n, tn, []))
    ensures RowsAt(net, n, p, q, tn, d0, Run(net, LayersProg(net, n, tn, []), s))
    decreases n
  {
    hide RowsAt, LayerProg;
    if n > 0 {
      LayersSound(net, n - 1, tn, p, q, d0, s);
      LayerSound(net, n - 1, tn, p, q, d0, LayersProg(net, n - 1, tn, []), s);
    }
  }

  /** All layers still to do, and all done. */
  lemma KvEnds(net: Net, p: seq<Col>, q: seq<Col>, kh: seq<seq<Col>>, vh: seq<seq<Col>>)
    ensures KvUpto(net, net.layers, p, p, kh, vh) ==> KvUpto(net, 0, p, q, kh, vh)
    ensures KvUpto(net, net.layers, p, q, kh, vh) ==> KvUpto(net, net.layers, q, q, kh, vh)
  {
  }

  /** The transformer takes a stream from its latents to the rows entering the up-samplers. */
  lemma PostSound(net: Net, tn: nat, p: seq<Col>, q: seq<Col>, s: Sess)
    requires StageAt(net, 0, p, q, tn, s)
    ensures AllReady(PostProg(net, tn, [])) && StageAt(net, 1, p, q, tn, Run(net, PostProg(net, tn, []), s))
  {
    hide KvUpto, CnxIs, BlocksUpto, Tidy, Write, Run, LayersProg, AttendRow, Mix;
    KvEnds(net, p, q, s.d.kh, s.d.vh);
    LayersSound(net, net.layers, tn, p, q, s.d, s);
    var d := LayersProg(net, net.layers, tn, []);
    var v := Run(net, d, s);
    KvEnds(net, p, q, v.d.kh, v.d.vh);
    var a, b := Kernel(BROW, BROW, 1024 * tn, ByCol(net.postNorm)), Kernel(BROW, BX, 1024 * tn, Same());
    RunSnoc(net, d, a, s);
    RunSnoc(net, d + [a], b, s);
    var v1 := Do(net, a, v);
    WriteRead(v.loc, BROW, 1024 * tn, a.f(Read(v.loc, BROW)));
    var v2 := Do(net, b, v1);
    WriteRead(v1.loc, BX, 1024 * tn, b.f(Read(v1.loc, BROW)));
    RowsPrefix(net, net.layers, p, q);
    MapStep(net.postNorm, Rows(net, net.layers, p), Rows(net, net.layers, q));
    assert Read(v2.loc, BX) == Post(net, q)[|p|..];
  }

  /** One kernel: its output region holds its value, the regions apart from it what they held. */
  lemma OneKernel(net: Net, src: nat, dst: nat, n: nat, f: seq<Col> -> seq<Col>, v: Sess) returns (w: Sess)
    requires src < TAB_ROLES && dst < TAB_ROLES && n <= Cap(dst) && Tidy(v.loc)
    ensures w == Do(net, Kernel(src, dst, n, f), v) && Tidy(w.loc) && w == v.(loc := w.loc)
    ensures Read(w.loc, dst) == f(Read(v.loc, src))
    ensures forall s: nat :: s < REGIONS && RegionsApart(dst, s) ==> Read(w.loc, s) == Read(v.loc, s)
  {
    hide Tidy, Write;
    w := Do(net, Kernel(src, dst, n, f), v);
    WriteRead(v.loc, dst, n, f(Read(v.loc, src)));
  }

  // ---- a convolution over [history | new] -----------------------------------------------------------

  /** Regions other than `dst` and the extension buffer, which holds the hidden rows of a ConvNeXt
      block in its back. */
  predicate Spared(s: nat, dst: nat) {
    s < REGIONS && s != dst && s != BEXT && s != B32K
  }

  /** Extend, convolve, retain. */
  lemma ConvRun(net: Net, h: HistId, src: nat, dst: nat, n: nat, m: nat, c: ConvW, k: nat, dil: nat, t: nat, v: Sess)
    returns (w: Sess)
    requires src < TAB_ROLES && Spared(dst, src) && dst < TAB_ROLES && n <= Cap(BEXT) && m <= Cap(dst) && Tidy(v.loc)
    ensures var ext := HistGet(v.d, h) + Read(v.loc, src);
            && w == Do(net, HistUpdate(h, t),
              Do(net, Kernel(BEXT, dst, m, ByConv(c, k, dil, t)), Do(net, ExtBuild(h, src, n), v)))
            && Tidy(w.loc) && w == v.(loc := w.loc, d := HistSet(v.d, h, Drop(ext, t)))
            && Read(w.loc, dst) == Conv1d(c, k, dil, 0, ext, t)
            && forall s: nat :: Spared(s, dst) ==> Read(w.loc, s) == Read(v.loc, s)
  {
    hide Tidy, Write, Conv1d, HistGet, HistSet, Drop;
    var a, b := ExtBuild(h, src, n), Kernel(BEXT, dst, m, ByConv(c, k, dil, t));
    var v1 := Do(net, a, v);
    WriteRead(v.loc, BEXT, n, HistGet(v.d, h) + Read(v.loc, src));
    var v2 := Do(net, b, v1);
    WriteRead(v1.loc, dst, m, b.f(Read(v1.loc, BEXT)));
    w := Do(net, HistUpdate(h, t), v2);
  }

  /** What that leaves, against the whole signal. */
  lemma ConvNew(c: ConvW, k: nat, dil: nat, z: nat, p: seq<Col>, q: seq<Col>, h: seq<Col>, xs: seq<Col>)
    requires k >= 1 && p <= q && h == HistOf((k - 1) * dil, z, p) && xs == q[|p|..]
    ensures Conv1d(c, k, dil, 0, h + xs, |xs|) == Causal(c, k, dil, q)[|p|..]
    ensures Drop(h + xs, |xs|) == HistOf((k - 1) * dil, z, q)
  {
    hide Conv1d, Causal;
    ConvStep(c, k, dil, z, p, q);
    HistStep(p, q, (k - 1) * dil, z);
  }

  // ---- up-sampling --------------------------------------------------------------------------------------

  /** The column-wise kernels of a ConvNeXt block and its residual sum. */
  lemma CnxColumns(net: Net, i: nat, x: nat, t: nat, v: Sess) returns (w: Sess)
    requires (x == BX || x == BY) && 1 <= t <= 32 && Tidy(v.loc) && |Read(v.loc, x)| == |Read(v.loc, BT1)|
    ensures var c := net.upCnx(i);
            && w == Do(net, Kernel2(x, BT2, x, 1024 * t, ByPair(AddCol)),
                       Do(net, Kernel(BT1, BT2, 1024 * t, Same()),
                          Do(net, Kernel(BT1, BT1, 1024 * t, ByCol(c.gamma)),
                             Do(net, Kernel(B32K, BT1, 1024 * t, ByCol(c.pw2)),
                                Do(net, Kernel(B32K, B32K, 4096 * t, ByCol(c.gelu)),
                                   Do(net, Kernel(BT2, B32K, 4096 * t, ByCol(c.pw1)),
                                      Do(net, Kernel(BT2, BT2, 1024 * t, ByCol(c.layernorm)),
                                         Do(net, Kernel(BT1, BT2, 1024 * t, Same()), v))))))))
            && Tidy(w.loc) && w == v.(loc := w.loc)
            && Read(w.loc, x) == Zip(AddCol, Read(v.loc, x),
                                     Map(c.gamma, Map(c.pw2, Map(c.gelu,
                                       Map(c.pw1, Map(c.layernorm, Read(v.loc, BT1)))))))
  {
    hide Tidy, Write, Zip, Map, Read;
    var c := net.upCnx(i);
    var v1 := Do(net, Kernel(BT1, BT2, 1024 * t, Same()), v);
    WriteRead(v.loc, BT2, 1024 * t, Same()(Read(v.loc, BT1)));
    var v2 := Do(net, Kernel(BT2, BT2, 1024 * t, ByCol(c.layernorm)), v1);
    WriteRead(v1.loc, BT2, 1024 * t, ByCol(c.layernorm)(Read(v1.loc, BT2)));
    var v3 := Do(net, Kernel(BT2, B32K, 4096 * t, ByCol(c.pw1)), v2);
    WriteRead(v2.loc, B32K, 4096 * t, ByCol(c.pw1)(Read(v2.loc, BT2)));
    var v4 := Do(net, Kernel(B32K, B32K, 4096 * t, ByCol(c.gelu)), v3);
    WriteRead(v3.loc, B32K, 4096 * t, ByCol(c.gelu)(Read(v3.loc, B32K)));
    var v5 := Do(net, Kernel(B32K, BT1, 1024 * t, ByCol(c.pw2)), v4);
    WriteRead(v4.loc, BT1, 1024 * t, ByCol(c.pw2)(Read(v4.loc, B32K)));
    var v6 := Do(net, Kernel(BT1, BT1, 1024 * t, ByCol(c.gamma)), v5);
    WriteRead(v5.loc, BT1, 1024 * t, ByCol(c.gamma)(Read(v5.loc, BT1)));
    var v7 := Do(net, Kernel(BT1, BT2, 1024 * t, Same()), v6);
    WriteRead(v6.loc, BT2, 1024 * t, Same()(Read(v6.loc, BT1)));
    w := Do(net, Kernel2(x, BT2, x, 1024 * t, ByPair(AddCol)), v7);
    WriteRead(v7.loc, x, 1024 * t, ByPair(AddCol)(Read(v7.loc, x), Read(v7.loc, BT2)));
  }

  lemma CnxRun(net: Net, i: nat, x: nat, t: nat, d: seq<Op>, s: Sess) returns (w: Sess)
    requires AllReady(d) && (x == BX || x == BY) && 1 <= t <= 32 && Tidy(Run(net, d, s).loc)
    requires |Read(Run(net, d, s).loc, x)| == t
    ensures AllReady(CnxProg(net, i, x, t, d)) && w == Run(net, CnxProg(net, i, x, t, d), s)
    ensures var u, c := Run(net, d, s), net.upCnx(i);
            var ext := HistGet(u.d, CnxH(i)) + Read(u.loc, x);
            && Tidy(w.loc) && w == u.(loc := w.loc, d := HistSet(u.d, CnxH(i), Drop(ext, t)))
            && Read(w.loc, x) == Zip(AddCol, Read(u.loc, x),
                  Map(c.gamma, Map(c.pw2, Map(c.gelu, Map(c.pw1, Map(c.layernorm, Conv1d(c.dw, 7, 1, 0, ext, t)))))))
  {
    hide Tidy, Write, Zip, Map, Run, Do, HistGet, HistSet, Drop;
    var u, c := Run(net, d, s), net.upCnx(i);
    var a1, a2, a3 := ExtBuild(CnxH(i), x, 1024 * (6 + t)), Kernel(BEXT, BT1, 1024 * t, ByConv(c.dw, 7, 1, t)),
      HistUpdate(CnxH(i), t);
    var b1, b2 := Kernel(BT1, BT2, 1024 * t, Same()), Kernel(BT2, BT2, 1024 * t, ByCol(c.layernorm));
    var b3, b4 := Kernel(BT2, B32K, 4096 * t, ByCol(c.pw1)), Kernel(B32K, B32K, 4096 * t, ByCol(c.gelu));
    var b5, b6 := Kernel(B32K, BT1, 1024 * t, ByCol(c.pw2)), Kernel(BT1, BT1, 1024 * t, ByCol(c.gamma));
    var b7, b8 := Kernel(BT1, BT2, 1024 * t, Same()), Kernel2(x, BT2, x, 1024 * t, ByPair(AddCol));
    RunSnoc(net, d, a1, s);
    RunSnoc(net, d + [a1], a2, s);
    RunSnoc(net, d + [a1] + [a2], a3, s);
    var e := d + [a1] + [a2] + [a3];
    var v := ConvRun(net, CnxH(i), x, BT1, 1024 * (6 + t), 1024 * t, c.dw, 7, 1, t, u);
    RunSnoc(net, e, b1, s);
    RunSnoc(net, e + [b1], b2, s);
    RunSnoc(net, e + [b1] + [b2], b3, s);
    RunSnoc(net, e + [b1] + [b2] + [b3], b4, s);
    RunSnoc(net, e + [b1] + [b2] + [b3] + [b4], b5, s);
    RunSnoc(net, e + [b1] + [b2] + [b3] + [b4] + [b5], b6, s);
    RunSnoc(net, e + [b1] + [b2] + [b3] + [b4] + [b5] + [b6], b7, s);
    RunSnoc(net, e + [b1] + [b2] + [b3] + [b4] + [b5] + [b6] + [b7], b8, s);
    w := CnxColumns(net, i, x, t, v);
  }

  /** A ConvNeXt block in place on a region, against the whole signal. */
  lemma CnxSound(net: Net, i: nat, x: nat, t: nat, d: seq<Op>, s: Sess, a: seq<Col>, b: seq<Col>)
    requires AllReady(d) && (x == BX || x == BY) && 1 <= t <= 32 && Tidy(Run(net, d, s).loc)
    requires a <= b && |b| == |a| + t && Read(Run(net, d, s).loc, x) == b[|a|..]
    requires |Run(net, d, s).d.cnx| == 2 && i < 2 && Run(net, d, s).d.cnx[i] == HistOf(6, CHANNELS, a)
    ensures AllReady(CnxProg(net, i, x, t, d))
    ensures var u, w := Run(net, d, s), Run(net, CnxProg(net, i, x, t, d), s);
            && Tidy(w.loc) && w == u.(loc := w.loc, d := u.d.(cnx := u.d.cnx[i := HistOf(6, CHANNELS, b)]))
            && Read(w.loc, x) == CnxOut(net.upCnx(i), b)[|a|..]
  {
    hide Tidy, Write, Run, CnxProg, HistOf, CnxOut, Zip, Map, Conv1d, Causal;
    var u, c := Run(net, d, s), net.upCnx(i);
    var w := CnxRun(net, i, x, t, d, s);
    ConvNew(c.dw, 7, 1, CHANNELS, a, b, u.d.cnx[i], b[|a|..]);
    CnxNew(c, a, b, Conv1d(c.dw, 7, 1, 0, u.d.cnx[i] + b[|a|..], t));
  }

  /** An up-sampler by two, column-local, then its ConvNeXt block. */
  lemma UpOne(net: Net, i: nat, src: nat, dst: nat, t: nat, d: seq<Op>, s: Sess, a: seq<Col>, b: seq<Col>)
    requires AllReady(d) && ((src == BX && dst == BY) || (src == BY && dst == BX)) && 1 <= t <= 16
    requires Tidy(Run(net, d, s).loc)
    requires a <= b && |b| == |a| + t && Read(Run(net, d, s).loc, src) == b[|a|..] && i < 2
    requires |Run(net, d, s).d.cnx| == 2
    requires Run(net, d, s).d.cnx[i] == HistOf(6, CHANNELS, Upsample(net.upT(i), 2, 2, a))
    ensures var e := d + [Kernel(src, dst, 1024 * (2 * t), ByTConv(net.upT(i), 2, 2, 2 * t))];
            && AllReady(e) && AllReady(CnxProg(net, i, dst, 2 * t, e))
            && var u, w := Run(net, d, s), Run(net, CnxProg(net, i, dst, 2 * t, e), s);
            var f, g := Upsample(net.upT(i), 2, 2, a), Upsample(net.upT(i), 2, 2, b);
            && f <= g && |g| == |f| + 2 * t && Tidy(w.loc)
            && w == u.(loc := w.loc, d := u.d.(cnx := u.d.cnx[i := HistOf(6, CHANNELS, g)]))
            && Read(w.loc, dst) == CnxOut(net.upCnx(i), g)[|f|..]
  {
    hide Tidy, Write, Run, CnxProg, HistOf, CnxOut, TConvAt;
    var k := Kernel(src, dst, 1024 * (2 * t), ByTConv(net.upT(i), 2, 2, 2 * t));
    var u := Run(net, d, s);
    RunSnoc(net, d, k, s);
    WriteRead(u.loc, dst, 1024 * (2 * t), k.f(Read(u.loc, src)));
    var c := net.upT(i);
    UpsampleLocal(c, 2, 2, a, b);
    UpsamplePrefix(c, 2, 2, a, b);
    CnxSound(net, i, dst, 2 * t, d + [k], s, Upsample(c, 2, 2, a), Upsample(c, 2, 2, b));
  }

  /** Both up-sampling stages. */
  lemma UpSound(net: Net, tn: nat, p: seq<Col>, q: seq<Col>, d: seq<Op>, s: Sess)
    requires AllReady(d) && StageAt(net, 1, p, q, tn, Run(net, d, s))
    ensures AllReady(UpProg(net, tn, d)) && StageAt(net, 2, p, q, tn, Run(net, UpProg(net, tn, d), s))
  {
    hide Rows, KvUpto, BlocksUpto, Tidy, Write, Run, CnxProg, HistOf, CnxOut, Upsample, Post;
    PostPrefix(net, p, q);
    UpPrefix(net, p, q);
    UpOne(net, 0, BX, BY, tn, d, s, Post(net, p), Post(net, q));
    var a := CnxProg(net, 0, BY, 2 * tn, d + [Kernel(BX, BY, 1024 * (2 * tn), ByTConv(net.upT(0), 2, 2, 2 * tn))]);
    UpOne(net, 1, BY, BX, 2 * tn, a, s, Cnx0(net, p), Cnx0(net, q));
    assert 2 * (2 * tn) == 4 * tn;
  }

  // ---- the decoder ----------------------------------------------------------------------------------------

  lemma LatentColumns(net: Net, p: seq<Col>, q: seq<Col>)
    requires p <= q
    ensures Cnx1(net, p) <= Cnx1(net, q)
    ensures |Cnx1(net, p)| == 4 * |p| && |Cnx1(net, q)| == 4 * |q|
  {
    UpPrefix(net, p, q);
  }

  /** The first decoder convolution. */
  lemma ConvSound(net: Net, tn: nat, p: seq<Col>, q: seq<Col>, d: seq<Op>, s: Sess)
    requires AllReady(d) && StageAt(net, 2, p, q, tn, Run(net, d, s))
    ensures AllReady(ConvProg(net, tn, d)) && StageAt(net, 3, p, q, tn, Run(net, ConvProg(net, tn, d), s))
  {
    hide Rows, KvUpto, CnxIs, BlocksUpto, Tidy, Write, Run, Do, HistOf, Cnx1, Conv1d, Causal;
    var t, u, c := 4 * tn, Run(net, d, s), net.conv0;
    LatentColumns(net, p, q);
    var a1, a2, a3 := ExtBuild(C0H, BX, 1024 * (6 + t)), Kernel(BEXT, BY, 1536 * t, ByConv(c, 7, 1, t)),
      HistUpdate(C0H, t);
    RunSnoc(net, d, a1, s);
    RunSnoc(net, d + [a1], a2, s);
    RunSnoc(net, d + [a1] + [a2], a3, s);
    var w := ConvRun(net, C0H, BX, BY, 1024 * (6 + t), 1536 * t, c, 7, 1, t, u);
    ConvNew(c, 7, 1, CHANNELS, Cnx1(net, p), Cnx1(net, q), u.d.c0, Read(u.loc, BX));
  }

  /** What the largest push writes fits every region of the decoder. */
  lemma BlockFits(i: nat, tn: nat)
    requires i < 4 && 1 <= tn <= MAX_TN
    ensures BLOCK_CIN[i] * Cols(i, tn) <= BUF_FLOATS && BLOCK_CIN[i] * (1 + Cols(i, tn)) <= BUF_FLOATS
    ensures BLOCK_COUT[i] * (Cols(i + 1, tn) + BLOCK_S[i]) <= BUF_FLOATS
    ensures BLOCK_COUT[i] * Cols(i + 1, tn) <= BUF_FLOATS
    ensures forall r: nat :: r < 3 ==> BLOCK_COUT[i] * (6 * RU_DIL[r] + Cols(i + 1, tn)) <= BUF_FLOATS
    ensures Cols(i, tn) * BLOCK_S[i] == Cols(i + 1, tn)
  {
    if i == 0 {
    } else if i == 1 {
    } else if i == 2 {
    } else {
    }
  }

  /** Columns a push adds at every stage of the decoder. */
  lemma NewColumns(net: Net, i: nat, tn: nat, p: seq<Col>, q: seq<Col>)
    requires p <= q && |q| == |p| + tn && i < 4
    ensures Cnx1(net, p) <= Cnx1(net, q)
    ensures var px, qx := Cnx1(net, p), Cnx1(net, q);
            && |BlockNew(net, i, px, qx)| == Cols(i, tn) && |BlockNew(net, i + 1, px, qx)| == Cols(i + 1, tn)
            && forall r: nat :: r <= 3 ==> |StageNew(net, i, r, px, qx)| == Cols(i + 1, tn)
  {
    hide Cnx1, BlockIn, BlockStage;
    LatentColumns(net, p, q);
    var px, qx := Cnx1(net, p), Cnx1(net, q);
    BlockInLength(net, i, px);
    BlockInLength(net, i, qx);
    BlockInLength(net, i + 1, px);
    BlockInLength(net, i + 1, qx);
    forall r: nat | r <= 3
      ensures |StageNew(net, i, r, px, qx)| == Cols(i + 1, tn)
    {
      BlockStageLength(net, i, r, px);
      BlockStageLength(net, i, r, qx);
    }
  }

  /** Block i's up-sampler and its first r residual units are done; d0 is the stream as the block
      began. */
  ghost predicate UnitAt(net: Net, i: nat, r: nat, p: seq<Col>, q: seq<Col>, tn: nat, d0: Device, v: Sess)
    requires i < 4 && r <= 3
  {
    && Frames(p, q, tn, v) && Cnx1(net, p) <= Cnx1(net, q)
    && |d0.up| == |d0.ru| == |v.d.ru| == 4 && v.d == d0.(up := v.d.up, ru := d0.ru[i := v.d.ru[i]])
    && v.d.up == d0.up[i := UpHist(net, i, Cnx1(net, q))]
    && RuUpto(net, i, r, Cnx1(net, p), Cnx1(net, q), v.d.ru[i])
    && Read(v.loc, LiveRole(i + 1)) == StageNew(net, i, r, Cnx1(net, p), Cnx1(net, q))
  }

  /** The four operations of a block's up-sampler. */
  lemma BlockUpRun(net: Net, i: nat, x: nat, y: nat, tn: nat, d: seq<Op>, s: Sess) returns (w: Sess)
    requires AllReady(d) && i < 4 && 1 <= tn <= MAX_TN && x == LiveRole(i + 1) && y == LiveRole(i)
    requires Tidy(Run(net, d, s).loc)
    ensures AllReady(BlockUpProg(net, i, x, y, tn, d)) && w == Run(net, BlockUpProg(net, i, x, y, tn, d), s)
    ensures var u, t, k := Run(net, d, s), Cols(i, tn), BLOCK_S[i];
            var ext := HistGet(u.d, UpH(i)) + Map(net.blockAlpha(i), Read(u.loc, y));
            && Tidy(w.loc) && w == u.(loc := w.loc, d := HistSet(u.d, UpH(i), Drop(ext, t)))
            && Read(w.loc, x) == Drop(TConv(net.blockUp(i), BLOCK_K[i], k, ext, Cols(i + 1, tn) + k), k)
  {
    hide Tidy, Write, Run, HistGet, HistSet, Drop, Map, TConv, Read, Cols, Offset, Keep;
    BlockFits(i, tn);
    var u, t, k := Run(net, d, s), Cols(i, tn), BLOCK_S[i];
    var a := Kernel(y, y, BLOCK_CIN[i] * t, ByCol(net.blockAlpha(i)));
    var b := ExtBuild(UpH(i), y, BLOCK_CIN[i] * (1 + t));
    var c := Kernel(BEXT, BT2, BLOCK_COUT[i] * (Cols(i + 1, tn) + k),
      ByTConv(net.blockUp(i), BLOCK_K[i], k, Cols(i + 1, tn) + k));
    var e := DropUp(UpH(i), k, x, BLOCK_COUT[i] * Cols(i + 1, tn), t);
    RunSnoc(net, d, a, s);
    RunSnoc(net, d + [a], b, s);
    RunSnoc(net, d + [a] + [b], c, s);
    RunSnoc(net, d + [a] + [b] + [c], e, s);
    var v1 := Do(net, a, u);
    WriteRead(u.loc, y, a.n, a.f(Read(u.loc, y)));
    var v2 := Do(net, b, v1);
    WriteRead(v1.loc, BEXT, b.n, HistGet(v1.d, UpH(i)) + Read(v1.loc, y));
    var v3 := Do(net, c, v2);
    WriteRead(v2.loc, BT2, c.n, c.f(Read(v2.loc, BEXT)));
    w := Do(net, e, v3);
    WriteRead(v3.loc, x, e.n, Drop(Read(v3.loc, BT2), k));
  }

  /** What they leave, against the whole signal. */
  lemma BlockUpNew(net: Net, i: nat, h: seq<Col>, ys: seq<Col>, px: seq<Col>, qx: seq<Col>)
    requires i < 4 && px <= qx && h == UpHist(net, i, px) && ys == BlockNew(net, i, px, qx)
    ensures var ext := h + Map(net.blockAlpha(i), ys);
            && Drop(ext, |ys|) == UpHist(net, i, qx)
            && Drop(TConv(net.blockUp(i), BLOCK_K[i], BLOCK_S[i], ext, |ys| * BLOCK_S[i] + BLOCK_S[i]), BLOCK_S[i])
                 == StageNew(net, i, 0, px, qx)
  {
    hide TConvAt;
    BlockInPrefix(net, i, px, qx);
    MapStep(net.blockAlpha(i), BlockIn(net, i, px), BlockIn(net, i, qx));
    HistStep(BlockSnaked(net, i, px), BlockSnaked(net, i, qx), 1, BLOCK_CIN[i]);
    UpsampleStep(net.blockUp(i), BLOCK_K[i], BLOCK_S[i], BLOCK_CIN[i], BlockSnaked(net, i, px),
      BlockSnaked(net, i, qx));
    BlockStagePrefix(net, i, 0, px, qx);
  }

  lemma BlockUpSound(net: Net, i: nat, tn: nat, p: seq<Col>, q: seq<Col>, d: seq<Op>, s: Sess)
    requires AllReady(d) && i < 4 && StageAt(net, 3 + i, p, q, tn, Run(net, d, s))
    ensures var e := BlockUpProg(net, i, LiveRole(i + 1), LiveRole(i), tn, d);
            AllReady(e) && UnitAt(net, i, 0, p, q, tn, Run(net, d, s).d, Run(net, e, s))
  {
    hide Rows, KvUpto, CnxIs, Tidy, Write, Run, BlockUpProg, HistOf, Cnx1, TConv, UpHist, RuHist, BlockNew, StageNew,
         Read, AllReady, Causal;
    hide Map;
    var u, px, qx := Run(net, d, s), Cnx1(net, p), Cnx1(net, q);
    var w := BlockUpRun(net, i, LiveRole(i + 1), LiveRole(i), tn, d, s);
    NewColumns(net, i, tn, p, q);
    BlockFits(i, tn);
    BlockUpNew(net, i, u.d.up[i], Read(u.loc, LiveRole(i)), px, qx);
    assert RuIs(net, i, px, u.d.ru[i]);
  }

  /** The column-wise end of a residual unit and its sum. */
  lemma RuColumns(net: Net, i: nat, r: nat, x: nat, t: nat, n: nat, v: Sess) returns (w: Sess)
    requires i < 4 && r < 3 && (x == BX || x == BY) && n <= BUF_FLOATS && Tidy(v.loc)
    requires |Read(v.loc, x)| == t
    ensures var ru := net.ru(i, r);
            && w == Do(net, Kernel2(x, BT1, x, n, ByPair(AddCol)),
                       Do(net, Kernel(BT2, BT1, n, ByConv(ru.c1, 1, 1, t)),
                         Do(net, Kernel(BT2, BT2, n, ByCol(ru.alpha1)), v)))
            && Tidy(w.loc) && w == v.(loc := w.loc)
            && Read(w.loc, x) == Zip(AddCol, Read(v.loc, x),
              Conv1d(ru.c1, 1, 1, 0, Map(ru.alpha1, Read(v.loc, BT2)), t))
  {
    hide Tidy, Write, Map, ConvAt, Zip;
    var ru := net.ru(i, r);
    var e, f, g := Kernel(BT2, BT2, n, ByCol(ru.alpha1)), Kernel(BT2, BT1, n, ByConv(ru.c1, 1, 1, t)),
      Kernel2(x, BT1, x, n, ByPair(AddCol));
    var v1 := Do(net, e, v);
    WriteRead(v.loc, BT2, n, e.f(Read(v.loc, BT2)));
    var v2 := Do(net, f, v1);
    WriteRead(v1.loc, BT1, n, f.f(Read(v1.loc, BT2)));
    w := Do(net, g, v2);
    WriteRead(v2.loc, x, n, g.g(Read(v2.loc, x), Read(v2.loc, BT1)));
  }

  /** The seven operations of a residual unit. */
  lemma RuRun(net: Net, i: nat, r: nat, x: nat, tn: nat, d: seq<Op>, s: Sess) returns (w: Sess)
    requires AllReady(d) && i < 4 && r < 3 && 1 <= tn <= MAX_TN && (x == BX || x == BY) && Tidy(Run(net, d, s).loc)
    requires |Read(Run(net, d, s).loc, x)| == Cols(i + 1, tn)
    ensures AllReady(RuProg(net, i, r, x, tn, d)) && w == Run(net, RuProg(net, i, r, x, tn, d), s)
    ensures var u, t, ru := Run(net, d, s), Cols(i + 1, tn), net.ru(i, r);
            var ext := HistGet(u.d, RuH(i, r)) + Map(ru.alpha0, Read(u.loc, x));
            && Tidy(w.loc) && w == u.(loc := w.loc, d := HistSet(u.d, RuH(i, r), Drop(ext, t)))
            && Read(w.loc, x) == Zip(AddCol, Read(u.loc, x),
                  Conv1d(ru.c1, 1, 1, 0, Map(ru.alpha1, Conv1d(ru.c7, 7, RU_DIL[r], 0, ext, t)), t))
  {
    hide Tidy, Write, Run, HistGet, HistSet, Drop, Map, Conv1d, Zip, Do, AllReady, ByPair;
    BlockFits(i, tn);
    var u, ru, t, c := Run(net, d, s), net.ru(i, r), Cols(i + 1, tn), BLOCK_COUT[i];
    var a := Kernel(x, BT1, c * t, ByCol(ru.alpha0));
    var b1, b2, b3 := ExtBuild(RuH(i, r), BT1, c * (6 * RU_DIL[r] + t)),
      Kernel(BEXT, BT2, c * t, ByConv(ru.c7, 7, RU_DIL[r], t)),
                      HistUpdate(RuH(i, r), t);
    var e, f, g := Kernel(BT2, BT2, c * t, ByCol(ru.alpha1)), Kernel(BT2, BT1, c * t, ByConv(ru.c1, 1, 1, t)),
                   Kernel2(x, BT1, x, c * t, ByPair(AddCol));
    RunSnoc(net, d, a, s);
    RunSnoc(net, d + [a], b1, s);
    RunSnoc(net, d + [a] + [b1], b2, s);
    RunSnoc(net, d + [a] + [b1] + [b2], b3, s);
    RunSnoc(net, d + [a] + [b1] + [b2] + [b3], e, s);
    RunSnoc(net, d + [a] + [b1] + [b2] + [b3] + [e], f, s);
    RunSnoc(net, d + [a] + [b1] + [b2] + [b3] + [e] + [f], g, s);
    var v1 := OneKernel(net, x, BT1, c * t, ByCol(ru.alpha0), u);
    var v2 := ConvRun(net, RuH(i, r), BT1, BT2, b1.n, b2.n, ru.c7, 7, RU_DIL[r], t, v1);
    w := RuColumns(net, i, r, x, t, c * t, v2);
  }

  lemma RuSound(net: Net, i: nat, r: nat, tn: nat, p: seq<Col>, q: seq<Col>, d0: Device, d: seq<Op>, s: Sess)
    requires AllReady(d) && i < 4 && r < 3 && UnitAt(net, i, r, p, q, tn, d0, Run(net, d, s))
    ensures var e := RuProg(net, i, r, LiveRole(i + 1), tn, d);
            AllReady(e) && UnitAt(net, i, r + 1, p, q, tn, d0, Run(net, e, s))
  {
    hide Rows, Tidy, Write, Run, RuProg, HistOf, Cnx1, UpHist, Map, Conv1d, Zip, RuIs, RuHist, StageNew, Drop;
    var u := Run(net, d, s);
    NewColumns(net, i, tn, p, q);
    var w := RuRun(net, i, r, LiveRole(i + 1), tn, d, s);
    UnitStep(net, i, r, Cnx1(net, p), Cnx1(net, q), u.d.ru[i], Read(u.loc, LiveRole(i + 1)));
  }

  /** A unit's history and output columns. */
  lemma UnitStep(net: Net, i: nat, r: nat, px: seq<Col>, qx: seq<Col>, h: seq<seq<Col>>, xs: seq<Col>)
    requires i < 4 && r < 3 && px <= qx && RuUpto(net, i, r, px, qx, h) && xs == StageNew(net, i, r, px, qx)
    ensures var ru := net.ru(i, r);
            var ext := h[r] + Map(ru.alpha0, xs);
            && RuUpto(net, i, r + 1, px, qx, h[r := Drop(ext, |xs|)])
            && Zip(AddCol, xs, Conv1d(ru.c1, 1, 1, 0, Map(ru.alpha1, Conv1d(ru.c7, 7, RU_DIL[r], 0, ext, |xs|)), |xs|))
                 == StageNew(net, i, r + 1, px, qx)
  {
    hide HistOf, BlockStage, Map, Conv1d, Zip, RuOut;
    BlockStagePrefix(net, i, r, px, qx);
    BlockStagePrefix(net, i, r + 1, px, qx);
    var a, b := BlockStage(net, i, r, px), BlockStage(net, i, r, qx);
    UnitNew(net.ru(i, r), RU_DIL[r], BLOCK_COUT[i], a, b, h[r], xs);
    NextUnit(net, i, r, px);
    NextUnit(net, i, r, qx);
  }

  lemma NextUnit(net: Net, i: nat, r: nat, x: seq<Col>)
    requires i < 4 && r < 3
    ensures BlockStage(net, i, r + 1, x) == RuOut(net.ru(i, r), RU_DIL[r], BlockStage(net, i, r, x))
  {
  }

  /** A residual unit over new columns, against the whole signal. */
  lemma UnitNew(ru: Ru, dil: nat, z: nat, a: seq<Col>, b: seq<Col>, h: seq<Col>, xs: seq<Col>)
    requires a <= b && xs == b[|a|..] && h == HistOf(6 * dil, z, Map(ru.alpha0, a))
    ensures var ext := h + Map(ru.alpha0, xs);
            && Drop(ext, |xs|) == HistOf(6 * dil, z, Map(ru.alpha0, b))
            && Zip(AddCol, xs, Conv1d(ru.c1, 1, 1, 0, Map(ru.alpha1, Conv1d(ru.c7, 7, dil, 0, ext, |xs|)), |xs|))
                 == RuOut(ru, dil, b)[|a|..]
  {
    hide Conv1d, Causal, HistOf, RuOut, Zip;
    MapStep(ru.alpha0, a, b);
    ConvNew(ru.c7, 7, dil, z, Map(ru.alpha0, a), Map(ru.alpha0, b), h, Map(ru.alpha0, xs));
    RuNew(ru, dil, a, b, Conv1d(ru.c7, 7, dil, 0, h + Map(ru.alpha0, xs), |xs|));
  }

  lemma {:induction false} RusSound(net: Net, i: nat, n: nat, tn: nat, p: seq<Col>, q: seq<Col>, d0: Device,
                                    d: seq<Op>, s: Sess)
    requires AllReady(d) && i < 4 && n <= 3 && UnitAt(net, i, 0, p, q, tn, d0, Run(net, d, s))
    ensures var e := RusProg(net, i, n, LiveRole(i + 1), tn, d);
            AllReady(e) && UnitAt(net, i, n, p, q, tn, d0, Run(net, e, s))
    decreases n
  {
    hide UnitAt, RuProg;
    if n > 0 {
      RusSound(net, i, n - 1, tn, p, q, d0, d, s);
      RuSound(net, i, n - 1, tn, p, q, d0, RusProg(net, i, n - 1, LiveRole(i + 1), tn, d), s);
    }
  }

  /** All three units done, the stream stands before the next block. */
  lemma BlockDone(net: Net, i: nat, p: seq<Col>, q: seq<Col>, tn: nat, u: Sess, w: Sess)
    requires i < 4 && StageAt(net, 3 + i, p, q, tn, u) && UnitAt(net, i, 3, p, q, tn, u.d, w)
    ensures StageAt(net, 4 + i, p, q, tn, w)
  {
    hide Rows, KvUpto, CnxIs, Tidy, HistOf, Cnx1, UpHist, RuHist, BlockStage, BlocksUpto;
    var px, qx := Cnx1(net, p), Cnx1(net, q);
    BlocksAdvance(net, i, px, qx, u.d.up, u.d.ru, UpHist(net, i, qx), w.d.ru[i]);
    assert StageNew(net, i, 3, px, qx) == BlockNew(net, i + 1, px, qx);
  }

  lemma {:induction false} BlocksSound(net: Net, n: nat, tn: nat, p: seq<Col>, q: seq<Col>, d: seq<Op>, s: Sess)
    requires AllReady(d) && n <= 4 && StageAt(net, 3, p, q, tn, Run(net, d, s))
    ensures AllReady(BlocksProg(net, n, tn, d)) && StageAt(net, 3 + n, p, q, tn, Run(net, BlocksProg(net, n, tn, d), s))
    decreases n
  {
    hide StageAt, UnitAt, BlockUpProg, RusProg, Run;
    if n > 0 {
      var i: nat := n - 1;
      BlocksSound(net, i, tn, p, q, d, s);
      var a := BlocksProg(net, i, tn, d);
      BlockUpSound(net, i, tn, p, q, a, s);
      var b := BlockUpProg(net, i, LiveRole(n), LiveRole(i), tn, a);
      RusSound(net, i, 3, tn, p, q, Run(net, a, s).d, b, s);
      BlockDone(net, i, p, q, tn, Run(net, a, s), Run(net, RusProg(net, i, 3, LiveRole(n), tn, b), s));
    }
  }

  /** The last convolution; the samples are taken from bt1. */
  lemma FinalSound(net: Net, tn: nat, p: seq<Col>, q: seq<Col>, d: seq<Op>, s: Sess)
    requires AllReady(d) && StageAt(net, 7, p, q, tn, Run(net, d, s))
    ensures AllReady(FinalProg(net, tn, d)) && StageAt(net, 8, p, q, tn, Run(net, FinalProg(net, tn, d), s))
  {
    hide Rows, KvUpto, CnxIs, BlocksUpto, Tidy, Write, Run, HistOf, Cnx1, ConvAt, FinalIn, BlockIn, Pcm, Read,
         AllReady, Offset;
    var t, u, c := Cols(4, tn), Run(net, d, s), net.convf;
    var px, qx := Cnx1(net, p), Cnx1(net, q);
    NewColumns(net, 3, tn, p, q);
    FinalNew(net, px, qx);
    var a, b1, b2 := Kernel(BY, BY, 96 * t, ByCol(net.decAlpha)), ExtBuild(CfH, BY, 96 * (6 + t)),
      Kernel(BEXT, BT1, t, ByConv(c, 7, 1, t));
    var e, f := Kernel(BT1, BT1, t, ByCol(net.tanh)), Samples(t);
    RunSnoc(net, d, a, s);
    RunSnoc(net, d + [a], b1, s);
    RunSnoc(net, d + [a] + [b1], b2, s);
    RunSnoc(net, d + [a] + [b1] + [b2], e, s);
    RunSnoc(net, d + [a] + [b1] + [b2] + [e], f, s);
    var v1 := Do(net, a, u);
    WriteRead(u.loc, BY, a.n, a.f(Read(u.loc, BY)));
    var v2 := Do(net, b1, v1);
    WriteRead(v1.loc, BEXT, b1.n, HistGet(v1.d, CfH) + Read(v1.loc, BY));
    var v3 := Do(net, b2, v2);
    WriteRead(v2.loc, BT1, b2.n, b2.f(Read(v2.loc, BEXT)));
    var v4 := Do(net, e, v3);
    WriteRead(v3.loc, BT1, e.n, e.f(Read(v3.loc, BT1)));
    ConvNew(c, 7, 1, 96, FinalIn(net, px), FinalIn(net, qx), u.d.cf, Read(v1.loc, BY));
    PcmNew(net, px, qx, Read(v4.loc, BT1));
  }

  /** The whole program takes a stream from its latents to its samples. */
  lemma ProgramSound(net: Net, tn: nat, p: seq<Col>, q: seq<Col>, s: Sess)
    requires StageAt(net, 0, p, q, tn, s)
    ensures AllReady(Program(net, tn)) && StageAt(net, 8, p, q, tn, Run(net, Program(net, tn), s))
  {
    hide StageAt, Run, PostProg, UpProg, ConvProg, BlocksProg, FinalProg;
    PostSound(net, tn, p, q, s);
    var a := PostProg(net, tn, []);
    UpSound(net, tn, p, q, a, s);
    ConvSound(net, tn, p, q, UpProg(net, tn, a), s);
    var b := ConvProg(net, tn, UpProg(net, tn, a));
    BlocksSound(net, 4, tn, p, q, b, s);
    FinalSound(net, tn, p, q, BlocksProg(net, 4, tn, b), s);
  }
}
