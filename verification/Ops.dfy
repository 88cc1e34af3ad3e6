/** The batched push as a list of operations, and what each does to one stream: its scratch
    regions, its histories and its key and value rows. */
module Ops {
  import opened Kernels
  import opened Codec
  import opened Scratch
  import opened Incremental

  /** One stream during a push: scratch, device state, position and retained rows. */
  datatype Sess = Sess(loc: Mem, d: Device, pos: nat, hl: nat)

  datatype HistId = CnxH(i: nat) | C0H | UpH(i: nat) | RuH(i: nat, r: nat) | CfH

  /** Kernel and Kernel2 run on the regions the pointer table names; the others on each stream's own
      pointers. */
  datatype Op =
    | Kernel(src: nat, dst: nat, n: nat, f: seq<Col> -> seq<Col>)
    | Kernel2(a: nat, b: nat, dst: nat, n: nat, g: (seq<Col>, seq<Col>) -> seq<Col>)
    | ExtBuild(h: HistId, src: nat, n: nat)
    | HistUpdate(h: HistId, t: nat)
    | DropUp(h: HistId, s: nat, dst: nat, n: nat, t: nat)
    | Attend(l: nat, tn: nat)
    | Retain(l: nat, tn: nat)
    | Samples(t: nat)

  function Drop(xs: seq<Col>, k: nat): seq<Col> {
    if k <= |xs| then xs[k..] else []
  }

  function Take(xs: seq<Col>, k: nat): seq<Col> {
    if k <= |xs| then xs[..k] else xs
  }

  function HistGet(d: Device, h: HistId): seq<Col> {
    match h
    case CnxH(i) => if i < |d.cnx| then d.cnx[i] else []
    case C0H => d.c0
    case UpH(i) => if i < |d.up| then d.up[i] else []
    case RuH(i, r) => if i < |d.ru| && r < |d.ru[i]| then d.ru[i][r] else []
    case CfH => d.cf
  }

  function HistSet(d: Device, h: HistId, v: seq<Col>): Device {
    match h
    case CnxH(i) => if i < |d.cnx| then d.(cnx := d.cnx[i := v]) else d
    case C0H => d.(c0 := v)
    case UpH(i) => if i < |d.up| then d.(up := d.up[i := v]) else d
    case RuH(i, r) => if i < |d.ru| && r < |d.ru[i]| then d.(ru := d.ru[i := d.ru[i][r := v]]) else d
    case CfH => d.(cf := v)
  }

  function RowsOf(kh: seq<seq<Col>>, l: nat): seq<Col> {
    if l < |kh| then kh[l] else []
  }

  /** Rows of [retained | new] of one layer: rotated projections, extended key and value rows,
      attention. */
  function AttendParts(net: Net, tn: nat, aq: seq<Col>, kl: seq<Col>, vl: seq<Col>, pos: nat, hl: nat)
    : (seq<Col>, seq<Col>, seq<Col>, seq<Col>)
  {
    var qs := RopeRows(net, pos, Take(aq, tn));
    var ks := RopeRows(net, pos, Take(Drop(aq, tn), tn));
    var vs := Drop(aq, 2 * tn);
    var axk, axv := Take(kl, hl) + ks, Take(vl, hl) + vs;
    var att := if |axk| == |axv| == hl + |qs| then Sdpa(net, qs, axk, axv, hl) else [];
    (qs + ks + vs, axk, axv, att)
  }

  /** What an operation does to one stream. */
  function Do(net: Net, op: Op, v: Sess): Sess
    requires Ready(op)
  {
    match op
    case Kernel(src, dst, n, f) => v.(loc := Write(v.loc, dst, n, f(Read(v.loc, src))))
    case Kernel2(a, b, dst, n, g) => v.(loc := Write(v.loc, dst, n, g(Read(v.loc, a), Read(v.loc, b))))
    case ExtBuild(h, src, n) => v.(loc := Write(v.loc, BEXT, n, HistGet(v.d, h) + Read(v.loc, src)))
    case HistUpdate(h, t) => v.(d := HistSet(v.d, h, Drop(Read(v.loc, BEXT), t)))
    case DropUp(h, s, dst, n, t) =>
      var w := Write(v.loc, dst, n, Drop(Read(v.loc, BT2), s));
      v.(loc := w, d := HistSet(v.d, h, Drop(Read(w, BEXT), t)))
    case Attend(l, tn) =>
      var (aq, axk, axv, att) := AttendParts(net, tn, Read(v.loc, AQ), RowsOf(v.d.kh, l), RowsOf(v.d.vh, l), v.pos,
        v.hl);
      var a := Write(v.loc, AQ, 3072 * tn, aq);
      var b := Write(a, AXK, 1024 * (v.hl + tn), axk);
      var c := Write(b, AXV, 1024 * (v.hl + tn), axv);
      v.(loc := Write(c, AT1, 1024 * tn, att))
    case Retain(l, tn) =>
      var keep := Keep(v.hl + tn);
      var from := v.hl + tn - keep;
      v.(d := v.d.(kh := SetRows(v.d.kh, l, keep, Drop(Read(v.loc, AXK), from)),
                   vh := SetRows(v.d.vh, l, keep, Drop(Read(v.loc, AXV), from))))
    case Samples(t) => v.(d := HistSet(v.d, CfH, Drop(Read(v.loc, BEXT), t)).(pcm := Read(v.loc, BT1)))
  }

  /** Overwrite the front rows of a layer's buffer. */
  function SetRows(kh: seq<seq<Col>>, l: nat, keep: nat, rows: seq<Col>): seq<seq<Col>> {
    if l < |kh| then kh[l := Take(rows, keep) + Drop(kh[l], keep)] else kh
  }

  /** The operation names table rows, and what it writes fits the region. */
  predicate Ready(op: Op) {
    match op
    case Kernel(src, dst, n, _) => src < TAB_ROLES && dst < TAB_ROLES && n <= Cap(dst)
    case Kernel2(a, b, dst, n, _) => a < TAB_ROLES && b < TAB_ROLES && dst < TAB_ROLES && n <= Cap(dst)
    case ExtBuild(_, src, n) => src < TAB_ROLES && n <= Cap(BEXT)
    case HistUpdate(_, _) => true
    case DropUp(_, _, dst, n, _) => dst < TAB_ROLES && n <= Cap(dst)
    case Attend(_, tn) => 1 <= tn <= MAX_TN
    case Retain(_, tn) => 1 <= tn <= MAX_TN
    case Samples(_) => true
  }

  ghost predicate AllReady(ops: seq<Op>) {
    forall i: nat :: i < |ops| ==> Ready(ops[i])
  }

  /** A stream after a list of operations. */
  ghost function Run(net: Net, ops: seq<Op>, v: Sess): Sess
    requires AllReady(ops)
  {
    if ops == [] then v
    else
      var n: nat := |ops| - 1;
      Do(net, ops[n], Run(net, ops[..n], v))
  }

  lemma RunSnoc(net: Net, ops: seq<Op>, op: Op, v: Sess)
    requires AllReady(ops) && Ready(op)
    ensures AllReady(ops + [op]) && Run(net, ops + [op], v) == Do(net, op, Run(net, ops, v))
  {
    assert (ops + [op])[..|ops|] == ops;
  }

  // ---- the kernels ------------------------------------------------------------------------------

  function Same(): seq<Col> -> seq<Col> { xs => xs }

  function ByCol(f: Col -> Col): seq<Col> -> seq<Col> { xs => Map(f, xs) }

  function ByPair(g: (Col, Col) -> Col): (seq<Col>, seq<Col>) -> seq<Col> {
    (xs, ys) => if |xs| == |ys| then Zip(g, xs, ys) else []
  }

  function ByConv(c: ConvW, k: nat, dil: nat, tout: nat): seq<Col> -> seq<Col> {
    xs => Conv1d(c, k, dil, 0, xs, tout)
  }

  function ByTConv(c: TConvW, k: nat, s: nat, tout: nat): seq<Col> -> seq<Col> {
    xs => TConv(c, k, s, xs, tout)
  }

  /** Query, key and value rows of the joint projection, one after the other. */
  function ByQkv(ly: Layer): seq<Col> -> seq<Col> {
    xs => Queries(Project(ly, xs)) + Keys(Project(ly, xs)) + Values(Project(ly, xs))
  }

  // ---- the program, each part behind what was already done ------------------------------------------

  /** Columns entering block i, for tn frames; entering the last convolution for i == 4. */
  function Cols(i: nat, tn: nat): nat
    requires i <= 4
  {
    if i == 0 then 4 * tn else if i == 1 then 32 * tn else if i == 2 then 256 * tn
    else if i == 3 then 1024 * tn else 2048 * tn
  }

  /** The attention half of a layer. */
  function AttendProg(net: Net, l: nat, tn: nat, d: seq<Op>): seq<Op> {
    var ly := net.layer(l);
    d + [Kernel(BROW, AT1, 1024 * tn, ByCol(ly.attnNorm))] + [Kernel(AT1, AQ, 3072 * tn, ByQkv(ly))] + [Attend(l, tn)]
  }

  /** Output projection and feed-forward of a layer. */
  function MixProg(net: Net, l: nat, tn: nat, d: seq<Op>): seq<Op> {
    var ly := net.layer(l);
    d + [Kernel(AT1, AT3, 1024 * tn, ByCol(ly.wo))]
    + [Kernel2(BROW, AT3, BROW, 1024 * tn, ByPair(ly.gAttn))]
    + [Kernel(BROW, AT1, 1024 * tn, ByCol(ly.ffnNorm))]
    + [Kernel(AT1, AF1, 3072 * tn, ByCol(ly.w1))]
    + [Kernel(AT1, AF2, 3072 * tn, ByCol(ly.w3))]
    + [Kernel2(AF1, AF2, AF1, 3072 * tn, ByPair(ly.siluMul))]
    + [Kernel(AF1, AT1, 1024 * tn, ByCol(ly.w2))]
    + [Kernel2(BROW, AT1, BROW, 1024 * tn, ByPair(ly.gFfn))]
  }

  function LayerProg(net: Net, l: nat, tn: nat, d: seq<Op>): seq<Op> {
    MixProg(net, l, tn, AttendProg(net, l, tn, d)) + [Retain(l, tn)]
  }

  function LayersProg(net: Net, n: nat, tn: nat, d: seq<Op>): seq<Op> {
    if n == 0 then d else LayerProg(net, n - 1, tn, LayersProg(net, n - 1, tn, d))
  }

  function PostProg(net: Net, tn: nat, d: seq<Op>): seq<Op> {
    LayersProg(net, net.layers, tn, d)
    + [Kernel(BROW, BROW, 1024 * tn, ByCol(net.postNorm))]
    + [Kernel(BROW, BX, 1024 * tn, Same())]
  }

  /** A ConvNeXt block in place on region x, over t new columns. */
  function CnxProg(net: Net, i: nat, x: nat, t: nat, d: seq<Op>): seq<Op> {
    var c := net.upCnx(i);
    d + [ExtBuild(CnxH(i), x, 1024 * (6 + t))]
    + [Kernel(BEXT, BT1, 1024 * t, ByConv(c.dw, 7, 1, t))]
    + [HistUpdate(CnxH(i), t)]
    + [Kernel(BT1, BT2, 1024 * t, Same())]
    + [Kernel(BT2, BT2, 1024 * t, ByCol(c.layernorm))]
    + [Kernel(BT2, B32K, 4096 * t, ByCol(c.pw1))]
    + [Kernel(B32K, B32K, 4096 * t, ByCol(c.gelu))]
    + [Kernel(B32K, BT1, 1024 * t, ByCol(c.pw2))]
    + [Kernel(BT1, BT1, 1024 * t, ByCol(c.gamma))]
    + [Kernel(BT1, BT2, 1024 * t, Same())]
    + [Kernel2(x, BT2, x, 1024 * t, ByPair(AddCol))]
  }

  function UpProg(net: Net, tn: nat, d: seq<Op>): seq<Op> {
    var a := CnxProg(net, 0, BY, 2 * tn, d + [Kernel(BX, BY, 1024 * (2 * tn), ByTConv(net.upT(0), 2, 2, 2 * tn))]);
    CnxProg(net, 1, BX, 4 * tn, a + [Kernel(BY, BX, 1024 * (4 * tn), ByTConv(net.upT(1), 2, 2, 4 * tn))])
  }

  function ConvProg(net: Net, tn: nat, d: seq<Op>): seq<Op> {
    d + [ExtBuild(C0H, BX, 1024 * (6 + 4 * tn))]
    + [Kernel(BEXT, BY, 1536 * (4 * tn), ByConv(net.conv0, 7, 1, 4 * tn))]
    + [HistUpdate(C0H, 4 * tn)]
  }

  /** Residual unit r of block i in place on region x. */
  function RuProg(net: Net, i: nat, r: nat, x: nat, tn: nat, d: seq<Op>): seq<Op>
    requires i < 4 && r < 3
  {
    var ru, t, c := net.ru(i, r), Cols(i + 1, tn), BLOCK_COUT[i];
    d + [Kernel(x, BT1, c * t, ByCol(ru.alpha0))]
    + [ExtBuild(RuH(i, r), BT1, c * (6 * RU_DIL[r] + t))]
    + [Kernel(BEXT, BT2, c * t, ByConv(ru.c7, 7, RU_DIL[r], t))]
    + [HistUpdate(RuH(i, r), t)]
    + [Kernel(BT2, BT2, c * t, ByCol(ru.alpha1))]
    + [Kernel(BT2, BT1, c * t, ByConv(ru.c1, 1, 1, t))]
    + [Kernel2(x, BT1, x, c * t, ByPair(AddCol))]
  }

  /** Block i: input in region y, output in region x. */
  function BlockUpProg(net: Net, i: nat, x: nat, y: nat, tn: nat, d: seq<Op>): seq<Op>
    requires i < 4
  {
    var t, s := Cols(i, tn), BLOCK_S[i];
    d + [Kernel(y, y, BLOCK_CIN[i] * t, ByCol(net.blockAlpha(i)))]
    + [ExtBuild(UpH(i), y, BLOCK_CIN[i] * (1 + t))]
    + [Kernel(BEXT, BT2, BLOCK_COUT[i] * (Cols(i + 1, tn) + s),
      ByTConv(net.blockUp(i), BLOCK_K[i], s, Cols(i + 1, tn) + s))]
    + [DropUp(UpH(i), s, x, BLOCK_COUT[i] * Cols(i + 1, tn), t)]
  }

  function RusProg(net: Net, i: nat, n: nat, x: nat, tn: nat, d: seq<Op>): seq<Op>
    requires i < 4 && n <= 3
    decreases n
  {
    if n == 0 then d else RuProg(net, i, n - 1, x, tn, RusProg(net, i, n - 1, x, tn, d))
  }

  function BlocksProg(net: Net, n: nat, tn: nat, d: seq<Op>): seq<Op>
    requires n <= 4
    decreases n
  {
    if n == 0 then d
    else
      var x, y := LiveRole(n), LiveRole(n - 1);
      RusProg(net, n - 1, 3, x, tn, BlockUpProg(net, n - 1, x, y, tn, BlocksProg(net, n - 1, tn, d)))
  }

  function FinalProg(net: Net, tn: nat, d: seq<Op>): seq<Op> {
    var t := Cols(4, tn);
    d + [Kernel(BY, BY, 96 * t, ByCol(net.decAlpha))]
    + [ExtBuild(CfH, BY, 96 * (6 + t))]
    + [Kernel(BEXT, BT1, t, ByConv(net.convf, 7, 1, t))]
    + [Kernel(BT1, BT1, t, ByCol(net.tanh))]
    + [Samples(t)]
  }

  /** Everything after the codes are loaded. */
  function Program(net: Net, tn: nat): seq<Op> {
    FinalProg(net, tn, BlocksProg(net, 4, tn, ConvProg(net, tn, UpProg(net, tn, PostProg(net, tn, [])))))
  }
}
