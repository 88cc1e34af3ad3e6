/** The stage-walk of the batched push: kernels that find their buffers through the uploaded pointer
    table, between loops over the sessions' own buffers. */
module BatchWalk {
  import opened Basics
  import opened Kernels
  import opened Codec
  import opened Scratch
  import opened Incremental
  import opened Ops
  import opened OpsSound
  import opened Tables

  /** The scratch addresses of the sessions, in roster order. */
  function Bases(ss: seq<Inc>): (b: seq<int>)
    ensures |b| == |ss|
  {
    seq(|ss|, i requires 0 <= i < |ss| => ss[i].base)
  }

  /** No two sessions of the roster share scratch memory; in particular they are distinct. */
  predicate Apart(ss: seq<Inc>) {
    forall i: nat, j: nat :: i < j < |ss| ==> BasesApart(ss[i].base, ss[j].base)
  }

  /** Every session's part of memory holds only whole buffers. */
  predicate AllContained(m: Mem, ss: seq<Inc>) {
    forall j: nat :: j < |ss| ==> Contained(Local(m, ss[j].base))
  }

  /** Writing to one session's region changes that region's session and no other. */
  lemma PutOne(m: Mem, ss: seq<Inc>, i: nat, r: nat, b: Buf)
    requires i < |ss| && r < REGIONS && b.n <= Cap(r) && Apart(ss) && AllContained(m, ss)
    ensures var w := Put(m, At(ss[i].base, Offset(r)), b);
            && AllContained(w, ss) && Local(w, ss[i].base) == Put(Local(m, ss[i].base), Offset(r), b)
            && forall j: nat :: j < |ss| && j != i ==> Local(w, ss[j].base) == Local(m, ss[j].base)
  {
    hide Local, Contained, Put;
    LocalOwn(m, ss[i].base, r, b);
    PutContained(Local(m, ss[i].base), r, b);
    forall j: nat | j < |ss| && j != i
      ensures Local(Put(m, At(ss[i].base, Offset(r)), b), ss[j].base) == Local(m, ss[j].base)
    {
      LocalOther(m, ss[i].base, r, b, ss[j].base);
    }
  }

  /** One stream of a batch as its operations see it. */
  function View(m: Mem, c: Inc): Sess
    reads c
  {
    Sess(Local(m, c.base), c.dev, c.pos, c.kvLen)
  }

  /** Both latent buffers of a stream that is about to be pushed. */
  predicate Holds(loc: Mem, z: seq<Col>) {
    Tidy(loc) && Read(loc, BX) == z && Read(loc, BROW) == z
  }

  lemma EmptyTidy()
    ensures Tidy(map[])
  {
  }

  lemma EmptyContained(ss: seq<Inc>)
    ensures AllContained(map[], ss) && forall j: nat :: j < |ss| ==> Local(map[], ss[j].base) == map[]
  {
  }

  /** Session i's frames inside the packed codes [nb][tn][10]. */
  function Packed(codes: seq<int>, i: nat, nb: nat, tn: nat): (c: seq<int>)
    requires i < nb && |codes| == nb * (10 * tn)
    ensures |c| == 10 * tn
  {
    RowGap(i, nb, 10 * tn);
    codes[i * (10 * tn)..i * (10 * tn) + 10 * tn]
  }

  class Walk {
    const net: Net
    const ss: seq<Inc>
    /** The pointer table on the device. */
    const tab: seq<int>
    /** Scratch memory. */
    var mem: Mem
    /** The streams when the walk began, and what has been done to every one of them since. */
    ghost var start: seq<Sess>
    ghost var done: seq<Op>

    /** Nothing in scratch memory is known to be intact. */
    constructor (net: Net, ss: seq<Inc>, tab: seq<int>)
      requires |ss| > 0 && Describes(tab, Bases(ss)) && forall j: nat :: j < |ss| ==> ss[j].kvLen <= KVHIST
      ensures this.net == net && this.ss == ss && this.tab == tab && mem == map[]
      ensures Wired()
    {
      this.net, this.ss, this.tab := net, ss, tab;
      mem, done := map[], [];
      start := seq(|ss|, j requires 0 <= j < |ss| reads ss => View(map[], ss[j]));
    }

    /** Where session j should stand when sessions below i have seen `op` behind what was done. */
    ghost function Expected(op: Op, i: nat, j: nat): Sess
      requires AllReady(done) && Ready(op) && j < |start|
      reads this`done, this`start
    {
      if j < i then Do(net, op, Run(net, done, start[j])) else Run(net, done, start[j])
    }

    ghost predicate Wired()
      reads this, ss
    {
      && |ss| > 0 && Describes(tab, Bases(ss)) && |start| == |ss| && AllReady(done)
      && forall j: nat :: j < |ss| ==> ss[j].kvLen <= KVHIST
    }

    /** Sessions below i have seen operation `op`: true of every roster whose scratch is apart. */
    ghost predicate Half(op: Op, i: nat)
      reads this, ss
    {
      && Wired() && Ready(op)
      && (Apart(ss) ==> AllContained(mem, ss) && forall j: nat :: j < |ss| ==> View(mem, ss[j]) == Expected(op, i, j))
    }

    /** Every stream is where the operations done take it. */
    ghost predicate Valid()
      reads this, ss
    {
      && Wired()
      && (Apart(ss) ==> AllContained(mem, ss) && forall j: nat :: j < |ss| ==>
        View(mem, ss[j]) == Run(net, done, start[j]))
    }

    /** One block of a batched kernel: both buffers are looked up in the table. */
    method LaunchOne(i: nat, src: nat, dst: nat, n: nat, f: seq<Col> -> seq<Col>)
      requires i < |ss| && Half(Op.Kernel(src, dst, n, f), i)
      modifies this`mem
      ensures Half(Op.Kernel(src, dst, n, f), i + 1)
    {
      hide Run, Local, Put, Contained;
      var a, b := tab[Slot(src, i, |ss|)], tab[Slot(dst, i, |ss|)];
      ghost var op, m := Op.Kernel(src, dst, n, f), mem;
      ghost var v := View(m, ss[i]);
      mem := Put(mem, b, Buf(n, f(Get(mem, a))));
      if Apart(ss) {
        LocalGet(m, ss[i].base, src);
        PutOne(m, ss, i, dst, Buf(n, f(Get(m, a))));
        assert v == Expected(op, i, i) && View(mem, ss[i]) == Do(net, op, v);
      }
    }

    /** All sessions have seen the operation. */
    method Done(ghost op: Op)
      requires Half(op, |ss|)
      modifies this`done
      ensures Valid() && done == old(done) + [op]
    {
      hide Run, Do, Local, Contained, Ready;
      forall j: nat | j < |ss|
        ensures AllReady(done + [op]) && Run(net, done + [op], start[j]) == Do(net, op, Run(net, done, start[j]))
      {
        RunSnoc(net, done, op, start[j]);
      }
      done := done + [op];
    }

    /** A batched kernel of one input. */
    method Launch(src: nat, dst: nat, n: nat, f: seq<Col> -> seq<Col>)
      requires Valid() && Ready(Op.Kernel(src, dst, n, f))
      modifies this`mem, this`done
      ensures Valid() && done == old(done) + [Op.Kernel(src, dst, n, f)]
    {
      hide Run, Do, Local, Contained, Describes, Ready;
      ghost var op := Op.Kernel(src, dst, n, f);
      for i := 0 to |ss|
        invariant done == old(done) && Half(op, i)
      {
        LaunchOne(i, src, dst, n, f);
      }
      Done(op);
    }

    method Launch2One(i: nat, a: nat, b: nat, dst: nat, n: nat, g: (seq<Col>, seq<Col>) -> seq<Col>)
      requires i < |ss| && Half(Op.Kernel2(a, b, dst, n, g), i)
      modifies this`mem
      ensures Half(Op.Kernel2(a, b, dst, n, g), i + 1)
    {
      hide Run, Local, Put, Contained;
      var x, y, z := tab[Slot(a, i, |ss|)], tab[Slot(b, i, |ss|)], tab[Slot(dst, i, |ss|)];
      ghost var op, m := Op.Kernel2(a, b, dst, n, g), mem;
      ghost var v := View(m, ss[i]);
      mem := Put(mem, z, Buf(n, g(Get(mem, x), Get(mem, y))));
      if Apart(ss) {
        LocalGet(m, ss[i].base, a);
        LocalGet(m, ss[i].base, b);
        PutOne(m, ss, i, dst, Buf(n, g(Get(m, x), Get(m, y))));
        assert v == Expected(op, i, i) && View(mem, ss[i]) == Do(net, op, v);
      }
    }

    /** A batched kernel of two inputs. */
    method Launch2(a: nat, b: nat, dst: nat, n: nat, g: (seq<Col>, seq<Col>) -> seq<Col>)
      requires Valid() && Ready(Op.Kernel2(a, b, dst, n, g))
      modifies this`mem, this`done
      ensures Valid() && done == old(done) + [Op.Kernel2(a, b, dst, n, g)]
    {
      hide Run, Do, Local, Contained, Describes, Ready;
      ghost var op := Op.Kernel2(a, b, dst, n, g);
      for i := 0 to |ss|
        invariant done == old(done) && Half(op, i)
      {
        Launch2One(i, a, b, dst, n, g);
      }
      Done(op);
    }

    // ---- loops over the sessions' own buffers ---------------------------------------------------

    method ExtBuildOne(i: nat, h: HistId, src: nat, n: nat)
      requires i < |ss| && Half(Op.ExtBuild(h, src, n), i)
      modifies this`mem
      ensures Half(Op.ExtBuild(h, src, n), i + 1)
    {
      hide Run, Local, Put, Contained, Describes, HistGet;
      var c := ss[i];
      ghost var op, m := Op.ExtBuild(h, src, n), mem;
      ghost var v := View(m, c);
      mem := Put(mem, c.base + Offset(BEXT), Buf(n, HistGet(c.dev, h) + Get(mem, c.base + Offset(src))));
      if Apart(ss) {
        LocalGet(m, c.base, src);
        PutOne(m, ss, i, BEXT, Buf(n, HistGet(c.dev, h) + Get(m, At(c.base, Offset(src)))));
        assert v == Expected(op, i, i) && View(mem, c) == Do(net, op, v);
      }
    }

    /** ext_build for every session. */
    method ExtBuild(h: HistId, src: nat, n: nat)
      requires Valid() && Ready(Op.ExtBuild(h, src, n))
      modifies this`mem, this`done
      ensures Valid() && done == old(done) + [Op.ExtBuild(h, src, n)]
    {
      hide Run, Do, Local, Contained, Describes, Ready;
      ghost var op := Op.ExtBuild(h, src, n);
      for i := 0 to |ss|
        invariant done == old(done) && Half(op, i)
      {
        ExtBuildOne(i, h, src, n);
      }
      Done(op);
    }

    method HistUpdateOne(i: nat, c: Inc, h: HistId, t: nat)
      requires i < |ss| && c == ss[i] && Half(Op.HistUpdate(h, t), i)
      modifies c`dev
      ensures Half(Op.HistUpdate(h, t), i + 1)
    {
      hide Run, Local, Put, Contained, Describes, HistSet;
      ghost var op, v := Op.HistUpdate(h, t), View(mem, c);
      c.dev := HistSet(c.dev, h, Drop(Get(mem, c.base + Offset(BEXT)), t));
      if Apart(ss) {
        LocalGet(mem, c.base, BEXT);
        assert v == Expected(op, i, i) && View(mem, c) == Do(net, op, v);
      }
    }

    /** hist_update for every session. */
    method HistUpdate(h: HistId, t: nat)
      requires Valid()
      modifies this`done, ss`dev
      ensures Valid() && done == old(done) + [Op.HistUpdate(h, t)]
    {
      hide Run, Do, Local, Contained, Describes;
      ghost var op := Op.HistUpdate(h, t);
      for i := 0 to |ss|
        invariant done == old(done) && Half(op, i)
      {
        HistUpdateOne(i, ss[i], h, t);
      }
      Done(op);
    }

    method DropUpOne(i: nat, c: Inc, h: HistId, s: nat, dst: nat, n: nat, t: nat)
      requires i < |ss| && c == ss[i] && Half(Op.DropUp(h, s, dst, n, t), i)
      modifies this`mem, c`dev
      ensures Half(Op.DropUp(h, s, dst, n, t), i + 1)
    {
      hide Run, Local, Put, Contained, Describes, HistSet;
      ghost var op, m := Op.DropUp(h, s, dst, n, t), mem;
      ghost var v := View(m, c);
      mem := Put(mem, c.base + Offset(dst), Buf(n, Drop(Get(mem, c.base + Offset(BT2)), s)));
      c.dev := HistSet(c.dev, h, Drop(Get(mem, c.base + Offset(BEXT)), t));
      if Apart(ss) {
        LocalGet(m, c.base, BT2);
        LocalGet(mem, c.base, BEXT);
        PutOne(m, ss, i, dst, Buf(n, Drop(Get(m, At(c.base, Offset(BT2))), s)));
        assert v == Expected(op, i, i) && View(mem, c) == Do(net, op, v);
      }
    }

    /** An up-sampler's output without the context column's share, and its new context. */
    method DropUp(h: HistId, s: nat, dst: nat, n: nat, t: nat)
      requires Valid() && Ready(Op.DropUp(h, s, dst, n, t))
      modifies this`mem, this`done, ss`dev
      ensures Valid() && done == old(done) + [Op.DropUp(h, s, dst, n, t)]
    {
      hide Run, Do, Local, Contained, Describes, Ready;
      ghost var op := Op.DropUp(h, s, dst, n, t);
      for i := 0 to |ss|
        invariant done == old(done) && Half(op, i)
      {
        DropUpOne(i, ss[i], h, s, dst, n, t);
      }
      Done(op);
    }

    /** Rotation, extended key and value rows and attention of one session. */
    method AttendOne(i: nat, l: nat, tn: nat)
      requires i < |ss| && Half(Op.Attend(l, tn), i)
      modifies this`mem
      ensures Half(Op.Attend(l, tn), i + 1)
    {
      hide Run, Local, Put, Contained, Describes, AttendParts, Offset, AllContained, Keep;
      var c := ss[i];
      ghost var op, m := Op.Attend(l, tn), mem;
      ghost var v := View(m, c);
      var (aq, axk, axv, att) :=
        AttendParts(net, tn, Get(mem, c.base + Offset(AQ)), RowsOf(c.dev.kh, l), RowsOf(c.dev.vh, l), c.pos, c.kvLen);
      mem := Put(mem, c.base + Offset(AQ), Buf(3072 * tn, aq));
      mem := Put(mem, c.base + Offset(AXK), Buf(1024 * (c.kvLen + tn), axk));
      mem := Put(mem, c.base + Offset(AXV), Buf(1024 * (c.kvLen + tn), axv));
      mem := Put(mem, c.base + Offset(AT1), Buf(1024 * tn, att));
      if Apart(ss) {
        LocalGet(m, c.base, AQ);
        PutOne(m, ss, i, AQ, Buf(3072 * tn, aq));
        ghost var m1 := Put(m, At(c.base, Offset(AQ)), Buf(3072 * tn, aq));
        PutOne(m1, ss, i, AXK, Buf(1024 * (c.kvLen + tn), axk));
        ghost var m2 := Put(m1, At(c.base, Offset(AXK)), Buf(1024 * (c.kvLen + tn), axk));
        PutOne(m2, ss, i, AXV, Buf(1024 * (c.kvLen + tn), axv));
        ghost var m3 := Put(m2, At(c.base, Offset(AXV)), Buf(1024 * (c.kvLen + tn), axv));
        PutOne(m3, ss, i, AT1, Buf(1024 * tn, att));
        assert v == Expected(op, i, i) && View(mem, c) == Do(net, op, v);
      }
    }

    /** Layer l's attention, session by session. */
    method Attend(l: nat, tn: nat)
      requires Valid() && Ready(Op.Attend(l, tn))
      modifies this`mem, this`done
      ensures Valid() && done == old(done) + [Op.Attend(l, tn)]
    {
      hide Run, Do, Local, Contained, Describes, Ready;
      ghost var op := Op.Attend(l, tn);
      for i := 0 to |ss|
        invariant done == old(done) && Half(op, i)
      {
        AttendOne(i, l, tn);
      }
      Done(op);
    }

    method RetainOne(i: nat, c: Inc, l: nat, tn: nat)
      requires i < |ss| && c == ss[i] && Half(Op.Retain(l, tn), i)
      modifies c`dev
      ensures Half(Op.Retain(l, tn), i + 1)
    {
      hide Run, Local, Put, Contained, Describes, SetRows, Drop;
      ghost var op, v := Op.Retain(l, tn), View(mem, c);
      var keep := if c.kvLen + tn < KVHIST then c.kvLen + tn else KVHIST;
      var from := c.kvLen + tn - keep;
      c.dev := c.dev.(kh := SetRows(c.dev.kh, l, keep, Drop(Get(mem, c.base + Offset(AXK)), from)),
                      vh := SetRows(c.dev.vh, l, keep, Drop(Get(mem, c.base + Offset(AXV)), from)));
      if Apart(ss) {
        LocalGet(mem, c.base, AXK);
        LocalGet(mem, c.base, AXV);
        assert v == Expected(op, i, i) && View(mem, c) == Do(net, op, v);
      }
    }

    /** Layer l's retained rows, session by session. */
    method Retain(l: nat, tn: nat)
      requires Valid() && Ready(Op.Retain(l, tn))
      modifies this`done, ss`dev
      ensures Valid() && done == old(done) + [Op.Retain(l, tn)]
    {
      hide Run, Do, Local, Contained, Describes, Ready;
      ghost var op := Op.Retain(l, tn);
      for i := 0 to |ss|
        invariant done == old(done) && Half(op, i)
      {
        RetainOne(i, ss[i], l, tn);
      }
      Done(op);
    }

    method SamplesOne(i: nat, c: Inc, t: nat)
      requires i < |ss| && c == ss[i] && Half(Op.Samples(t), i)
      modifies c`dev
      ensures Half(Op.Samples(t), i + 1)
    {
      hide Run, Local, Put, Contained, Describes, Drop;
      ghost var op, v := Op.Samples(t), View(mem, c);
      c.dev := HistSet(c.dev, CfH, Drop(Get(mem, c.base + Offset(BEXT)), t)).(pcm := Get(mem, c.base + Offset(BT1)));
      if Apart(ss) {
        LocalGet(mem, c.base, BEXT);
        LocalGet(mem, c.base, BT1);
        assert v == Expected(op, i, i) && View(mem, c) == Do(net, op, v);
      }
    }

    /** The last history and the samples, session by session. */
    method Samples(t: nat)
      requires Valid()
      modifies this`done, ss`dev
      ensures Valid() && done == old(done) + [Op.Samples(t)]
    {
      hide Run, Do, Local, Contained, Describes;
      ghost var op := Op.Samples(t);
      for i := 0 to |ss|
        invariant done == old(done) && Half(op, i)
      {
        SamplesOne(i, ss[i], t);
      }
      Done(op);
    }

    // ---- loading the codes ------------------------------------------------------------------------

    /** Sessions below i have the latents of their new frames in bx and brow; the others nothing. */
    ghost predicate LoadedTo(i: nat, zs: seq<seq<Col>>)
      requires |zs| == |ss|
      reads this
    {
      && AllContained(mem, ss)
      && (forall j: nat :: j < i && j < |ss| ==> Holds(Local(mem, ss[j].base), zs[j]))
      && (forall j: nat :: i <= j < |ss| ==> Local(mem, ss[j].base) == map[])
    }

    method LoadOne(i: nat, z: seq<Col>, tn: nat, ghost zs: seq<seq<Col>>)
      requires i < |ss| == |zs| && z == zs[i] && 1 <= tn <= MAX_TN && (Apart(ss) ==> LoadedTo(i, zs))
      modifies this`mem
      ensures Apart(ss) ==> LoadedTo(i + 1, zs)
    {
      hide Local, Put, Contained, Tidy, Get;
      ghost var m, b := mem, Buf(1024 * tn, z);
      mem := Put(mem, ss[i].base + Offset(BX), Buf(1024 * tn, z));
      mem := Put(mem, ss[i].base + Offset(BROW), Buf(1024 * tn, Get(mem, ss[i].base + Offset(BX))));
      if Apart(ss) {
        PutOne(m, ss, i, BX, b);
        ghost var m1 := Put(m, At(ss[i].base, Offset(BX)), b);
        LocalGet(m1, ss[i].base, BX);
        EmptyTidy();
        WriteRead(map[], BX, 1024 * tn, z);
        PutOne(m1, ss, i, BROW, b);
        WriteRead(Write(map[], BX, 1024 * tn, z), BROW, 1024 * tn, z);
      }
    }

    /** Upload, clamp and look up every session's codes; the rows are the columns transposed. */
    method LoadCodes(tn: nat, codes: seq<int>)
      requires Wired() && mem == map[] && 1 <= tn <= MAX_TN && |codes| == |ss| * (10 * tn)
      modifies this
      ensures Valid() && done == []
      ensures Apart(ss) ==> forall j: nat :: j < |ss| ==>
        start[j] == View(mem, ss[j]) && Holds(start[j].loc, Latents(net, FrameMajor(Packed(codes, j, |ss|, tn), tn)))
    {
      hide Local, Contained, Holds, Put, Latents, FrameMajor, Packed;
      ghost var zs := seq(|ss|, j requires 0 <= j < |ss| => Latents(net, FrameMajor(Packed(codes, j, |ss|, tn), tn)));
      EmptyContained(ss);
      for i := 0 to |ss|
        invariant Apart(ss) ==> LoadedTo(i, zs)
      {
        var z := ClampLookup(net, Packed(codes, i, |ss|, tn), tn);
        LoadOne(i, z, tn, zs);
      }
      start := seq(|ss|, j requires 0 <= j < |ss| reads this`mem, ss => View(mem, ss[j]));
      done := [];
    }

    // ---- the walk ---------------------------------------------------------------------------------

    /** Projections and attention of a layer. */
    method WalkAttend(l: nat, tn: nat)
      requires Valid() && 1 <= tn <= MAX_TN
      modifies this`mem, this`done, ss`dev
      ensures Valid() && done == AttendProg(net, l, tn, old(done))
    {
      hide Valid, ByCol, ByQkv;
      var ly := net.layer(l);
      Launch(BROW, AT1, 1024 * tn, ByCol(ly.attnNorm));
      Launch(AT1, AQ, 3072 * tn, ByQkv(ly));
      Attend(l, tn);
    }

    /** The residual around attention and the feed-forward part of a layer. */
    method WalkMix(l: nat, tn: nat)
      requires Valid() && 1 <= tn <= MAX_TN
      modifies this`mem, this`done, ss`dev
      ensures Valid() && done == MixProg(net, l, tn, old(done))
    {
      hide Valid, ByCol, ByPair;
      var ly := net.layer(l);
      Launch(AT1, AT3, 1024 * tn, ByCol(ly.wo));
      Launch2(BROW, AT3, BROW, 1024 * tn, ByPair(ly.gAttn));
      Launch(BROW, AT1, 1024 * tn, ByCol(ly.ffnNorm));
      Launch(AT1, AF1, 3072 * tn, ByCol(ly.w1));
      Launch(AT1, AF2, 3072 * tn, ByCol(ly.w3));
      Launch2(AF1, AF2, AF1, 3072 * tn, ByPair(ly.siluMul));
      Launch(AF1, AT1, 1024 * tn, ByCol(ly.w2));
      Launch2(BROW, AT1, BROW, 1024 * tn, ByPair(ly.gFfn));
    }

    /** One transformer layer for all sessions. */
    method WalkLayer(l: nat, tn: nat)
      requires Valid() && 1 <= tn <= MAX_TN
      modifies this`mem, this`done, ss`dev
      ensures Valid() && done == LayerProg(net, l, tn, old(done))
    {
      hide Valid, AttendProg, MixProg;
      WalkAttend(l, tn);
      WalkMix(l, tn);
      Retain(l, tn);
    }

    /** The transformer: layers outside, sessions inside. */
    method WalkPost(tn: nat)
      requires Valid() && 1 <= tn <= MAX_TN
      modifies this`mem, this`done, ss`dev
      ensures Valid() && done == PostProg(net, tn, old(done))
    {
      hide Valid, LayerProg;
      for l := 0 to net.layers
        invariant Valid() && done == LayersProg(net, l, tn, old(done))
      {
        WalkLayer(l, tn);
      }
      Launch(BROW, BROW, 1024 * tn, ByCol(net.postNorm));
      Launch(BROW, BX, 1024 * tn, Same());
    }

    /** A ConvNeXt block in place on a region. */
    method WalkCnx(i: nat, x: nat, t: nat)
      requires Valid() && (x == BX || x == BY) && 1 <= t <= 32
      modifies this`mem, this`done, ss`dev
      ensures Valid() && done == CnxProg(net, i, x, t, old(done))
    {
      hide Valid, AddCol;
      var c := net.upCnx(i);
      ExtBuild(CnxH(i), x, 1024 * (6 + t));
      Launch(BEXT, BT1, 1024 * t, ByConv(c.dw, 7, 1, t));
      HistUpdate(CnxH(i), t);
      Launch(BT1, BT2, 1024 * t, Same());
      Launch(BT2, BT2, 1024 * t, ByCol(c.layernorm));
      Launch(BT2, B32K, 4096 * t, ByCol(c.pw1));
      Launch(B32K, B32K, 4096 * t, ByCol(c.gelu));
      Launch(B32K, BT1, 1024 * t, ByCol(c.pw2));
      Launch(BT1, BT1, 1024 * t, ByCol(c.gamma));
      Launch(BT1, BT2, 1024 * t, Same());
      Launch2(x, BT2, x, 1024 * t, ByPair(AddCol));
    }

    /** Both up-sampling stages. */
    method WalkUp(tn: nat)
      requires Valid() && 1 <= tn <= MAX_TN
      modifies this`mem, this`done, ss`dev
      ensures Valid() && done == UpProg(net, tn, old(done))
    {
      hide Valid, CnxProg;
      Launch(BX, BY, 1024 * (2 * tn), ByTConv(net.upT(0), 2, 2, 2 * tn));
      WalkCnx(0, BY, 2 * tn);
      Launch(BY, BX, 1024 * (4 * tn), ByTConv(net.upT(1), 2, 2, 4 * tn));
      WalkCnx(1, BX, 4 * tn);
    }

    /** The first decoder convolution. */
    method WalkConv(tn: nat)
      requires Valid() && 1 <= tn <= MAX_TN
      modifies this`mem, this`done, ss`dev
      ensures Valid() && done == ConvProg(net, tn, old(done))
    {
      hide Valid;
      ExtBuild(C0H, BX, 1024 * (6 + 4 * tn));
      Launch(BEXT, BY, 1536 * (4 * tn), ByConv(net.conv0, 7, 1, 4 * tn));
      HistUpdate(C0H, 4 * tn);
    }

    /** Residual unit r of a block in place on a region of lc columns. */
    method WalkRu(blk: nat, r: nat, x: nat, lc: nat, ghost tn: nat)
      requires Valid() && blk < 4 && r < 3 && (x == BX || x == BY) && 1 <= tn <= MAX_TN && lc == Cols(blk + 1, tn)
      modifies this`mem, this`done, ss`dev
      ensures Valid() && done == RuProg(net, blk, r, x, tn, old(done))
    {
      hide Valid;
      BlockFits(blk, tn);
      var ru, c := net.ru(blk, r), BLOCK_COUT[blk];
      Launch(x, BT1, c * lc, ByCol(ru.alpha0));
      ExtBuild(RuH(blk, r), BT1, c * (6 * RU_DIL[r] + lc));
      Launch(BEXT, BT2, c * lc, ByConv(ru.c7, 7, RU_DIL[r], lc));
      HistUpdate(RuH(blk, r), lc);
      Launch(BT2, BT2, c * lc, ByCol(ru.alpha1));
      Launch(BT2, BT1, c * lc, ByConv(ru.c1, 1, 1, lc));
      Launch2(x, BT1, x, c * lc, ByPair(AddCol));
    }

    /** The up-sampler of block blk: parity 0 reads role by, parity 1 reads role bx. */
    method WalkBlockUp(blk: nat, par: nat, lc: nat, lo: nat, ghost tn: nat)
      requires Valid() && blk < 4 && par == blk % 2 && 1 <= tn <= MAX_TN && lc == Cols(blk, tn)
      requires lo == Cols(blk + 1, tn)
      modifies this`mem, this`done, ss`dev
      ensures Valid() && done == BlockUpProg(net, blk, LiveRole(blk + 1), LiveRole(blk), tn, old(done))
    {
      hide Valid, ByTConv, Cols;
      BlockFits(blk, tn);
      var y := if par != 0 then BX else BY;
      var x := if par != 0 then BY else BX;
      Launch(y, y, BLOCK_CIN[blk] * lc, ByCol(net.blockAlpha(blk)));
      ExtBuild(UpH(blk), y, BLOCK_CIN[blk] * (1 + lc));
      Launch(BEXT, BT2, BLOCK_COUT[blk] * (lo + BLOCK_S[blk]),
        ByTConv(net.blockUp(blk), BLOCK_K[blk], BLOCK_S[blk], lo + BLOCK_S[blk]));
      DropUp(UpH(blk), BLOCK_S[blk], x, BLOCK_COUT[blk] * lo, lc);
    }

    /** Four decoder blocks; the parity follows the swaps of the two roles. */
    method WalkBlocks(tn: nat)
      requires Valid() && 1 <= tn <= MAX_TN
      modifies this`mem, this`done, ss`dev
      ensures Valid() && done == BlocksProg(net, 4, tn, old(done))
    {
      hide Valid, RuProg, BlockUpProg;
      var lc, par := 4 * tn, 0;
      for blk := 0 to 4
        invariant Valid() && par == blk % 2 && lc == Cols(blk, tn) && done == BlocksProg(net, blk, tn, old(done))
      {
        BlockFits(blk, tn);
        var lo := lc * BLOCK_S[blk];
        WalkBlockUp(blk, par, lc, lo, tn);
        lc := lo;
        ghost var d := done;
        for r := 0 to 3
          invariant Valid() && done == RusProg(net, blk, r, LiveRole(blk + 1), tn, d)
        {
          WalkRu(blk, r, if par != 0 then BY else BX, lc, tn);
        }
        par := 1 - par;
      }
    }

    /** The final role is by again after four swaps; samples are taken from bt1. */
    method WalkFinal(tn: nat)
      requires Valid() && 1 <= tn <= MAX_TN
      modifies this`mem, this`done, ss`dev
      ensures Valid() && done == FinalProg(net, tn, old(done))
    {
      hide Valid;
      var lc := 2048 * tn;
      Launch(BY, BY, 96 * lc, ByCol(net.decAlpha));
      ExtBuild(CfH, BY, 96 * (6 + lc));
      Launch(BEXT, BT1, lc, ByConv(net.convf, 7, 1, lc));
      Launch(BT1, BT1, lc, ByCol(net.tanh));
      Samples(lc);
    }

    /** Everything after the codes are loaded, for all sessions. */
    method WalkAll(tn: nat)
      requires Valid() && done == [] && 1 <= tn <= MAX_TN
      modifies this`mem, this`done, ss`dev
      ensures Valid() && done == Program(net, tn)
    {
      hide Valid, PostProg, UpProg, ConvProg, BlocksProg, FinalProg;
      WalkPost(tn);
      WalkUp(tn);
      WalkConv(tn);
      WalkBlocks(tn);
      WalkFinal(tn);
    }
  }
}
