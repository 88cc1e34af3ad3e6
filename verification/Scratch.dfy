/** Device scratch memory: one allocation per stream, carved into fixed regions, and buffers that
    destroy whatever they are written over. */
module Scratch {
  import opened Kernels

  const BUF_FLOATS: nat := 1593344

  /** Regions of a stream's scratch, the first twelve in the order of the pointer table's rows. */
  const BX: nat := 0
  const BY: nat := 1
  const BT1: nat := 2
  const BT2: nat := 3
  const BEXT: nat := 4
  const B32K: nat := 5
  const AQ: nat := 6
  const AF1: nat := 7
  const AF2: nat := 8
  const AT1: nat := 9
  const AT3: nat := 10
  const BROW: nat := 11
  const AXK: nat := 12
  const AXV: nat := 13
  const TAB_ROLES: nat := 12
  const REGIONS: nat := 14

  /** Floats in one stream's scratch allocation. */
  const SCRATCH: nat := 5 * BUF_FLOATS + 2 * 135 * 1024 + 3 * 8 * 3072 + 3 * 8 * 1024

  /** Where a region starts, in floats from the allocation's address. */
  function Offset(r: nat): (o: nat)
    requires r < REGIONS
    ensures o < SCRATCH
  {
    if r <= BEXT then r * BUF_FLOATS
    else if r == B32K then BEXT * BUF_FLOATS + 32768
    else if r == AXK then 5 * BUF_FLOATS
    else if r == AXV then 5 * BUF_FLOATS + 135 * 1024
    else if r <= AF2 then 5 * BUF_FLOATS + 2 * 135 * 1024 + (r - AQ) * 8 * 3072
    else 5 * BUF_FLOATS + 2 * 135 * 1024 + 3 * 8 * 3072 + (r - AT1) * 8 * 1024
  }

  /** How many floats a region holds; bext+32768 is the back of bext. */
  function Cap(r: nat): (c: nat)
    requires r < REGIONS
    ensures Offset(r) + c <= SCRATCH
  {
    if r <= BEXT then BUF_FLOATS
    else if r == B32K then BUF_FLOATS - 32768
    else if r == AXK || r == AXV then 135 * 1024
    else if r <= AF2 then 8 * 3072
    else 8 * 1024
  }

  /** Two regions that share no float. */
  predicate RegionsApart(r: nat, s: nat) {
    r != s && !(r == BEXT && s == B32K) && !(r == B32K && s == BEXT)
  }

  lemma RegionsDisjoint(r: nat, s: nat)
    requires r < REGIONS && s < REGIONS && RegionsApart(r, s)
    ensures Offset(r) + Cap(r) <= Offset(s) || Offset(s) + Cap(s) <= Offset(r)
  {
  }

  // ---- memory -------------------------------------------------------------------------------

  /** A buffer of n floats, seen as columns. */
  datatype Buf = Buf(n: nat, cols: seq<Col>)

  /** The intact buffers, by their address. */
  type Mem = map<int, Buf>

  predicate Overlap(a: int, n: nat, b: int, m: nat) {
    a < b + m && b < a + n
  }

  /** Write a buffer: every other buffer it touches is gone. */
  function Put(m: Mem, a: int, b: Buf): Mem {
    (map x | x in m && !Overlap(x, m[x].n, a, b.n) :: m[x])[a := b]
  }

  /** Read a buffer; what is not intact reads as nothing. */
  function Get(m: Mem, a: int): seq<Col> {
    if a in m then m[a].cols else []
  }

  // ---- one stream's view ----------------------------------------------------------------------

  function At(base: int, o: int): int { base + o }

  /** The part of memory in the allocation at `base`, by offset. */
  function Local(m: Mem, base: int): Mem {
    map o: int | 0 <= o < SCRATCH && At(base, o) in m :: m[At(base, o)]
  }

  /** No buffer reaches beyond the allocation. */
  predicate Contained(loc: Mem) {
    forall o :: o in loc ==> 0 <= o && o + loc[o].n <= SCRATCH
  }

  /** Allocations of two streams. */
  predicate BasesApart(a: int, b: int) {
    a + SCRATCH <= b || b + SCRATCH <= a
  }

  lemma LocalGet(m: Mem, base: int, r: nat)
    requires r < REGIONS
    ensures Get(m, At(base, Offset(r))) == Get(Local(m, base), Offset(r))
  {
  }

  /** A write inside an allocation is a write at its offset. */
  lemma LocalOwn(m: Mem, base: int, r: nat, b: Buf)
    requires r < REGIONS
    ensures Local(Put(m, At(base, Offset(r)), b), base) == Put(Local(m, base), Offset(r), b)
  {
    hide Offset;
    var a, k := At(base, Offset(r)), Offset(r);
    var lhs, rhs := Local(Put(m, a, b), base), Put(Local(m, base), k, b);
    forall o: int
      ensures o in lhs <==> o in rhs
      ensures o in lhs ==> lhs[o] == rhs[o]
    {
      if o != k && 0 <= o < SCRATCH && At(base, o) in m {
        assert Overlap(At(base, o), m[At(base, o)].n, a, b.n) == Overlap(o, Local(m, base)[o].n, k, b.n);
      }
    }
    assert lhs == rhs;
  }

  /** It changes no other allocation. */
  lemma LocalOther(m: Mem, base: int, r: nat, b: Buf, other: int)
    requires r < REGIONS && b.n <= Cap(r) && BasesApart(base, other) && Contained(Local(m, other))
    ensures Local(Put(m, At(base, Offset(r)), b), other) == Local(m, other)
  {
    var a := At(base, Offset(r));
    var lhs, rhs := Local(Put(m, a, b), other), Local(m, other);
    forall o: int
      ensures o in lhs <==> o in rhs
      ensures o in lhs ==> lhs[o] == rhs[o]
    {
      if 0 <= o < SCRATCH && At(other, o) in m {
        assert o in rhs && o + rhs[o].n <= SCRATCH;
        assert !Overlap(At(other, o), m[At(other, o)].n, a, b.n);
      }
    }
    assert lhs == rhs;
  }

  lemma PutContained(loc: Mem, r: nat, b: Buf)
    requires r < REGIONS && b.n <= Cap(r) && Contained(loc)
    ensures Contained(Put(loc, Offset(r), b))
  {
  }

  // ---- regions of one stream --------------------------------------------------------------------

  /** Every region that is intact fits. */
  predicate Tidy(loc: Mem) {
    forall r: nat :: r < REGIONS && Offset(r) in loc ==> loc[Offset(r)].n <= Cap(r)
  }

  function Read(loc: Mem, r: nat): seq<Col>
    requires r < REGIONS
  {
    Get(loc, Offset(r))
  }

  function Write(loc: Mem, r: nat, n: nat, cols: seq<Col>): Mem
    requires r < REGIONS
  {
    Put(loc, Offset(r), Buf(n, cols))
  }

  /** A region that was written reads back, and the regions apart from it are unchanged. */
  lemma WriteRead(loc: Mem, r: nat, n: nat, cols: seq<Col>)
    requires r < REGIONS && n <= Cap(r) && Tidy(loc)
    ensures var w := Write(loc, r, n, cols);
            && Tidy(w) && Read(w, r) == cols
            && forall s: nat :: s < REGIONS && RegionsApart(r, s) ==> Read(w, s) == Read(loc, s)
  {
    var w := Write(loc, r, n, cols);
    forall s: nat | s < REGIONS
      ensures Offset(s) in w ==> w[Offset(s)].n <= Cap(s)
      ensures RegionsApart(r, s) ==> Read(w, s) == Read(loc, s)
    {
      if s != r {
        OffsetsApart(r, s);
        if RegionsApart(r, s) {
          RegionsDisjoint(r, s);
        }
      }
    }
  }

  lemma OffsetsApart(r: nat, s: nat)
    requires r < REGIONS && s < REGIONS && r != s
    ensures Offset(r) != Offset(s)
  {
  }
}
