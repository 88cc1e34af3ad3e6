/** The tensor-name index: open addressing with linear probing, for any hash function, against a
    scan of the names. */
module HashIndex {
  import opened Basics

  /** The first entry with this name. */
  function Scan<T(==)>(names: seq<T>, name: T): Option<nat> {
    if names == [] then None
    else if names[0] == name then Some(0)
    else
      var r := Scan(names[1..], name);
      if r.None? then None else Some(1 + r.value)
  }

  lemma {:induction false} ScanIs<T>(names: seq<T>, name: T)
    ensures match Scan(names, name)
            case Some(i) => i < |names| && names[i] == name && forall j: nat :: j < i ==> names[j] != name
            case None => forall j: nat :: j < |names| ==> names[j] != name
  {
    if names != [] {
      ScanIs(names[1..], name);
      assert forall j: nat :: 0 < j < |names| ==> names[j] == names[1..][j - 1];
    }
  }

  predicate Distinct<T(==)>(names: seq<T>) {
    forall i: nat, j: nat :: i < j < |names| ==> names[i] != names[j]
  }

  lemma ScanUnique<T>(names: seq<T>, i: nat)
    requires i < |names| && Distinct(names)
    ensures Scan(names, names[i]) == Some(i)
  {
    ScanIs(names, names[i]);
  }

  // ---- the table --------------------------------------------------------------------------

  /** k slots after h, around the end of the table. */
  function Slot(h: nat, k: nat, cap: nat): (s: nat)
    requires h < cap && k < cap
    ensures s < cap
  {
    if h + k < cap then h + k else h + k - cap
  }

  function Home<T>(hash: T -> nat, name: T, cap: nat): (h: nat)
    requires cap > 0
    ensures h < cap
  {
    hash(name) % cap
  }

  /** Occupied slots. */
  function Used(t: seq<nat>): nat {
    if t == [] then 0 else Used(t[..|t| - 1]) + if t[|t| - 1] != 0 then 1 else 0
  }

  lemma {:induction false} UsedUpdate(t: seq<nat>, s: nat, v: nat)
    requires s < |t| && t[s] == 0 && v != 0
    ensures Used(t[s := v]) == Used(t) + 1
  {
    var n: nat := |t| - 1;
    if s == n {
      assert t[s := v][..n] == t[..n];
    } else {
      assert t[s := v][..n] == t[..n][s := v];
      UsedUpdate(t[..n], s, v);
    }
  }

  lemma {:induction false} UsedFull(t: seq<nat>)
    requires forall s: nat :: s < |t| ==> t[s] != 0
    ensures Used(t) == |t|
  {
    if t != [] {
      UsedFull(t[..|t| - 1]);
    }
  }

  lemma {:induction false} UsedEmpty(t: seq<nat>)
    requires forall s: nat :: s < |t| ==> t[s] == 0
    ensures Used(t) == 0
  {
    if t != [] {
      UsedEmpty(t[..|t| - 1]);
    }
  }

  /** Entry j stands dist[j] slots after its home, with no empty slot before it. */
  ghost predicate Placed<T>(hash: T -> nat, names: seq<T>, t: seq<nat>, dist: seq<nat>, j: nat)
    requires j < |dist| && |dist| <= |names| && |t| > 0
  {
    var h := Home(hash, names[j], |t|);
    && dist[j] < |t| && t[Slot(h, dist[j], |t|)] == j + 1
    && forall k: nat :: k < dist[j] ==> t[Slot(h, k, |t|)] != 0
  }

  /** The table holds exactly the first |dist| names, and room is left. */
  ghost predicate Holds<T>(hash: T -> nat, names: seq<T>, t: seq<nat>, dist: seq<nat>) {
    && |dist| <= |names| && 2 * |names| <= |t| && |t| > 0
    && (forall s: nat :: s < |t| ==> t[s] <= |dist|)
    && (forall j: nat :: j < |dist| ==> Placed(hash, names, t, dist, j))
    && Used(t) == |dist|
  }

  /** Some slot on every probe path is empty. */
  lemma EmptyAhead(t: seq<nat>, h: nat) returns (k: nat)
    requires h < |t| && Used(t) < |t|
    ensures k < |t| && t[Slot(h, k, |t|)] == 0
  {
    if forall s: nat :: s < |t| ==> t[s] != 0 {
      UsedFull(t);
    }
    var s: nat :| s < |t| && t[s] == 0;
    k := if s >= h then s - h else s + |t| - h;
  }

  /** What a probe for `name` has found after k steps without success. */
  ghost predicate Probed<T>(names: seq<T>, t: seq<nat>, h: nat, k: nat, name: T)
    requires h < |t|
  {
    k < |t| && forall m: nat :: m < k ==>
      var v := t[Slot(h, m, |t|)];
      1 <= v <= |names| && names[v - 1] != name
  }

  /** An empty slot ends the probe: the name is not among the entries. */
  lemma Absent<T>(hash: T -> nat, names: seq<T>, t: seq<nat>, dist: seq<nat>, k: nat, name: T)
    requires Holds(hash, names, t, dist)
    requires var h := Home(hash, name, |t|); Probed(names, t, h, k, name) && t[Slot(h, k, |t|)] == 0
    ensures forall j: nat :: j < |dist| ==> names[j] != name
  {
    forall j: nat | j < |dist| ensures names[j] != name {
      assert Placed(hash, names, t, dist, j);
      assert dist[j] < k ==> names[t[Slot(Home(hash, names[j], |t|), dist[j], |t|)] - 1] == names[j];
    }
  }

  /** Filling the empty slot at the end of its probe places the next entry. */
  lemma Place<T>(hash: T -> nat, names: seq<T>, t: seq<nat>, dist: seq<nat>, k: nat)
    requires Holds(hash, names, t, dist) && |dist| < |names|
    requires var h := Home(hash, names[|dist|], |t|);
             Probed(names, t, h, k, names[|dist|]) && t[Slot(h, k, |t|)] == 0
    ensures var s := Slot(Home(hash, names[|dist|], |t|), k, |t|);
            Holds(hash, names, t[s := |dist| + 1], dist + [k])
  {
    var h := Home(hash, names[|dist|], |t|);
    var s := Slot(h, k, |t|);
    var t', dist' := t[s := |dist| + 1], dist + [k];
    UsedUpdate(t, s, |dist| + 1);
    forall j: nat | j < |dist'| ensures Placed(hash, names, t', dist', j) {
      if j < |dist| {
        assert Placed(hash, names, t, dist, j);
        assert Slot(Home(hash, names[j], |t|), dist[j], |t|) != s;
      } else {
        assert forall m: nat :: m < k ==> t[Slot(h, m, |t|)] != 0;
        assert forall m: nat :: m < k ==> Slot(h, m, |t|) != s;
      }
    }
  }

  /** The probe loop shared by building and finding: an entry with the name, or an empty slot. */
  method Probe<T(==)>(hash: T -> nat, names: seq<T>, htab: array<nat>, name: T, ghost dist: seq<nat>)
    returns (s: nat, ghost k: nat)
    requires Holds(hash, names, htab[..], dist) && |dist| < htab.Length
    ensures s < htab.Length
    ensures htab[s] != 0 ==> htab[s] <= |dist| && names[htab[s] - 1] == name
    ensures htab[s] == 0 ==>
      var h := Home(hash, name, htab.Length); Probed(names, htab[..], h, k, name) && s == Slot(h, k, htab.Length)
  {
    var cap := htab.Length;
    ghost var t, h := htab[..], Home(hash, name, cap);
    ghost var e := EmptyAhead(t, h);
    s, k := Home(hash, name, cap), 0;
    while htab[s] != 0
      invariant s < cap && k <= e && Probed(names, t, h, k, name) && s == Slot(h, k, cap)
      decreases e - k
    {
      assert t[s] == htab[s] <= |dist|;
      if names[htab[s] - 1] == name {
        return;
      }
      s := if s + 1 == cap then 0 else s + 1;
      k := k + 1;
    }
  }

  class Index<T(==)> {
    const names: seq<T>
    const hash: T -> nat
    var htab: array<nat>
    ghost var dist: seq<nat>

    ghost predicate Valid()
      reads this, htab
    {
      Distinct(names) && |dist| == |names| < htab.Length && Holds(hash, names, htab[..], dist)
    }

    constructor (names: seq<T>, hash: T -> nat)
      ensures this.names == names && this.hash == hash && fresh(htab) && htab.Length == 0
    {
      this.names, this.hash := names, hash;
      htab := new nat[0];
      dist := [];
    }

    /** st_build_htab: succeeds exactly when no two names are equal. */
    method Build() returns (st: Status)
      modifies this
      ensures st == OK <==> Distinct(names)
      ensures st == OK ==> Valid() && fresh(htab)
    {
      hide Used, Placed;
      var cap := 16;
      while cap < 2 * |names|
        invariant cap > 0
        decreases 2 * |names| - cap
      {
        cap := cap * 2;
      }
      htab := new nat[cap](_ => 0);
      dist := [];
      UsedEmpty(htab[..]);
      var i := 0;
      while i < |names|
        invariant 0 <= i <= |names| && fresh(htab) && htab.Length == cap
        invariant |dist| == i && Holds(hash, names, htab[..], dist) && Distinct(names[..i])
        decreases |names| - i
      {
        var h;
        ghost var k;
        h, k := Probe(hash, names, htab, names[i], dist);
        if htab[h] != 0 {
          assert names[htab[h] - 1] == names[i];
          return Format;
        }
        Absent(hash, names, htab[..], dist, k, names[i]);
        Place(hash, names, htab[..], dist, k);
        DistinctSnoc(names, i);
        htab[h] := i + 1;
        dist := dist + [k];
        i := i + 1;
      }
      assert names[..|names|] == names;
      st := OK;
    }

    /** s2p_st_find: the one entry with the name, or none, as the scan would say. */
    method Find(name: T) returns (r: Option<nat>)
      requires Valid()
      ensures r == Scan(names, name)
    {
      var h;
      ghost var k;
      h, k := Probe(hash, names, htab, name, dist);
      if htab[h] != 0 {
        ScanUnique(names, htab[h] - 1);
        return Some(htab[h] - 1);
      }
      Absent(hash, names, htab[..], dist, k, name);
      ScanIs(names, name);
      return None;
    }
  }

  lemma DistinctSnoc<T>(names: seq<T>, i: nat)
    requires i < |names| && Distinct(names[..i]) && forall j: nat :: j < i ==> names[j] != names[i]
    ensures Distinct(names[..i + 1])
  {
    var s := names[..i + 1];
    forall a: nat, b: nat | a < b < |s| ensures s[a] != s[b] {
      if b < i {
        assert names[..i][a] != names[..i][b];
      }
    }
  }
}
