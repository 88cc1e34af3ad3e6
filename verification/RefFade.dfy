/** Linear cross-fades, and what a chain of them makes of its parts: every part stands whole where no
    neighbour overlaps it, and an overlap moves from the old sample to the new one in equal steps. */
module RefFade {
  const CROSSFADE: nat := 512

  function Min(a: nat, b: nat): nat {
    if a < b then a else b
  }

  /** Linear fade weight, linspace(0, 1, n). */
  function Fade(i: nat, n: nat): real
    requires i < n
  {
    if n > 1 then i as real / (n - 1) as real else 0.0
  }

  /** y over x with weight f. */
  function Weigh(x: real, y: real, f: real): real {
    x * (1.0 - f) + y * f
  }

  /** n samples faded from the end of a into the start of d. */
  function Mixed(a: seq<real>, d: seq<real>, n: nat): (m: seq<real>)
    requires n <= |a| && n <= |d|
    ensures |m| == n
  {
    seq(n, i requires 0 <= i < n => Weigh(a[|a| - n + i], d[i], Fade(i, n)))
  }

  /** The stream so far with a new part cross-faded over its last 512 samples. */
  function Cross(a: seq<real>, d: seq<real>): (r: seq<real>)
    ensures |r| == |a| + |d| - Min(Min(CROSSFADE, |a|), |d|)
  {
    var n := Min(Min(CROSSFADE, |a|), |d|);
    a[..|a| - n] + Mixed(a, d, n) + d[n..]
  }

  lemma CrossAt(a: seq<real>, d: seq<real>, k: nat)
    requires k < |Cross(a, d)|
    ensures var n := Min(Min(CROSSFADE, |a|), |d|);
            var head := |a| - n;
            && n <= |a| && n <= |d|
            && Cross(a, d)[k] == if k < head then a[k]
                                 else if k < |a| then Weigh(a[k], d[k - head], Fade(k - head, n))
                                 else d[k - head]
  {
    hide Weigh, Fade;
  }

  // ---- the meaning of one cross-fade -----------------------------------------------------------

  /** r stands i of m equal steps from x to y. */
  predicate Between(x: real, y: real, r: real, i: nat, m: nat) {
    m as real * (r - x) == i as real * (y - x)
  }

  lemma WeighBetween(x: real, y: real, i: nat, n: nat)
    requires i < n && n > 1
    ensures Between(x, y, Weigh(x, y, Fade(i, n)), i, n - 1)
  {
    var f, m := Fade(i, n), (n - 1) as real;
    assert m * f == i as real;
    assert Weigh(x, y, f) - x == f * (y - x);
    Associate(m, f, y - x);
  }

  lemma Associate(a: real, b: real, c: real)
    ensures a * (b * c) == (a * b) * c
  {
  }

  /** For any two signals: the overlap is as long as both allow, 512 samples at most; ahead of it the old
      one is unchanged, behind it the new one; within it every sample is on its way from old to new,
      starting at the old and ending at the new; of a single sample the old one stays. */
  lemma CrossIs(a: seq<real>, d: seq<real>)
    ensures var n := if |a| < 512 && |a| <= |d| then |a| else if |d| < 512 then |d| else 512;
            var r := Cross(a, d);
            && |r| == |a| + |d| - n
            && (forall k: nat :: k < |a| - n ==> r[k] == a[k])
            && (forall k: nat :: n <= k < |d| ==> r[|a| - n + k] == d[k])
            && (n > 1 ==> forall i: nat :: i < n ==> Between(a[|a| - n + i], d[i], r[|a| - n + i], i, n - 1))
            && (n > 1 ==> r[|a| - n] == a[|a| - n] && r[|a| - 1] == d[n - 1])
            && (n == 1 ==> r[|a| - 1] == a[|a| - 1])
  {
    hide Weigh, Fade, Cross, Between;
    var n := Min(Min(CROSSFADE, |a|), |d|);
    var r := Cross(a, d);
    forall k: nat | k < |a| - n ensures r[k] == a[k] {
      CrossAt(a, d, k);
    }
    forall k: nat | n <= k < |d| ensures r[|a| - n + k] == d[k] {
      CrossAt(a, d, |a| - n + k);
    }
    if n > 1 {
      forall i: nat | i < n ensures Between(a[|a| - n + i], d[i], r[|a| - n + i], i, n - 1) {
        CrossAt(a, d, |a| - n + i);
        WeighBetween(a[|a| - n + i], d[i], i, n);
      }
      StepEnds(a[|a| - n], d[0], r[|a| - n], n - 1, 0);
      StepEnds(a[|a| - 1], d[n - 1], r[|a| - 1], n - 1, n - 1);
    } else if n == 1 {
      CrossAt(a, d, |a| - 1);
      OneSample(a[|a| - 1], d[0]);
    }
  }

  lemma OneSample(x: real, y: real)
    ensures Weigh(x, y, Fade(0, 1)) == x
  {
  }

  lemma StepEnds(x: real, y: real, r: real, m: nat, i: nat)
    requires m > 0 && i <= m && Between(x, y, r, i, m)
    ensures i == 0 ==> r == x
    ensures i == m ==> r == y
  {
    if i == m {
      assert m as real * (r - x - (y - x)) == 0.0;
    }
  }

  // ---- a chain of parts --------------------------------------------------------------------------

  /** Where part j of a chain begins: each begins 512 samples before the end of the one before. */
  function Start(ps: seq<seq<real>>, j: nat): int
    requires j <= |ps|
  {
    if j == 0 then 0 else Start(ps, j - 1) + |ps[j - 1]| - 512
  }

  function Chain(ps: seq<seq<real>>): seq<real> {
    if ps == [] then [] else Cross(Chain(ps[..|ps| - 1]), ps[|ps| - 1])
  }

  /** Parts long enough for the overlaps at their two ends not to meet. */
  predicate Long(ps: seq<seq<real>>) {
    forall j: nat :: j < |ps| ==> |ps[j]| >= 1024
  }

  /** Sample i of part j, in the whole. */
  ghost predicate Heard(ps: seq<seq<real>>, out: seq<real>, j: nat, i: nat)
    requires Long(ps) && j < |ps| && i < |ps[j]|
  {
    && 0 <= Start(ps, j) && Start(ps, j) + i < |out|
    && var r := out[Start(ps, j) + i];
       if j > 0 && i < 512 then Between(ps[j - 1][|ps[j - 1]| - 512 + i], ps[j][i], r, i, 511)
       else i < |ps[j]| - 512 || j + 1 == |ps| ==> r == ps[j][i]
  }

  /** What the whole is, sample by sample. */
  ghost predicate Joined(ps: seq<seq<real>>, out: seq<real>)
    requires Long(ps)
  {
    && |out| == (if ps == [] then 0 else Start(ps, |ps|) + 512)
    && forall j: nat, i: nat :: j < |ps| && i < |ps[j]| ==> Heard(ps, out, j, i)
  }

  lemma {:induction false} StartOf(ps: seq<seq<real>>, d: seq<real>, j: nat)
    requires j <= |ps|
    ensures Start(ps + [d], j) == Start(ps, j)
  {
    if j > 0 {
      StartOf(ps, d, j - 1);
    }
  }

  lemma {:induction false} StartGrows(ps: seq<seq<real>>, j: nat, k: nat)
    requires Long(ps) && j <= k <= |ps|
    ensures 0 <= Start(ps, j) && Start(ps, j) + 512 * (k - j) <= Start(ps, k)
    decreases k
  {
    if j < k {
      StartGrows(ps, j, k - 1);
    } else if j > 0 {
      StartGrows(ps, j - 1, k - 1);
    }
  }

  /** One part more: only the last 512 samples so far change. */
  lemma JoinOne(ps: seq<seq<real>>, out: seq<real>, d: seq<real>)
    requires Long(ps) && Joined(ps, out) && |d| >= 1024
    ensures Long(ps + [d]) && Joined(ps + [d], Cross(out, d))
  {
    hide Cross, Between, Start;
    var qs, r, m := ps + [d], Cross(out, d), |ps|;
    CrossIs(out, d);
    StartNext(ps, d);
    forall j: nat, i: nat | j < |qs| && i < |qs[j]|
      ensures Heard(qs, r, j, i)
    {
      if j < m {
        OldPart(ps, out, d, j, i);
      } else {
        NewPart(ps, out, d, i);
      }
    }
  }

  lemma StartNext(ps: seq<seq<real>>, d: seq<real>)
    requires Long(ps)
    ensures Start(ps + [d], |ps|) == Start(ps, |ps|) >= 0
    ensures Start(ps + [d], |ps| + 1) == Start(ps, |ps|) + |d| - 512
    ensures ps == [] ==> Start(ps, |ps|) == 0
  {
    StartOf(ps, d, |ps|);
    StartGrows(ps, |ps|, |ps|);
  }

  lemma OldPart(ps: seq<seq<real>>, out: seq<real>, d: seq<real>, j: nat, i: nat)
    requires Long(ps) && Joined(ps, out) && |d| >= 1024 && j < |ps| && i < |ps[j]|
    ensures var qs, r := ps + [d], Cross(out, d);
            Long(qs) && Heard(qs, r, j, i)
  {
    hide Cross, Between;
    CrossIs(out, d);
    StartOf(ps, d, j);
    StartGrows(ps, j, |ps|);
    StartGrows(ps, j + 1, |ps|);
    assert Heard(ps, out, j, i);
  }

  lemma NewPart(ps: seq<seq<real>>, out: seq<real>, d: seq<real>, i: nat)
    requires Long(ps) && Joined(ps, out) && |d| >= 1024 && i < |d|
    ensures var qs, r := ps + [d], Cross(out, d);
            Long(qs) && Heard(qs, r, |ps|, i)
  {
    hide Cross, Between;
    CrossIs(out, d);
    StartNext(ps, d);
    if ps != [] && i < 512 {
      LastTail(ps, out, i);
    }
  }

  /** The end of the whole is the end of its last part. */
  lemma LastTail(ps: seq<seq<real>>, out: seq<real>, i: nat)
    requires Long(ps) && Joined(ps, out) && ps != [] && i < 512
    ensures var m: nat := |ps| - 1;
            |out| >= 512 && out[|out| - 512 + i] == ps[m][|ps[m]| - 512 + i]
  {
    var m: nat := |ps| - 1;
    var k := |ps[m]| - 512 + i;
    StartGrows(ps, m, |ps|);
    assert 0 <= Start(ps, m) && Start(ps, m) + k < |out|;
    assert Heard(ps, out, m, k);
  }

  lemma {:induction false} ChainJoined(ps: seq<seq<real>>)
    requires Long(ps)
    ensures Joined(ps, Chain(ps))
    decreases |ps|
  {
    hide Cross, Joined;
    if ps == [] {
      NothingJoined();
    } else {
      var n: nat := |ps| - 1;
      ChainJoined(ps[..n]);
      JoinOne(ps[..n], Chain(ps[..n]), ps[n]);
      assert ps[..n] + [ps[n]] == ps;
    }
  }

  lemma NothingJoined()
    ensures Joined([], [])
  {
  }
}
