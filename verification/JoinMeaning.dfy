/** The join in numbers: what is silent, what a piece keeps of its take, where two pieces meet; and the guard
    of a chunk in seconds. */
module JoinMeaning {
  import opened Basics
  import opened Gap
  import Chain
  import CR = ChainRuns

  /** A sample is silent when it is within 400 of zero. */
  predicate Quiet(s: seq<int>) {
    forall i: nat :: i < |s| ==> -400 <= s[i] <= 400
  }

  predicate Loud(x: int) {
    x < -400 || x > 400
  }

  lemma LeadIs(a: seq<int>, b: seq<int>)
    requires Quiet(a) && (b != [] ==> Loud(b[0]))
    ensures LeadLen(a + b) == |a|
  {
    var p := a + b;
    assert LeadsWith(p, |a|) by {
      assert forall i: nat :: i < |a| ==> p[i] == a[i];
    }
    LeadMaximal(p, |a|);
  }

  lemma TailIs(b: seq<int>, c: seq<int>)
    requires Quiet(c) && (b != [] ==> Loud(b[|b| - 1]))
    ensures TailLen(b + c) == |c|
  {
    var p := b + c;
    assert EndsWith(p, |c|) by {
      assert forall i: nat :: |b| <= i < |p| ==> p[i] == c[i - |b|];
    }
    TailMaximal(p, |c|);
  }

  lemma {:induction false} AllQuiet(s: seq<int>)
    requires Quiet(s)
    ensures TailLen(s) == |s|
  {
    if s != [] {
      AllQuiet(s[..|s| - 1]);
    }
  }

  /** How much of n kept samples is still held back: all up to three seconds, then between 1.5 and 3. */
  lemma HeldIs(n: nat)
    ensures n <= 132300 ==> HoldLen(n) == n
    ensures n > 132300 ==> 66150 < HoldLen(n) <= 132300 && (n - HoldLen(n)) % 66150 == 0
  {
    if n > 132300 {
      var r := (n - 1) % 66150;
      assert n - HoldLen(n) == n - 1 - r - 66150;
    }
  }

  /** What is left of a silent beginning: it is trimmed by two seconds at most, and not at all ahead of the
      first take. */
  function LeadKept(a: seq<int>, first: bool): seq<int> {
    if first then a else if |a| <= 88200 then [] else a[88200..]
  }

  /** A take that is silence, sound, silence: a later one loses its silent beginning; one that another
      follows in a buffered response loses a silent end of up to 1.5 seconds whole, and of a longer one what
      is still held. */
  lemma PieceIs(a: seq<int>, m: seq<int>, z: seq<int>, first: bool, last: bool, buffered: bool)
    requires Quiet(a) && Quiet(z) && m != [] && Loud(m[0]) && Loud(m[|m| - 1])
    ensures var k := LeadKept(a, first) + m;
            var h := HoldLen(|k + z|);
            Piece(a + m + z, first, last, buffered)
            == if last || !buffered then k + z else k + z[..if |z| <= h then 0 else |z| - h]
    ensures !last && buffered && |z| <= 66150 ==> Piece(a + m + z, first, last, buffered) == LeadKept(a, first) + m
  {
    var t := a + m + z;
    assert t == a + (m + z);
    LeadIs(a, m + z);
    var k := LeadKept(a, first) + m;
    assert Trimmed(t, !first) == k + z;
    if !last && buffered {
      ClosedIs(k, z);
    }
  }

  lemma ClosedIs(k: seq<int>, z: seq<int>)
    requires k != [] && Loud(k[|k| - 1]) && Quiet(z)
    ensures var h := HoldLen(|k + z|);
            Closed(k + z) == k + z[..if |z| <= h then 0 else |z| - h]
    ensures |z| <= 66150 ==> Closed(k + z) == k
  {
    var p, h := k + z, HoldLen(|k + z|);
    HeldIs(|p|);
    var w := p[|p| - h..];
    if |z| <= h {
      var b := k[|k| - (h - |z|)..];
      assert w == b + z;
      if h == |z| {
        assert w == z;
        AllQuiet(z);
      } else {
        TailIs(b, z);
      }
      assert TailLen(w) == |z|;
      assert p[..|p| - |z|] == k;
    } else {
      assert w == z[|z| - h..];
      AllQuiet(w);
      assert p[..|p| - h] == k + z[..|z| - h];
    }
  }

  /** Two takes: the first piece, the gap, the second. */
  lemma TwoTakes(s: seq<int>, t: seq<int>, buffered: bool, gap: nat)
    ensures Join([s, t], true, buffered, gap)
         == Piece(s, true, false, buffered) + Zeros(gap) + Piece(t, false, true, buffered)
    ensures Join([s, t], false, buffered, gap) == s + t
  {
    hide Piece;
    assert JoinTo([s, t], 0, true, buffered, gap) == [] == JoinTo([s, t], 0, false, buffered, gap);
    assert JoinTo([s, t], 1, true, buffered, gap) == [] + Piece(s, true, false, buffered) + Zeros(gap);
    assert JoinTo([s, t], 1, false, buffered, gap) == [] + s;
    assert [] + Piece(s, true, false, buffered) == Piece(s, true, false, buffered);
    assert [] + s == s;
  }

  /** One take more at the end of a response that is joined. */
  lemma OneTakeMore(ts: seq<seq<int>>, t: seq<int>, buffered: bool, gap: nat)
    requires ts != []
    ensures Join(ts + [t], true, buffered, gap)
         == JoinTo(ts, |ts|, true, buffered, gap) + Piece(t, false, true, buffered)
    ensures JoinTo(ts + [t], |ts| + 1, true, buffered, gap)
         == JoinTo(ts, |ts|, true, buffered, gap) + Piece(t, |ts| == 0, false, buffered) + Zeros(gap)
  {
    hide Piece;
    SameStart(ts, t, |ts|, buffered, gap);
  }

  lemma {:induction false} SameStart(ts: seq<seq<int>>, t: seq<int>, k: nat, buffered: bool, gap: nat)
    requires k <= |ts|
    ensures JoinTo(ts + [t], k, true, buffered, gap) == JoinTo(ts, k, true, buffered, gap)
  {
    hide Piece;
    if k > 0 {
      SameStart(ts, t, k - 1, buffered, gap);
    }
  }

  // ---- the guard -----------------------------------------------------------------------------------

  function Longest(a: real, b: real): real {
    if a < b then b else a
  }

  /** A guarded chunk may be twice as long as its text at 15 bytes a second, and three seconds more, but
      never has less than eight seconds; it may be regenerated twice. */
  lemma GuardIs(texts: seq<nat>, i: nat)
    requires i < |texts|
    ensures var sl := CR.RequestSlots(texts, true)[i];
            && sl.textLen == texts[i] && sl.retries == 2
            && sl.cap as real == Longest(8.0, texts[i] as real / 15.0 * 2.0 + 3.0) * 44100.0
    ensures CR.RequestSlots(texts, false)[i].cap == 0
  {
    var n := texts[i];
    assert (n as real / 15.0 * 2.0 + 3.0) * 44100.0 == (5880 * n + 132300) as real;
  }
}
