/** The gap filter as the code runs it: a fixed window buffer, blocks, and an output that may
    fail.  Each call is proved to take the automaton where feeding the block takes it. */
module GapFilter {
  import opened Basics
  import Gap
  import Wire

  class Filter {
    const resp: Wire.Response
    /** Null when the filter is off. */
    const hold: array?<int>
    const gapLen: nat
    var holdN: nat
    var lead: bool
    var skipped: nat

    ghost predicate Sized()
      reads this
    {
      if hold == null then holdN == 0 else hold.Length == Gap.HOLD && holdN <= Gap.HOLD
    }

    ghost function View(): Gap.State
      reads this, resp, hold
      requires Sized()
    {
      Gap.State(hold != null, resp.buffered, if hold == null then [] else hold[..holdN], lead, skipped, resp.emitted)
    }

    ghost predicate Valid()
      reads this, resp, hold
    {
      Sized() && Gap.Ok(View()) && resp.Open()
    }

    /** A gap of zero milliseconds, or a failed allocation, leaves the filter off. */
    constructor (resp: Wire.Response, gapMs: nat, gotBuffer: bool)
      requires resp.Open() && resp.emitted == []
      ensures Valid() && this.resp == resp && gapLen == gapMs * 44100 / 1000 && (hold != null ==> fresh(hold))
      ensures View() == Gap.Start(gapMs > 0 && gotBuffer, resp.buffered)
    {
      this.resp, gapLen := resp, gapMs * 44100 / 1000;
      holdN, lead, skipped := 0, false, 0;
      if gapMs > 0 && gotBuffer {
        hold := new int[Gap.HOLD];
      } else {
        hold := null;
      }
    }

    /** The window is full: emit its oldest half and move the rest to the front. */
    method Forward() returns (ok: bool)
      requires Valid() && hold != null && resp.buffered && holdN == Gap.HOLD
      modifies `holdN, resp, hold
      ensures ok ==> Valid() && View() == old(View().(out := View().out + hold[..Gap.HALF], hold := hold[Gap.HALF..]))
      ensures !ok ==> resp.Cut() && resp.emitted == old(resp.emitted)
    {
      hide Wire.Response.Sound, Wire.Decode;
      ghost var w := hold[..];
      ok := resp.Emit(hold[..Gap.HALF]);
      if ok {
        assert hold[..] == w && hold[..Gap.HALF] == w[..Gap.HALF];
        forall k | 0 <= k < Gap.HOLD - Gap.HALF {
          hold[k] := hold[k + Gap.HALF];
        }
        holdN := Gap.HOLD - Gap.HALF;
        assert hold[..holdN] == w[Gap.HALF..];
      }
    }

    method Append(p: seq<int>)
      requires Valid() && hold != null && resp.buffered && holdN + |p| <= Gap.HOLD
      modifies `holdN, hold
      ensures Valid() && View() == old(View().(hold := hold[..holdN] + p))
    {
      hide Wire.Response.Sound, Wire.Decode;
      ghost var w := hold[..holdN];
      forall k | 0 <= k < |p| {
        hold[holdN + k] := p[k];
      }
      holdN := holdN + |p|;
      assert hold[..holdN] == w + p;
    }

    /** The part of gap_feed that fills the window. */
    method Fill(pcm: seq<int>) returns (ok: bool)
      requires Valid() && hold != null && resp.buffered && !lead
      modifies `holdN, resp, hold
      ensures ok ==> Valid() && View() == Gap.Feed(old(View()), pcm)
      ensures !ok ==> resp.Cut() && resp.emitted <= Gap.Feed(old(View()), pcm).out
    {
      hide Wire.Response.Sound, Wire.Decode;
      var p := pcm;
      ghost var target := Gap.Feed(View(), pcm);
      while |p| > 0
        invariant Valid() && Gap.Feed(View(), p) == target
        decreases |p|
      {
        if holdN == Gap.HOLD {
          Gap.FeedForward(View(), p);
          Gap.FeedFrame(View(), p);
          assert View().hold == hold[..];
          ok := Forward();
          if !ok { return; }
        }
        var take := Gap.MinN(|p|, Gap.HOLD - holdN);
        Gap.FeedConcat(View(), p[..take], p[take..]);
        assert p[..take] + p[take..] == p;
        Gap.FeedFill(View(), p[..take]);
        Append(p[..take]);
        p := p[take..];
      }
      ok := true;
    }

    /** Past the lead trim without a window, samples go straight out. */
    method Through(pcm: seq<int>) returns (ok: bool)
      requires Valid() && !lead && (hold == null || !resp.buffered)
      modifies resp
      ensures ok ==> Valid() && View() == Gap.Feed(old(View()), pcm)
      ensures !ok ==> resp.Cut() && resp.emitted <= Gap.Feed(old(View()), pcm).out
    {
      hide Wire.Response.Sound, Wire.Decode;
      Gap.FeedThrough(View(), pcm);
      ok := resp.Emit(pcm);
    }

    /** gap_feed. */
    method Feed(pcm: seq<int>) returns (ok: bool)
      requires Valid()
      modifies this, resp, hold
      ensures ok ==> Valid() && View() == Gap.Feed(old(View()), pcm)
      ensures !ok ==> resp.Cut() && resp.emitted <= Gap.Feed(old(View()), pcm).out
    {
      hide Wire.Response.Sound, Wire.Decode;
      if hold == null {
        ok := Through(pcm);
        return;
      }
      var p := pcm;
      if lead {
        p := Trim(pcm);
        if |p| == 0 {
          return true;
        }
      }
      if !resp.buffered {
        ok := Through(p);
      } else {
        ok := Fill(p);
      }
    }

    /** The lead trim of one block: what is left of it. */
    method Trim(pcm: seq<int>) returns (p: seq<int>)
      requires Valid() && hold != null && lead
      modifies `lead, `skipped
      ensures Valid() && Gap.Feed(View(), p) == Gap.Feed(old(View()), pcm)
      ensures |p| > 0 ==> !lead
    {
      hide Wire.Response.Sound, Wire.Decode;
      ghost var g := View();
      var n := Gap.SilLead(pcm);
      n := Gap.MinN(n, Gap.LEAD_MAX - skipped);
      skipped := skipped + n;
      p := pcm[n..];
      if |p| > 0 || skipped >= Gap.LEAD_MAX {
        lead := false;
      }
      assert View() == Gap.Skipped(g, n, |pcm|);
      Gap.FeedLead(g, pcm);
    }

    method EmitGap(gap: nat) returns (ok: bool)
      requires resp.Open()
      modifies resp
      ensures ok ==> resp.Open() && resp.emitted == old(resp.emitted) + Zeros(gap)
      ensures !ok ==> resp.Cut() && resp.emitted <= old(resp.emitted) + Zeros(gap)
    {
      hide Wire.Response.Sound, Wire.Decode;
      var left: nat := gap;
      ghost var z: nat := 0;
      assert resp.emitted + Zeros(0) == resp.emitted;
      while left > 0
        invariant left + z == gap && resp.Open()
        invariant resp.emitted == old(resp.emitted) + Zeros(z)
      {
        var t := Gap.MinN(left, Gap.ZERO_BLOCK);
        ok := resp.Emit(Zeros(t));
        if !ok { return; }
        left, z := left - t, z + t;
      }
      assert z == gap;
      ok := true;
    }

    /** Drop the silent end of the window, emit the rest. */
    method Close() returns (ok: bool)
      requires Valid() && hold != null
      modifies `holdN, resp
      ensures ok ==> Valid() && View().hold == []
                     && resp.emitted == old(resp.emitted + View().hold[..|View().hold| - Gap.TailLen(View().hold)])
      ensures !ok ==> resp.Cut() && resp.emitted == old(resp.emitted)
    {
      hide Wire.Response.Sound, Wire.Decode;
      ok := true;
      ghost var h := View().hold;
      if resp.buffered {
        var tail := Gap.SilTail(hold[..holdN]);
        assert hold[..holdN - tail] == h[..|h| - Gap.TailLen(h)];
        ok := resp.Emit(hold[..holdN - tail]);
        if ok {
          holdN := 0;
        }
      } else {
        assert h == [] && h[..|h| - Gap.TailLen(h)] == [];
        assert resp.emitted + [] == resp.emitted;
      }
    }

    /** gap_boundary. */
    method Boundary() returns (ok: bool)
      requires Valid()
      modifies this, resp, hold
      ensures ok ==> Valid() && View() == Gap.Boundary(old(View()), gapLen)
      ensures !ok ==> resp.Cut() && resp.emitted <= Gap.Boundary(old(View()), gapLen).out
    {
      hide Wire.Response.Sound, Wire.Decode;
      if hold == null {
        return true;
      }
      ghost var g := View();
      assert !g.buffered ==> g.hold[..|g.hold| - Gap.TailLen(g.hold)] == [];
      ok := Close();
      if !ok { return; }
      ok := EmitGap(gapLen);
      if ok {
        lead, skipped := true, 0;
      }
    }

    /** Release the window at the end of the last chunk. */
    method Flush() returns (ok: bool)
      requires Valid()
      modifies `holdN, resp
      ensures ok ==> Valid() && View() == Gap.Flush(old(View()))
      ensures !ok ==> resp.Cut() && resp.emitted == old(resp.emitted)
    {
      hide Wire.Response.Sound, Wire.Decode;
      ok := true;
      if hold != null && holdN > 0 {
        ok := resp.Emit(hold[..holdN]);
      } else {
        assert View().out + [] == View().out;
      }
      if ok {
        holdN := 0;
      }
    }
  }
}
