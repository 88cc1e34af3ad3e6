/** The weight cache in use: loading a linear from the table that was read, with the faults a
    corrupted table can cause, and writing the entries gathered when there was no usable file. */
module CacheStore {
  import opened Basics
  import opened QCache

  // ---- loading ------------------------------------------------------------------------------

  /** A load as written: the caller quantizes live, has its linear, or the loader divides by zero or
      reads outside the file. */
  datatype Outcome = Miss | Loaded(lin: Linear) | Fault

  /** The bytes strcmp sees. */
  function CStr(b: seq<Byte>): (c: Name) {
    if b == [] || b[0] == 0 then [] else [b[0]] + CStr(b[1..])
  }

  lemma {:induction false} CStrOf(n: Name)
    ensures CStr(n) == n
  {
    if n != [] {
      assert n[0] in n;
      var t := n[1..];
      assert forall x :: x in t ==> x in n;
      CStrOf(t);
    }
  }

  /** First header with the name. */
  function Find(hs: seq<Header>, name: Name): (r: Option<nat>)
    ensures r.Some? ==> r.value < |hs| && CStr(hs[r.value].name) == name
    ensures r.Some? ==> forall j: nat :: j < r.value ==> CStr(hs[j].name) != name
    ensures r.None? ==> forall j: nat :: j < |hs| ==> CStr(hs[j].name) != name
  {
    if hs == [] then None
    else if CStr(hs[0].name) == name then Some(0)
    else
      var r := Find(hs[1..], name);
      if r.None? then None else Some(1 + r.value)
  }

  /** The storage the header's kind and shape call for; a tensor has no empty dimension. */
  predicate SizesMatch(h: Header)
    requires h.kind <= 1 || h.group > 0
  {
    && QBytes(h.kind, h.N, h.K) == h.qLen > 0
    && SBytes(if h.kind <= 1 then 1 else h.kind, h.N, h.K, h.group) == h.sLen > 0
  }

  predicate Inside(h: Header, sz: nat) {
    h.qOff + h.qLen <= sz && h.sOff + h.sLen <= sz
  }

  /** What s2p_qcache_try_load does with the header it found; the copies trust the reader's checks. */
  function LoadHeader(b: seq<Byte>, h: Header, inF: nat, outF: nat): Outcome {
    if h.N != outF || h.K != inF || h.kind < 1 || h.kind > 3 then Miss
    else if h.kind > 1 && h.group == 0 then Fault
    else if !SizesMatch(h) then Miss
    else if !Inside(h, |b|) then Fault
    else Loaded(Linear(inF, outF, b[h.qOff..h.qOff + h.qLen], b[h.sOff..h.sOff + h.sLen],
                       if h.kind >= 2 then h.group else 0, h.kind == 2))
  }

  /** s2p_qcache_try_load on the table read from file b. */
  function TryLoad(b: seq<Byte>, hs: seq<Header>, name: Name, inF: nat, outF: nat): Outcome {
    var i := Find(hs, name);
    if i.None? then Miss else LoadHeader(b, hs[i.value], inF, outF)
  }

  lemma {:induction false} PlacedHeader(es: seq<Entry>, off: nat, i: nat)
    requires i < |es|
    ensures var h, e := Place(es, off)[i], es[i];
            h.kind == Kind(e.lin) && h.N == e.lin.outF && h.K == e.lin.inF && h.group == e.lin.group
            && h.qLen == |e.lin.q| && h.sLen == |e.lin.scale|
    decreases |es|
  {
    if i > 0 {
      PlacedHeader(es[1..], HeaderOf(es[0], off).sOff + HeaderOf(es[0], off).sLen, i - 1);
    }
  }

  lemma {:induction false} PlacedName(es: seq<Entry>, off: nat, i: nat)
    requires i < |es|
    ensures Place(es, off)[i].name == es[i].name && CStr(es[i].name) == es[i].name
    decreases |es|
  {
    hide HeaderOf;
    var h := HeaderOf(es[0], off);
    PlaceIs(es, off);
    if i > 0 {
      PlacedName(es[1..], h.sOff + h.sLen, i - 1);
    } else {
      NameKept(es[0], off);
      CStrOf(es[0].name);
    }
  }

  lemma FindPlaced(es: seq<Entry>, off: nat, i: nat)
    requires i < |es| && forall j: nat :: j < i ==> es[j].name != es[i].name
    ensures Find(Place(es, off), es[i].name) == Some(i)
  {
    hide CStr;
    forall j: nat | j < |es| ensures CStr(Place(es, off)[j].name) == es[j].name {
      PlacedName(es, off, j);
    }
    var r := Find(Place(es, off), es[i].name);
    assert CStr(Place(es, off)[i].name) == es[i].name;
  }

  /** Loading by name gives back the first linear put under that name, whatever its kind. */
  lemma {:induction false} LoadedIsPut(es: seq<Entry>, fingerprint: nat, i: nat)
    requires Writable(es) && Named(es) && i < |es| <= MAX_ENTRIES && fingerprint < WRAP64 && End(es, Start(es)) < WRAP64
    requires forall j: nat :: j < i ==> es[j].name != es[i].name
    ensures var b, l := File(es, fingerprint), es[i].lin;
            && ReadFile(b, fingerprint).Some?
            && TryLoad(b, ReadFile(b, fingerprint).value, es[i].name, l.inF, l.outF) == Loaded(l)
  {
    hide ReadFile, File, Place, Named, Find;
    assert Sound(es[i].lin);
    FileReadBack(es, fingerprint);
    FindPlaced(es, Start(es), i);
    PlacedHeader(es, Start(es), i);
    FilePayload(es, fingerprint, i);
  }

  // ---- which tables can fault ------------------------------------------------------------------

  /** Layer dimensions, as the loader's callers pass them. */
  predicate IsDim(n: nat) {
    n < 0x8000_0000
  }

  /** A table entry that no load can trip over: a grouped kind has a group, and offsets whose sizes
      fit the shape do not wrap around. */
  predicate Harmless(h: Header) {
    1 <= h.kind <= 3 && IsDim(h.N) && IsDim(h.K) ==>
      && (h.kind > 1 ==> h.group > 0)
      && (SizesMatch(h) ==> h.qOff + h.qLen < WRAP64 && h.sOff + h.sLen < WRAP64)
  }

  /** The entry that its name finds. */
  predicate Foremost(hs: seq<Header>, i: nat) {
    i < |hs| && forall j: nat :: j < i ==> CStr(hs[j].name) != CStr(hs[i].name)
  }

  /** What the reader has checked of every entry. */
  lemma {:induction false} TableAccepted(b: seq<Byte>, n: nat, sz: nat, i: nat)
    requires ReadHeaders(b, n, sz).Some? && i < |ReadHeaders(b, n, sz).value|
    ensures Accepted(ReadHeaders(b, n, sz).value[i], sz)
    decreases n
  {
    hide Read, Widths;
    if i > 0 {
      TableAccepted(ReadHeader(b, sz).value.1, n - 1, sz, i - 1);
    }
  }

  lemma SumInside(off: nat, len: nat, sz: nat)
    requires off < WRAP64 && len < WRAP64 && (off + len) % WRAP64 <= sz < WRAP64 && 0 < len
    ensures off + len <= sz <==> off + len < WRAP64
  {
  }

  lemma {:induction false} TableFields(b: seq<Byte>, n: nat, sz: nat, i: nat)
    requires ReadHeaders(b, n, sz).Some? && i < |ReadHeaders(b, n, sz).value|
    ensures var h := ReadHeaders(b, n, sz).value[i];
            h.qOff < WRAP64 && h.qLen < WRAP64 && h.sOff < WRAP64 && h.sLen < WRAP64
    decreases n
  {
    hide Read, Widths;
    if i > 0 {
      TableFields(ReadHeader(b, sz).value.1, n - 1, sz, i - 1);
    } else {
      HeaderFields(b);
    }
  }

  lemma HeaderFields(b: seq<Byte>)
    requires |b| >= FIXED
    ensures Sum(Widths()) == FIXED
    ensures var v := Read(b, Widths()); v[6] < WRAP64 && v[7] < WRAP64 && v[8] < WRAP64 && v[9] < WRAP64
  {
    WidthSum();
    ReadBelow(b, Widths(), 6);
    ReadBelow(b, Widths(), 7);
    ReadBelow(b, Widths(), 8);
    ReadBelow(b, Widths(), 9);
    assert Pow256(8) == WRAP64;
  }

  lemma {:induction false} ReadBelow(b: seq<Byte>, ws: seq<nat>, i: nat)
    requires |b| >= Sum(ws) && i < |ws|
    ensures Read(b, ws)[i] < Pow256(ws[i])
    decreases |ws|
  {
    if i == 0 {
      LeBelow(b[..ws[0]]);
    } else {
      ReadBelow(b[ws[0]..], ws[1..], i - 1);
    }
  }

  lemma {:induction false} LeBelow(b: seq<Byte>)
    ensures Le(b) < Pow256(|b|)
  {
    if b != [] {
      LeBelow(b[1..]);
    }
  }

  lemma HeaderFaults(b: seq<Byte>, h: Header, inF: nat, outF: nat)
    requires h.qOff < WRAP64 && h.qLen < WRAP64 && h.sOff < WRAP64 && h.sLen < WRAP64
    requires Accepted(h, |b|) && |b| < WRAP64
    ensures LoadHeader(b, h, inF, outF) == Fault && IsDim(inF) && IsDim(outF) ==> !Harmless(h)
    ensures !Harmless(h) ==> IsDim(h.K) && IsDim(h.N)
    ensures !Harmless(h) && outF == h.N && inF == h.K ==> LoadHeader(b, h, inF, outF) == Fault
  {
    if 1 <= h.kind <= 3 && (h.kind > 1 ==> h.group > 0) && SizesMatch(h) {
      SumInside(h.qOff, h.qLen, |b|);
      SumInside(h.sOff, h.sLen, |b|);
    }
  }

  /** A usable file never makes a load fault if and only if every entry that its name finds is
      harmless. */
  lemma NoFaultExactly(b: seq<Byte>, fingerprint: nat)
    requires |b| < WRAP64 && ReadFile(b, fingerprint).Some?
    ensures var hs := ReadFile(b, fingerprint).value;
            (forall name: Name, inF: nat, outF: nat :: IsDim(inF) && IsDim(outF) ==>
              TryLoad(b, hs, name, inF, outF) != Fault)
              <==> (forall i: nat :: Foremost(hs, i) ==> Harmless(hs[i]))
  {
    hide ReadHeaders, Le, LoadHeader, Harmless;
    var n, hs := Le(b[16..20]), ReadFile(b, fingerprint).value;
    forall i: nat | i < |hs|
      ensures Accepted(hs[i], |b|) && hs[i].qOff < WRAP64 && hs[i].qLen < WRAP64 && hs[i].sOff < WRAP64
      ensures hs[i].sLen < WRAP64
    {
      TableAccepted(b[PREFIX..], n, |b|, i);
      TableFields(b[PREFIX..], n, |b|, i);
    }
    if forall i: nat :: Foremost(hs, i) ==> Harmless(hs[i]) {
      forall name: Name, inF: nat, outF: nat | IsDim(inF) && IsDim(outF)
        ensures TryLoad(b, hs, name, inF, outF) != Fault {
        var i := Find(hs, name);
        if i.Some? {
          assert Foremost(hs, i.value);
          HeaderFaults(b, hs[i.value], inF, outF);
        }
      }
    } else {
      var i: nat :| Foremost(hs, i) && !Harmless(hs[i]);
      var h := hs[i];
      assert Find(hs, CStr(h.name)) == Some(i);
      HeaderFaults(b, h, h.K, h.N);
      assert TryLoad(b, hs, CStr(h.name), h.K, h.N) == Fault;
    }
  }

  /** Grouped kinds with a group and no wrapping offsets: enough, and easy to see in a file. */
  lemma PlainTableIsSafe(b: seq<Byte>, fingerprint: nat, name: Name, inF: nat, outF: nat)
    requires |b| < WRAP64 && ReadFile(b, fingerprint).Some? && IsDim(inF) && IsDim(outF)
    requires forall i: nat :: i < |ReadFile(b, fingerprint).value| ==>
      var h := ReadFile(b, fingerprint).value[i];
      (2 <= h.kind <= 3 ==> h.group > 0) && h.qOff + h.qLen < WRAP64 && h.sOff + h.sLen < WRAP64
    ensures TryLoad(b, ReadFile(b, fingerprint).value, name, inF, outF) != Fault
  {
    hide ReadFile, TryLoad;
    NoFaultExactly(b, fingerprint);
  }

  /** A file of one header and some bytes behind it. */
  function OneEntry(h: Header, fingerprint: nat, behind: seq<Byte>): (b: seq<Byte>)
    ensures |b| == PREFIX + FIXED + |h.name| + |behind|
  {
    WidthSum();
    Prefix(fingerprint, 1) + (HeaderBytes(h) + behind)
  }

  lemma OneEntryRead(h: Header, fingerprint: nat, behind: seq<Byte>)
    requires Encodable(h) && fingerprint < WRAP64 && Accepted(h, |OneEntry(h, fingerprint, behind)|)
    ensures ReadFile(OneEntry(h, fingerprint, behind), fingerprint) == Some([h])
  {
    hide Prefix, Le, ReadHeader, HeaderBytes, Accepted, Encodable;
    var b := OneEntry(h, fingerprint, behind);
    PrefixReadBack(fingerprint, 1, HeaderBytes(h) + behind);
    HeaderReadBack(h, behind, |b|);
    ReadHeadersStep(HeaderBytes(h) + behind, 1, |b|, true, h, behind);
    assert ReadHeaders(behind, 0, |b|) == Some([]) && [h] + [] == [h];
  }

  /** The cache reads file b as the table hs, and loading that name from it faults. */
  ghost predicate AcceptedFaults(b: seq<Byte>, hs: seq<Header>, fingerprint: nat, name: Name, inF: nat, outF: nat)
    requires fingerprint < WRAP64
  {
    ReadFile(b, fingerprint) == Some(hs) && TryLoad(b, hs, name, inF, outF) == Fault
  }

  /** A grouped kind without a group: the reader accepts the file, loading divides by zero. */
  lemma ZeroGroupFaults(fingerprint: nat)
    requires fingerprint < WRAP64
    ensures exists b: seq<Byte>, hs :: AcceptedFaults(b, hs, fingerprint, [97], 2, 1)
  {
    hide ReadFile, OneEntry;
    var h := Header([97], 2, 1, 2, 0, 0, 1, 0, 2);
    OneEntryRead(h, fingerprint, []);
    var b := OneEntry(h, fingerprint, []);
    CStrOf([97]);
    assert AcceptedFaults(b, [h], fingerprint, [97], 2, 1);
  }

  /** An offset that wraps around past 64 bits: the reader's sum is small, the copy starts outside. */
  lemma WrappedOffsetFaults(fingerprint: nat)
    requires fingerprint < WRAP64
    ensures exists b: seq<Byte>, hs :: AcceptedFaults(b, hs, fingerprint, [97], 512, 1)
  {
    hide ReadFile, OneEntry;
    var h := Header([97], 1, 1, 512, 0, WRAP64 - 256, 512, 0, 4);
    var behind := Zeros(256);
    OneEntryRead(h, fingerprint, behind);
    var b := OneEntry(h, fingerprint, behind);
    CStrOf([97]);
    assert AcceptedFaults(b, [h], fingerprint, [97], 512, 1);
  }

  // ---- the cache object ------------------------------------------------------------------------------------

  lemma HeadersStep(es: seq<Entry>, i: nat)
    requires i < |es|
    ensures HeadersLength(es[i..]) == FIXED + |es[i].name| + HeadersLength(es[i + 1..])
  {
    assert es[i..][1..] == es[i + 1..];
  }

  lemma PlaceStep(hs: seq<Header>, es: seq<Entry>, i: nat, off: nat)
    requires i < |es|
    ensures var h := HeaderOf(es[i], off);
            hs + Place(es[i..], off) == hs + [h] + Place(es[i + 1..], h.sOff + h.sLen)
  {
    hide HeaderOf;
    var h := HeaderOf(es[i], off);
    var more := Place(es[i + 1..], h.sOff + h.sLen);
    assert es[i..][1..] == es[i + 1..];
    assert hs + ([h] + more) == hs + [h] + more;
  }

  lemma NothingPlaced(es: seq<Entry>, off: nat)
    ensures HeadersLength(es[|es|..]) == 0 && Place(es[|es|..], off) == []
  {
  }

  class Cache {
    const fingerprint: nat
    /** The file as opened, and its table when it is usable: the cache then reads, otherwise it writes. */
    const buf: seq<Byte>
    const table: Option<seq<Header>>
    var entries: seq<Entry>

    ghost predicate Valid()
      reads this
    {
      && |entries| <= MAX_ENTRIES && Writable(entries) && fingerprint < WRAP64
      && table == ReadFile(buf, fingerprint) && (table.Some? ==> entries == [])
    }

    /** s2p_qcache_open: a missing file reads as an empty one. */
    constructor (fingerprint: nat, buf: seq<Byte>)
      requires fingerprint < WRAP64
      ensures Valid() && entries == [] && this.fingerprint == fingerprint && this.buf == buf
    {
      var t := ReadTable(buf, fingerprint);
      this.fingerprint, this.buf, table, entries := fingerprint, buf, t, [];
    }

    /** s2p_qcache_try_load: the scan for the name, then the checks and copies. */
    method Load(name: Name, inF: nat, outF: nat) returns (o: Outcome)
      requires Valid()
      ensures table.None? ==> o == Miss
      ensures table.Some? ==> o == TryLoad(buf, table.value, name, inF, outF)
    {
      hide CStr, LoadHeader, Find, ReadFile, Writable;
      if table.None? {
        return Miss;
      }
      var hs := table.value;
      for i := 0 to |hs|
        invariant forall j: nat :: j < i ==> CStr(hs[j].name) != name
      {
        if CStr(hs[i].name) == name {
          o := LoadHeader(buf, hs[i], inF, outF);
          assert Find(hs, name) == Some(i);
          return;
        }
      }
      o := Miss;
    }

    /** s2p_qcache_put_linear: while reading, for an unquantized or empty linear, and past 512
        entries, nothing is recorded. */
    method PutLinear(name: Name, lin: Linear, ready: bool)
      requires Valid() && (ready && lin.q != [] && lin.scale != [] ==> Sound(lin)) && |name| < 0x8000_0000
      modifies this
      ensures Valid()
      ensures entries == if table.None? && ready && lin.q != [] && lin.scale != [] && old(|entries|) < MAX_ENTRIES
                         then old(entries) + [Entry(name, lin)] else old(entries)
    {
      if table.Some? || !ready || |entries| >= MAX_ENTRIES || |lin.q| == 0 || |lin.scale| == 0 {
        return;
      }
      entries := entries + [Entry(name, lin)];
    }

    /** Zero bytes up to a position, at most 256 at a time. */
    method Pad(out: seq<Byte>, to: nat) returns (r: seq<Byte>)
      requires |out| <= to
      ensures r == out + Zeros(to - |out|)
    {
      var pos := |out|;
      assert out + Zeros(0) == out;
      r := out;
      while pos < to
        invariant |out| <= pos <= to && r == out + Zeros(pos - |out|)
      {
        var pad := if to - pos > ALIGN then ALIGN else to - pos;
        assert out + Zeros(pos - |out|) + Zeros(pad) == out + Zeros(pos - |out| + pad);
        r := r + Zeros(pad);
        pos := pos + pad;
      }
    }

    /** Where the payloads start, behind all headers. */
    method FirstOffset() returns (off: nat)
      ensures off == Start(entries)
    {
      hide HeadersLength;
      off := PREFIX;
      for i := 0 to |entries|
        invariant off + HeadersLength(entries[i..]) == Start(entries)
      {
        HeadersStep(entries, i);
        off := off + FIXED + |entries[i].name|;
      }
      NothingPlaced(entries, off);
    }

    /** The offset loop. */
    method Assign() returns (hs: seq<Header>)
      ensures hs == Place(entries, Start(entries))
    {
      hide HeaderOf, Place, HeadersLength;
      var off: nat := FirstOffset();
      hs := [];
      for i := 0 to |entries|
        invariant |hs| == i && hs + Place(entries[i..], off) == Place(entries, Start(entries))
      {
        var h := HeaderOf(entries[i], off);
        PlaceStep(hs, entries, i, off);
        hs := hs + [h];
        off := h.sOff + h.sLen;
      }
      NothingPlaced(entries, off);
    }

    /** s2p_qcache_finish: the file on disk changes only when a complete new one has been written and
        renamed over it. */
    method Finish(disk: Option<seq<Byte>>, created: bool, written: bool, renamed: bool)
      returns (disk': Option<seq<Byte>>)
      requires Valid()
      ensures disk' == if entries != [] && created && written && renamed then Some(File(entries, fingerprint)) else disk
    {
      if table.Some? || |entries| == 0 || !created {
        return disk;
      }
      var tmp := NewFile();
      disk' := if !written || !renamed then disk else Some(tmp);
    }

    /** The bytes of the new file. */
    method NewFile() returns (out: seq<Byte>)
      requires Valid() && entries != []
      ensures out == File(entries, fingerprint)
    {
      hide Headers, Payload, Place, Prefix, HeadersLength;
      var hs := Assign();
      out := WriteHeaders(hs);
      HeadersSize(entries, Start(entries));
      out := WritePayloads(out, hs);
    }

    method WriteHeaders(hs: seq<Header>) returns (out: seq<Byte>)
      ensures out == Prefix(fingerprint, |entries|) + Headers(hs)
    {
      hide HeaderBytes, Prefix;
      out := Prefix(fingerprint, |entries|);
      ghost var prefix := out;
      for i := 0 to |hs|
        invariant out + Headers(hs[i..]) == prefix + Headers(hs)
      {
        assert hs[i..][1..] == hs[i + 1..];
        assert out + (HeaderBytes(hs[i]) + Headers(hs[i + 1..])) == out + HeaderBytes(hs[i]) + Headers(hs[i + 1..]);
        out := out + HeaderBytes(hs[i]);
      }
      assert out + [] == out;
    }

    method WritePayloads(front: seq<Byte>, hs: seq<Header>) returns (out: seq<Byte>)
      requires hs == Place(entries, |front|)
      ensures out == front + Payload(entries, |front|)
    {
      hide HeaderOf, Payload;
      out := front;
      for i := 0 to |entries|
        invariant hs[i..] == Place(entries[i..], |out|)
        invariant out + Payload(entries[i..], |out|) == front + Payload(entries, |front|)
      {
        assert entries[i..][1..] == entries[i + 1..] && hs[i..][1..] == hs[i + 1..];
        assert hs[i..][0] == hs[i] && entries[i..][0] == entries[i];
        out := WriteOne(out, entries[i], hs[i], entries[i..]);
      }
      assert entries[|entries|..] == [];
      assert out + [] == out;
    }

    /** One entry's padded payloads. */
    method WriteOne(out: seq<Byte>, e: Entry, h: Header, ghost es: seq<Entry>) returns (r: seq<Byte>)
      requires es != [] && es[0] == e && h == HeaderOf(e, |out|)
      ensures |r| == h.sOff + h.sLen && r + Payload(es[1..], |r|) == out + Payload(es, |out|)
    {
      hide Payload, AlignUp;
      PayloadIs(es, |out|);
      var p := Pad(out, h.qOff);
      var q := p + e.lin.q;
      var s := Pad(q, h.sOff);
      r := s + e.lin.scale;
      assert r == out + Front(e, |out|);
      hide Front, HeaderOf;
    }
  }
}
