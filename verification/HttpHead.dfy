/** The head of a response with a Content-Length, and the receiver that reads it: header lines up to the
    empty one, then exactly as many bytes as were announced. */
module HttpHead {
  import opened Basics

  const CRLF: seq<Byte> := [13, 10]

  function Bytes(s: string): (b: seq<Byte>)
    ensures |b| == |s|
  {
    seq(|s|, i requires 0 <= i < |s| => s[i] as int % 256)
  }

  const LENGTH: string := "Content-Length: "

  // ---- decimal numbers ("%zu") -----------------------------------------------------------------

  function Dec(n: nat): (d: seq<Byte>)
    ensures d != []
    decreases n
  {
    if n < 10 then [48 + n] else Dec(n / 10) + [48 + n % 10]
  }

  /** The number a line of decimal digits denotes, most significant first. */
  function DecValue(d: seq<Byte>): Option<nat>
    decreases |d|
  {
    if d == [] then None
    else
      var c := d[|d| - 1];
      if !('0' as int <= c <= '9' as int) then None
      else if |d| == 1 then Some(c - '0' as int)
      else
        var m := DecValue(d[..|d| - 1]);
        if m.None? then None else Some(10 * m.value + (c - '0' as int))
  }

  lemma {:induction false} DecRoundTrip(n: nat)
    ensures DecValue(Dec(n)) == Some(n)
    ensures n > 0 ==> Dec(n)[0] != '0' as int
    decreases n
  {
    if n >= 10 {
      DecRoundTrip(n / 10);
      assert Dec(n)[..|Dec(n)| - 1] == Dec(n / 10);
    }
  }

  lemma {:induction false} DecNoCr(n: nat)
    ensures NoCr(Dec(n))
    decreases n
  {
    if n >= 10 {
      DecNoCr(n / 10);
    }
  }

  // ---- lines -----------------------------------------------------------------------------------

  predicate NoCr(b: seq<Byte>) {
    forall k: nat :: k < |b| ==> b[k] != 13
  }

  /** Position of the first CR at or after i. */
  function FindCr(b: seq<Byte>, i: nat): (r: nat)
    requires i <= |b|
    ensures i <= r <= |b| && (forall k: nat :: i <= k < r ==> b[k] != 13) && (r < |b| ==> b[r] == 13)
    decreases |b| - i
  {
    if i == |b| || b[i] == 13 then i else FindCr(b, i + 1)
  }

  lemma LineEnds(line: seq<Byte>, rest: seq<Byte>)
    requires NoCr(line)
    ensures var b := line + CRLF + rest;
            && FindCr(b, 0) == |line| && b[|line| + 1] == 10
            && b[..|line|] == line && b[|line| + 2..] == rest
  {
    var b := line + CRLF + rest;
    var k := FindCr(b, 0);
    assert forall j: nat :: j < |line| ==> b[j] == line[j];
    assert b[|line|] == 13;
  }

  // ---- the receiver -----------------------------------------------------------------------------

  /** Section 6.3 of RFC 9112: the body is as long as the Content-Length field says; what follows it is
      left over. */
  function Receive(b: seq<Byte>, length: Option<nat>): Option<(seq<Byte>, seq<Byte>)>
    decreases |b|
  {
    var k := FindCr(b, 0);
    if k + 2 > |b| || b[k + 1] != 10 then None
    else
      var line, rest := b[..k], b[k + 2..];
      if line == [] then
        if length.None? || |rest| < length.value then None
        else Some((rest[..length.value], rest[length.value..]))
      else if Bytes(LENGTH) <= line then
        var n := DecValue(line[|LENGTH|..]);
        if n.None? then None else Receive(rest, n)
      else Receive(rest, length)
  }

  lemma ReceiveStep(line: seq<Byte>, rest: seq<Byte>, length: Option<nat>)
    requires NoCr(line)
    ensures Receive(line + CRLF + rest, length) ==
      if line == [] then
        if length.None? || |rest| < length.value then None
        else Some((rest[..length.value], rest[length.value..]))
      else if Bytes(LENGTH) <= line then
        var n := DecValue(line[|LENGTH|..]);
        if n.None? then None else Receive(rest, n)
      else Receive(rest, length)
  {
    hide DecValue, Bytes, FindCr, NoCr;
    LineEnds(line, rest);
  }

  lemma ReceiveLine(line: seq<Byte>, rest: seq<Byte>, length: Option<nat>)
    requires NoCr(line) && line != [] && !(Bytes(LENGTH) <= line)
    ensures Receive(line + CRLF + rest, length) == Receive(rest, length)
  {
    hide Receive, DecValue, Bytes, NoCr;
    ReceiveStep(line, rest, length);
  }

  lemma ReceiveLength(n: nat, rest: seq<Byte>, length: Option<nat>)
    ensures Receive(Bytes(LENGTH) + Dec(n) + CRLF + rest, length) == Receive(rest, Some(n))
  {
    hide Receive, Bytes, Dec, DecValue, Plain;
    var line := Bytes(LENGTH) + Dec(n);
    DecNoCr(n);
    DecRoundTrip(n);
    PlainLength();
    PlainLine(LENGTH);
    assert NoCr(line);
    ReceiveStep(line, rest, length);
    assert line[|LENGTH|..] == Dec(n);
  }

  lemma ReceiveBody(body: seq<Byte>)
    ensures Receive(CRLF + body, Some(|body|)) == Some((body, []))
  {
    hide Receive, Bytes, DecValue;
    ReceiveStep([], body, Some(|body|));
    assert [] + CRLF + body == CRLF + body;
    assert body[..|body|] == body && body[|body|..] == [];
  }

  /** A line that ends in the beginning ends there in the whole. */
  lemma SameLine(p: seq<Byte>, q: seq<Byte>)
    requires p < q && FindCr(p, 0) + 2 <= |p|
    ensures FindCr(q, 0) == FindCr(p, 0)
  {
    hide FindCr;
    var k := FindCr(p, 0);
    assert forall i: nat :: i <= k ==> q[i] == p[i];
  }

  lemma SameParts(p: seq<Byte>, q: seq<Byte>, k: nat)
    requires p < q && k + 2 <= |p|
    ensures k + 2 <= |q| && p[..k] == q[..k] && p[k + 1] == q[k + 1] && p[k + 2..] < q[k + 2..]
  {
    assert q[..|p|] == p;
    assert q[k + 2..][..|p| - (k + 2)] == p[k + 2..];
  }

  /** Nothing short of a whole message looks complete. */
  lemma {:induction false} Short(p: seq<Byte>, q: seq<Byte>, length: Option<nat>)
    requires p < q && Receive(q, length).Some? && Receive(q, length).value.1 == []
    ensures Receive(p, length).None?
    decreases |p|, 1
  {
    hide Bytes, DecValue, FindCr;
    var k := FindCr(p, 0);
    if k + 2 <= |p| && p[k + 1] == 10 {
      SameLine(p, q);
      SameParts(p, q, k);
      if k > 0 {
        ShortAfter(p, q, length, k);
      }
    }
  }

  lemma AfterLine(b: seq<Byte>, length: Option<nat>, k: nat)
    requires 0 < k == FindCr(b, 0) && k + 2 <= |b| && b[k + 1] == 10
    ensures Receive(b, length) ==
      if Bytes(LENGTH) <= b[..k] then
        var n := DecValue(b[..k][|LENGTH|..]);
        if n.None? then None else Receive(b[k + 2..], n)
      else Receive(b[k + 2..], length)
  {
    hide Bytes, DecValue, FindCr, Receive;
    assert b == b[..k] + CRLF + b[k + 2..];
    ReceiveStep(b[..k], b[k + 2..], length);
  }

  lemma {:induction false} ShortAfter(p: seq<Byte>, q: seq<Byte>, length: Option<nat>, k: nat)
    requires 0 < k == FindCr(p, 0) == FindCr(q, 0) && k + 2 <= |p| && k + 2 <= |q| && p[..k] == q[..k]
    requires p[k + 1] == q[k + 1] == 10 && p[k + 2..] < q[k + 2..]
    requires Receive(q, length).Some? && Receive(q, length).value.1 == []
    ensures Receive(p, length).None?
    decreases |p|, 0
  {
    hide Bytes, DecValue, FindCr, Receive;
    AfterLine(p, length, k);
    AfterLine(q, length, k);
    if Bytes(LENGTH) <= q[..k] {
      var n := DecValue(q[..k][|LENGTH|..]);
      if n.Some? {
        Short(p[k + 2..], q[k + 2..], n);
      }
    } else {
      Short(p[k + 2..], q[k + 2..], length);
    }
  }

  // ---- text lines -------------------------------------------------------------------------------

  predicate Plain(s: string) {
    forall k: nat :: k < |s| ==> s[k] != '\r' && s[k] as int < 256
  }

  lemma PlainJoin(s: string, t: string)
    requires Plain(s) && Plain(t)
    ensures Plain(s + t)
  {
  }

  lemma PlainLength()
    ensures Plain(LENGTH)
  {
  }

  lemma PlainLine(s: string)
    requires Plain(s)
    ensures NoCr(Bytes(s))
  {
  }

  function Line(s: string): seq<Byte> {
    Bytes(s) + CRLF
  }

  lemma Differ(s: string, i: nat)
    requires Plain(s) && i < |s| && i < |LENGTH| && s[i] != LENGTH[i]
    ensures Bytes(s) != [] && !(Bytes(LENGTH) <= Bytes(s))
  {
    PlainLength();
    assert Bytes(s)[i] != Bytes(LENGTH)[i];
  }

  /** A header line other than the length is passed over; i is a place where the two differ. */
  lemma OtherLine(s: string, rest: seq<Byte>, length: Option<nat>, i: nat)
    requires Plain(s) && i < |s| && i < |LENGTH| && s[i] != LENGTH[i]
    ensures Receive(Line(s) + rest, length) == Receive(rest, length)
  {
    hide Receive, Plain;
    PlainLine(s);
    Differ(s, i);
    ReceiveLine(Bytes(s), rest, length);
  }

  /** A response of status line, type, length, further lines, and the body. */
  function Message(status: string, kind: string, n: nat, more: seq<Byte>): (m: seq<Byte>)
    ensures m != []
  {
    Line("HTTP/1.1 " + status) + Line("Content-Type: " + kind) + (Bytes(LENGTH) + Dec(n) + CRLF) + more
  }

  lemma MessageRead(status: string, kind: string, n: nat, more: seq<Byte>)
    requires Plain("HTTP/1.1 " + status) && Plain("Content-Type: " + kind)
    ensures Receive(Message(status, kind, n, more), None) == Receive(more, Some(n))
  {
    hide Receive, Dec;
    var b2 := (Bytes(LENGTH) + Dec(n) + CRLF) + more;
    var b1 := Line("Content-Type: " + kind) + b2;
    assert Message(status, kind, n, more) == Line("HTTP/1.1 " + status) + b1;
    OtherLine("HTTP/1.1 " + status, b1, None, 0);
    OtherLine("Content-Type: " + kind, b2, None, 8);
    ReceiveLength(n, more, None);
  }

  const CLOSING: string := "Connection: close"
  const NO_STORE: string := "Cache-Control: no-store"

  lemma PlainTail()
    ensures Plain(CLOSING) && CLOSING[3] != LENGTH[3]
    ensures Plain(NO_STORE) && NO_STORE[1] != LENGTH[1]
  {
  }

  /** What stands between the length and the body. */
  lemma TailRead(body: seq<Byte>)
    ensures Receive(Line(CLOSING) + (CRLF + body), Some(|body|)) == Some((body, []))
    ensures Receive(Line(NO_STORE) + (Line(CLOSING) + (CRLF + body)), Some(|body|)) == Some((body, []))
  {
    hide Receive, Line, Plain;
    PlainTail();
    OtherLine(CLOSING, CRLF + body, Some(|body|), 3);
    OtherLine(NO_STORE, Line(CLOSING) + (CRLF + body), Some(|body|), 1);
    ReceiveBody(body);
  }
}
