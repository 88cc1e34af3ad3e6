/** The bytes of an audio response: chunked transfer coding for streamed audio, an exact
    Content-Length for buffered audio, and the socket that may go away at any byte. */
module Wire {
  import opened Basics
  import opened HttpHead

  const TERMINAL: seq<Byte> := [48, 13, 10, 13, 10]
  const WAV_MAX: nat := 0xFFFFFFFF
  const SAMPLE_RATE: nat := 44100

  // ---- hexadecimal sizes ("%zx") ----------------------------------------------------

  function HexDigit(d: nat): Byte
    requires d < 16
  {
    if d < 10 then 48 + d else 87 + d
  }

  /** Lower-case letters. */
  lemma HexLetters(d: nat)
    requires d < 16
    ensures HexDigit(d) == "0123456789abcdef"[d] as int
  {
  }

  function Hex(n: nat): (h: seq<Byte>)
    ensures |h| > 0
    decreases n
  {
    if n < 16 then [HexDigit(n)] else Hex(n / 16) + [HexDigit(n % 16)]
  }

  /** HEXDIG of RFC 5234, either case. */
  function DigitValue(b: Byte): Option<nat> {
    if 48 <= b <= 57 then Some(b - 48)
    else if 97 <= b <= 102 then Some(b - 87)
    else if 65 <= b <= 70 then Some(b - 55)
    else None
  }

  function HexValue(h: seq<Byte>): Option<nat> {
    if h == [] then None
    else
      var d := DigitValue(h[|h| - 1]);
      if d.None? then None
      else if |h| == 1 then d
      else
        var m := HexValue(h[..|h| - 1]);
        if m.None? then None else Some(16 * m.value + d.value)
  }

  lemma {:induction false} HexRoundTrip(n: nat)
    ensures HexValue(Hex(n)) == Some(n)
    decreases n
  {
    if n >= 16 {
      HexRoundTrip(n / 16);
      assert Hex(n)[..|Hex(n)| - 1] == Hex(n / 16);
    }
  }

  // ---- chunked coding ------------------------------------------------------------------

  function Chunk(d: seq<Byte>): seq<Byte> {
    Hex(|d|) + CRLF + d + CRLF
  }

  function Body(chunks: seq<seq<Byte>>): seq<Byte> {
    if chunks == [] then [] else Body(chunks[..|chunks| - 1]) + Chunk(chunks[|chunks| - 1])
  }

  function Flatten(chunks: seq<seq<Byte>>): seq<Byte> {
    if chunks == [] then [] else Flatten(chunks[..|chunks| - 1]) + chunks[|chunks| - 1]
  }

  /** A chunk-size line without extensions: its value and its length with the CRLF. */
  function SizeLine(b: seq<Byte>): (r: Option<(nat, nat)>)
    ensures r.Some? ==> 2 < r.value.1 <= |b|
  {
    var k := FindCr(b, 0);
    if k + 2 > |b| || b[k + 1] != 10 then None
    else
      var v := HexValue(b[..k]);
      if v.None? then None else Some((v.value, k + 2))
  }

  /** The receiver of section 7.1 of RFC 9112: the whole input must be one chunked body with no
      trailer fields, ended by the zero-size chunk. */
  function Decode(b: seq<Byte>): Option<seq<Byte>>
    decreases |b|
  {
    var line := SizeLine(b);
    if line.None? then None
    else
      var (n, k) := line.value;
      var rest := b[k..];
      if n == 0 then if rest == CRLF then Some([]) else None
      else if |rest| < n + 2 || rest[n..n + 2] != CRLF then None
      else
        var tail := Decode(rest[n + 2..]);
        if tail.None? then None else Some(rest[..n] + tail.value)
  }

  lemma {:induction false} HexNoCr(n: nat)
    ensures forall k: nat :: k < |Hex(n)| ==> Hex(n)[k] != 13
    decreases n
  {
    if n >= 16 {
      HexNoCr(n / 16);
    }
  }

  lemma SizeLineOf(n: nat, rest: seq<Byte>)
    ensures SizeLine(Hex(n) + CRLF + rest) == Some((n, |Hex(n)| + 2))
  {
    HexNoCr(n);
    HexRoundTrip(n);
    var b, h := Hex(n) + CRLF + rest, Hex(n);
    var k := FindCr(b, 0);
    assert forall j: nat :: j < |h| ==> b[j] == h[j];
    assert b[|h|] == 13 && b[|h| + 1] == 10;
    assert k == |h|;
    assert b[..k] == h;
  }

  /** `a`, if what follows it decodes. */
  function Before(a: seq<Byte>, o: Option<seq<Byte>>): Option<seq<Byte>> {
    if o.None? then None else Some(a + o.value)
  }

  lemma BeforeBefore(a: seq<Byte>, b: seq<Byte>, o: Option<seq<Byte>>)
    ensures Before(a, Before(b, o)) == Before(a + b, o)
  {
    if o.Some? {
      assert a + (b + o.value) == a + b + o.value;
    }
  }

  /** Reading one chunk back. */
  lemma DecodeChunk(d: seq<Byte>, rest: seq<Byte>)
    requires d != []
    ensures Decode(Chunk(d) + rest) == Before(d, Decode(rest))
  {
    var h, b := Hex(|d|), Chunk(d) + rest;
    assert b == h + CRLF + (d + CRLF + rest);
    SizeLineOf(|d|, d + CRLF + rest);
    assert b[|h| + 2..] == d + CRLF + rest;
    assert (d + CRLF + rest)[|d|..|d| + 2] == CRLF;
    assert (d + CRLF + rest)[|d| + 2..] == rest;
    assert (d + CRLF + rest)[..|d|] == d;
  }

  lemma DecodeTerminal()
    ensures Decode(TERMINAL) == Some([])
  {
    assert Hex(0) == [48];
    assert TERMINAL == Hex(0) + CRLF + CRLF;
    SizeLineOf(0, CRLF);
    assert TERMINAL[3..] == CRLF;
  }

  lemma {:induction false} DecodeFrom(chunks: seq<seq<Byte>>, rest: seq<Byte>)
    requires forall i: nat :: i < |chunks| ==> chunks[i] != []
    ensures Decode(Body(chunks) + rest) == Before(Flatten(chunks), Decode(rest))
    decreases |chunks|
  {
    if chunks == [] {
      assert Body(chunks) + rest == rest;
      BeforeNothing(Decode(rest));
    } else {
      var n: nat := |chunks| - 1;
      var d := chunks[n];
      assert Body(chunks) + rest == Body(chunks[..n]) + (Chunk(d) + rest);
      DecodeChunk(d, rest);
      DecodeFrom(chunks[..n], Chunk(d) + rest);
      BeforeBefore(Flatten(chunks[..n]), d, Decode(rest));
    }
  }

  lemma BeforeNothing(o: Option<seq<Byte>>)
    ensures Before([], o) == o
  {
    if o.Some? {
      assert [] + o.value == o.value;
    }
  }

  /** A closed body of non-empty chunks decodes to exactly what was sent. */
  lemma DecodeBody(chunks: seq<seq<Byte>>)
    requires forall i: nat :: i < |chunks| ==> chunks[i] != []
    ensures Decode(Body(chunks) + TERMINAL) == Some(Flatten(chunks))
  {
    DecodeTerminal();
    DecodeFrom(chunks, TERMINAL);
    assert Flatten(chunks) + [] == Flatten(chunks);
  }

  lemma SizeLineLocal(p: seq<Byte>, q: seq<Byte>)
    requires p <= q && SizeLine(p).Some?
    ensures SizeLine(q) == SizeLine(p)
  {
    var k := FindCr(p, 0);
    assert forall j: nat :: j < |p| ==> q[j] == p[j];
    assert FindCr(q, 0) == k;
    assert q[..k] == p[..k];
  }

  /** A complete body is never the beginning of another one. */
  lemma {:induction false} PrefixFree(p: seq<Byte>, q: seq<Byte>)
    requires p < q && Decode(p).Some?
    ensures Decode(q).None?
    decreases |p|
  {
    hide SizeLine;
    SizeLineLocal(p, q);
    var (n, k) := SizeLine(p).value;
    assert p[k..] < q[k..];
    if n > 0 {
      assert p[k..][n..n + 2] == q[k..][n..n + 2];
      assert p[k..][n + 2..] < q[k..][n + 2..];
      PrefixFree(p[k..][n + 2..], q[k..][n + 2..]);
    }
  }

  // ---- PCM and the WAV header -------------------------------------------------------------

  function U16(x: int): (b: seq<Byte>)
    ensures |b| == 2
  {
    [x % 256, x / 256 % 256]
  }

  function U32(x: nat): (b: seq<Byte>)
    ensures |b| == 4
  {
    U16(x) + U16(x / 65536)
  }

  /** S16LE: negative samples in two's complement. */
  function Pcm(s: seq<int>): (b: seq<Byte>)
    ensures |b| == 2 * |s|
  {
    if s == [] then [] else Pcm(s[..|s| - 1]) + U16(s[|s| - 1])
  }

  function SampleAt(b: seq<Byte>, i: nat): int
    requires 2 * i + 1 < |b|
  {
    var lo: int := b[2 * i];
    var hi: int := b[2 * i + 1];
    var u := lo + 256 * hi;
    if u < 32768 then u else u - 65536
  }

  lemma {:induction false} PcmRoundTrip(s: seq<int>, i: nat)
    requires i < |s| && -32768 <= s[i] < 32768
    ensures SampleAt(Pcm(s), i) == s[i]
    ensures Pcm(s)[2 * i] == s[i] % 256 && Pcm(s)[2 * i + 1] == s[i] / 256 % 256
  {
    var n: nat := |s| - 1;
    if i < n {
      PcmRoundTrip(s[..n], i);
      assert Pcm(s)[2 * i] == Pcm(s[..n])[2 * i] && Pcm(s)[2 * i + 1] == Pcm(s[..n])[2 * i + 1];
    }
  }

  lemma {:induction false} PcmConcat(a: seq<int>, b: seq<int>)
    ensures Pcm(a + b) == Pcm(a) + Pcm(b)
    decreases |b|
  {
    if b == [] {
      assert a + b == a;
    } else {
      var n: nat := |b| - 1;
      assert (a + b)[..|a| + n] == a + b[..n];
      PcmConcat(a, b[..n]);
    }
  }

  function WavHeader(data: nat): (h: seq<Byte>)
    ensures |h| == 44
  {
    Bytes("RIFF") + U32(if data > 0xFFFFFFFF - 36 then 0xFFFFFFFF else data + 36)
    + Bytes("WAVE") + Bytes("fmt ") + U32(16) + U16(1) + U16(1) + U32(SAMPLE_RATE) + U32(2 * SAMPLE_RATE)
    + U16(2) + U16(16) + Bytes("data") + U32(data)
  }

  function U16At(b: seq<Byte>, i: nat): nat
    requires i + 2 <= |b|
  {
    var lo: int, hi: int := b[i], b[i + 1];
    lo + 256 * hi
  }

  function U32At(b: seq<Byte>, i: nat): nat
    requires i + 4 <= |b|
  {
    U16At(b, i) + 65536 * U16At(b, i + 2)
  }

  ghost predicate Tagged(b: seq<Byte>, i: nat, tag: string) {
    i + |tag| <= |b| && forall k: nat :: k < |tag| ==> b[i + k] == tag[k] as int
  }

  lemma LowHalf(x: nat)
    ensures x % 256 + 256 * (x / 256 % 256) == x % 65536
  {
    var q, r := x / 65536, x % 65536;
    assert x / 256 == 256 * q + r / 256 && x % 256 == r % 256;
    assert r / 256 < 256;
  }

  lemma U32Read(x: nat)
    requires x < 0x1_0000_0000
    ensures U32At(U32(x), 0) == x
  {
    LowHalf(x);
    LowHalf(x / 65536);
    assert U16At(U32(x), 0) == x % 65536 && U16At(U32(x), 2) == x / 65536;
  }

  lemma WavFields(data: nat)
    ensures var h := WavHeader(data);
            && h[0..4] == Bytes("RIFF") && h[4..8] == U32(if data > 0xFFFFFFFF - 36 then 0xFFFFFFFF else data + 36)
            && h[8..12] == Bytes("WAVE") && h[12..16] == Bytes("fmt ") && h[16..20] == U32(16)
            && h[20..22] == U16(1) && h[22..24] == U16(1) && h[24..28] == U32(SAMPLE_RATE)
            && h[28..32] == U32(2 * SAMPLE_RATE) && h[32..34] == U16(2) && h[34..36] == U16(16)
            && h[36..40] == Bytes("data") && h[40..44] == U32(data)
  {
    hide U32, U16, Bytes;
    var h := WavHeader(data);
    var a := Bytes("RIFF") + U32(if data > 0xFFFFFFFF - 36 then 0xFFFFFFFF else data + 36) + Bytes("WAVE");
    var b := Bytes("fmt ") + U32(16) + U16(1) + U16(1);
    var c := U32(SAMPLE_RATE) + U32(2 * SAMPLE_RATE) + U16(2) + U16(16);
    var d := Bytes("data") + U32(data);
    assert h == a + b + c + d;
    assert h[..12] == a && h[12..24] == b && h[24..36] == c && h[36..] == d;
    assert h[8..12] == h[..12][8..12] && h[16..20] == h[12..24][4..8];
    assert h[28..32] == h[24..36][4..8] && h[32..34] == h[24..36][8..10] && h[34..36] == h[24..36][10..12];
    assert h[36..40] == h[36..][..4] && h[40..44] == h[36..][4..8];
  }

  lemma FieldAt(h: seq<Byte>, i: nat, x: nat)
    requires i + 4 <= |h| && x < 0x1_0000_0000 && h[i..i + 4] == U32(x)
    ensures U32At(h, i) == x
  {
    U32Read(x);
    assert forall k: nat :: k < 4 ==> h[i + k] == U32(x)[k];
  }

  lemma HalfAt(h: seq<Byte>, i: nat, x: nat)
    requires i + 2 <= |h| && x < 0x1_0000 && h[i..i + 2] == U16(x)
    ensures U16At(h, i) == x
  {
    assert h[i] == U16(x)[0] && h[i + 1] == U16(x)[1];
  }

  lemma TagAt(h: seq<Byte>, i: nat, tag: string)
    requires Plain(tag) && i + |tag| <= |h| && h[i..i + |tag|] == Bytes(tag)
    ensures Tagged(h, i, tag)
  {
    forall k: nat | k < |tag| ensures h[i + k] == tag[k] as int {
      assert h[i + k] == Bytes(tag)[k];
    }
  }

  /** What a player reads from the header: 16-bit mono PCM at 44.1 kHz, the data size, and the size of all
      that follows the RIFF tag and size, saturated. */
  lemma WavHeaderRead(data: nat)
    requires data < 0x1_0000_0000
    ensures var h := WavHeader(data);
            && Tagged(h, 0, "RIFF") && Tagged(h, 8, "WAVE") && Tagged(h, 12, "fmt ") && Tagged(h, 36, "data")
            && U32At(h, 4) == (if data + 36 < 0x1_0000_0000 then data + 36 else 0xFFFFFFFF)
            && U32At(h, 16) == 16 && U16At(h, 20) == 1 && U16At(h, 22) == 1 && U32At(h, 24) == 44100
            && U16At(h, 34) == 16 && U16At(h, 32) == U16At(h, 22) * U16At(h, 34) / 8
            && U32At(h, 28) == U32At(h, 24) * U16At(h, 32) && U32At(h, 40) == data
  {
    hide U32, U16, U32At, U16At, Bytes, WavHeader, Tagged;
    var h := WavHeader(data);
    WavFields(data);
    TagAt(h, 0, "RIFF");
    TagAt(h, 8, "WAVE");
    TagAt(h, 12, "fmt ");
    TagAt(h, 36, "data");
    FieldAt(h, 4, if data > 0xFFFFFFFF - 36 then 0xFFFFFFFF else data + 36);
    FieldAt(h, 16, 16);
    HalfAt(h, 20, 1);
    HalfAt(h, 22, 1);
    FieldAt(h, 24, SAMPLE_RATE);
    FieldAt(h, 28, 2 * SAMPLE_RATE);
    HalfAt(h, 32, 2);
    HalfAt(h, 34, 16);
    FieldAt(h, 40, data);
  }

  /** The header of a file of n samples; the size field is 32 bits wide. */
  function FileHeader(wav: bool, n: nat): (h: seq<Byte>)
    ensures |h| == if wav then 44 else 0
  {
    if wav then WavHeader(2 * n % 0x1_0000_0000) else []
  }

  /** Everything after the head of a buffered response. */
  function File(wav: bool, s: seq<int>): (f: seq<Byte>)
    ensures |f| == 2 * |s| + if wav then 44 else 0
  {
    FileHeader(wav, |s|) + Pcm(s)
  }

  /** The head of a buffered response. */
  function Head(wav: bool, length: nat): (h: seq<Byte>)
    ensures h != []
  {
    Message("200 OK", MediaType(wav), length, Line(NO_STORE) + (Line(CLOSING) + CRLF))
  }

  function MediaType(wav: bool): string {
    if wav then "audio/wav" else "application/octet-stream"
  }

  /** A buffered response is read as its file, and nothing is left over. */
  lemma FileRead(wav: bool, s: seq<int>)
    ensures Receive(Head(wav, |File(wav, s)|) + File(wav, s), None) == Some((File(wav, s), []))
  {
    hide Receive, Line, File, Bytes, Dec, Plain;
    var f := File(wav, s);
    var status, kind := "200 OK", MediaType(wav);
    assert Head(wav, |f|) + f == Message(status, kind, |f|, Line(NO_STORE) + (Line(CLOSING) + (CRLF + f)));
    PlainHead(wav);
    MessageRead(status, kind, |f|, Line(NO_STORE) + (Line(CLOSING) + (CRLF + f)));
    TailRead(f);
  }

  lemma PlainHead(wav: bool)
    ensures Plain("HTTP/1.1 " + "200 OK") && Plain("Content-Type: " + MediaType(wav))
  {
    hide Plain;
    PlainFields();
    PlainOk();
    PlainMedia();
    PlainJoin("HTTP/1.1 ", "200 OK");
    PlainJoin("Content-Type: ", MediaType(wav));
  }

  lemma PlainFields()
    ensures Plain("HTTP/1.1 ") && Plain("Content-Type: ")
  {
  }

  lemma PlainOk()
    ensures Plain("200 OK") && Plain(JSON)
  {
  }

  lemma PlainMedia()
    ensures Plain(MediaType(true)) && Plain(MediaType(false))
  {
  }

  lemma PlainStatus()
    ensures Plain(REFUSED) && Plain(NO_ROOM)
  {
  }

  // ---- short answers ------------------------------------------------------------------------

  const REFUSED: string := "503 Service Unavailable"
  const REFUSED_BODY: string := "{\"error\":\"submit failed\"}"
  const NO_ROOM: string := "500 Internal Server Error"
  const NO_ROOM_BODY: string := "{\"error\":\"oom\"}"
  const JSON: string := "application/json"

  /** send_simple. */
  function Simple(status: string, body: string): (m: seq<Byte>) {
    Message(status, JSON, |body|, Line(CLOSING) + (CRLF + Bytes(body)))
  }

  lemma PlainSimple()
    ensures Plain("HTTP/1.1 " + REFUSED) && Plain("HTTP/1.1 " + NO_ROOM) && Plain("Content-Type: " + JSON)
  {
    hide Plain;
    PlainFields();
    PlainOk();
    PlainStatus();
    PlainJoin("HTTP/1.1 ", REFUSED);
    PlainJoin("HTTP/1.1 ", NO_ROOM);
    PlainJoin("Content-Type: ", JSON);
  }

  /** A short answer is read as its body. */
  lemma SimpleRead(status: string, body: string)
    requires status == REFUSED || status == NO_ROOM
    ensures Receive(Simple(status, body), None) == Some((Bytes(body), []))
  {
    hide Receive, Line, Bytes, Dec, Plain;
    PlainSimple();
    MessageRead(status, JSON, |body|, Line(CLOSING) + (CRLF + Bytes(body)));
    TailRead(Bytes(body));
  }

  // ---- one response -------------------------------------------------------------------------

  /** Nothing short of the terminal chunk looks complete. */
  lemma OpenBody(chunks: seq<seq<Byte>>, p: seq<Byte>)
    requires forall i: nat :: i < |chunks| ==> chunks[i] != []
    requires p < Body(chunks) + TERMINAL
    ensures Decode(p).None?
  {
    DecodeBody(chunks);
    if Decode(p).Some? {
      PrefixFree(p, Body(chunks) + TERMINAL);
    }
  }

  /** A send that fails after n bytes. */
  lemma Cuts(s: seq<Byte>, data: seq<Byte>, more: seq<Byte>, n: nat)
    requires n < |data|
    ensures s + data[..n] < s + (data + more)
  {
  }

  class Response {
    const buffered: bool
    const wav: bool
    var sentHdr: bool
    var acc: seq<int>
    var finished: bool
    /** What the peer has received after the response head, and how much more it will take. */
    var sent: seq<Byte>
    var room: nat
    /** How many samples the accumulator may grow to. */
    var heap: nat
    ghost var emitted: seq<int>
    ghost var chunks: seq<seq<Byte>>
    ghost var failed: bool

    ghost function Prelude(): seq<Byte>
      reads this
    {
      if wav && sentHdr then WavHeader(WAV_MAX) else []
    }

    /** Streamed: complete chunks, holding the header once and the samples emitted so far.
        Buffered: nothing sent, all samples accumulated.  After a failed send: a body cut short. */
    ghost predicate Sound()
      reads this
    {
      && (forall i: nat :: i < |chunks| ==> chunks[i] != [])
      && (if buffered then sent == [] && acc == emitted && chunks == []
          else sent == Body(chunks) && Flatten(chunks) == Prelude() + Pcm(emitted)
               && (wav && emitted != [] ==> sentHdr))
    }

    ghost predicate Open()
      reads this
    {
      !finished && !failed && Sound()
    }

    /** As much as the peer takes of the answer that no memory was left. */
    ghost predicate Told()
      reads this
    {
      sent <= Simple(NO_ROOM, NO_ROOM_BODY) && (room == 0 || sent == Simple(NO_ROOM, NO_ROOM_BODY))
    }

    /** The peer went away and has no complete chunked body, or no memory was left and it was
        told so. */
    ghost predicate Cut()
      reads this
    {
      && failed
      && if buffered then finished && Told() else room == 0 && Decode(sent).None?
    }

    constructor (buffered: bool, wav: bool, room: nat, heap: nat)
      ensures Open() && emitted == [] && this.buffered == buffered && this.wav == wav
    {
      this.buffered, this.wav, this.room, this.heap := buffered, wav, room, heap;
      sentHdr, acc, finished, sent := false, [], false, [];
      emitted, chunks, failed := [], [], false;
    }

    method SendAll(data: seq<Byte>) returns (ok: bool)
      modifies `sent, `room
      ensures ok ==> sent == old(sent) + data && room == old(room) - |data|
      ensures !ok ==> room == 0 && old(room) < |data| && sent == old(sent) + data[..old(room)]
    {
      if |data| <= room {
        sent, room := sent + data, room - |data|;
        ok := true;
      } else {
        sent, room := sent + data[..room], 0;
        ok := false;
      }
    }

    /** A chunk goes out whole, or a strict prefix of it does and the peer is gone. */
    method SendChunk(data: seq<Byte>) returns (ok: bool)
      modifies `sent, `room
      ensures ok ==> sent == old(sent) + Chunk(data)
      ensures !ok ==> room == 0 && old(sent) <= sent < old(sent) + Chunk(data)
    {
      ghost var s := sent;
      var h := Hex(|data|) + CRLF;
      ok := SendAll(h);
      if !ok {
        assert sent < s + h <= s + Chunk(data);
        return;
      }
      if |data| > 0 {
        ok := SendAll(data);
        if !ok {
          assert sent < s + h + data <= s + Chunk(data);
          return;
        }
      }
      assert sent == s + h + data;
      ok := SendAll(CRLF);
    }

    /** One chunk of a streamed body, with the book-keeping of what the peer now holds. */
    method Stream(data: seq<Byte>) returns (ok: bool)
      requires Open() && !buffered && data != []
      modifies `sent, `room, `chunks, `failed
      ensures ok ==> !failed && chunks == old(chunks) + [data] && sent == Body(chunks)
      ensures !ok ==> Cut()
    {
      ghost var s := sent;
      ok := SendChunk(data);
      if ok {
        chunks := chunks + [data];
      } else {
        failed := true;
        assert sent < Body(chunks + [data]) + TERMINAL;
        OpenBody(chunks + [data], sent);
      }
    }

    method Accumulate(pcm: seq<int>) returns (ok: bool)
      requires Open() && buffered && pcm != []
      modifies `sent, `room, `failed, `acc, `finished, `emitted
      ensures ok ==> Open() && emitted == old(emitted) + pcm
      ensures !ok ==> Cut() && emitted == old(emitted)
    {
      if |acc| + |pcm| > heap {
        failed := true;
        var _ := SendAll(Simple(NO_ROOM, NO_ROOM_BODY));
        finished := true;
        return false;
      }
      acc, emitted := acc + pcm, emitted + pcm;
      return true;
    }

    method StreamHeader() returns (ok: bool)
      requires Open() && !buffered && wav && !sentHdr
      modifies `sent, `room, `chunks, `failed, `sentHdr
      ensures ok ==> Open() && sentHdr
      ensures !ok ==> Cut()
    {
      var h := WavHeader(WAV_MAX);
      ok := Stream(h);
      if ok {
        sentHdr := true;
        assert [] + h == h && h + [] == h;
      }
    }

    method StreamPcm(pcm: seq<int>) returns (ok: bool)
      requires Open() && !buffered && (wav ==> sentHdr) && pcm != []
      modifies `sent, `room, `chunks, `failed, `emitted
      ensures ok ==> Open() && emitted == old(emitted) + pcm
      ensures !ok ==> Cut() && emitted == old(emitted)
    {
      hide Pcm, WavHeader;
      ghost var p := Prelude();
      PcmConcat(emitted, pcm);
      ok := Stream(Pcm(pcm));
      if ok {
        assert p + Pcm(emitted) + Pcm(pcm) == p + Pcm(emitted + pcm);
        emitted := emitted + pcm;
        assert Prelude() == p;
      }
    }

    /** Append audio to the response, or fail for good. */
    method Emit(pcm: seq<int>) returns (ok: bool)
      requires Open()
      modifies `sent, `room, `chunks, `failed, `acc, `finished, `sentHdr, `emitted
      ensures ok ==> Open() && emitted == old(emitted) + pcm
      ensures !ok ==> Cut() && emitted == old(emitted)
      ensures !buffered && wav && ok ==> sentHdr
    {
      assert |pcm| == 0 ==> emitted + pcm == emitted;
      ok := true;
      if buffered {
        if |pcm| > 0 {
          ok := Accumulate(pcm);
        }
        return;
      }
      if wav && !sentHdr {
        ok := StreamHeader();
        if !ok { return; }
      }
      if |pcm| > 0 {
        ok := StreamPcm(pcm);
      }
    }

    /** The whole response, as its receiver reads it: the file that Content-Length announces, or the body
        that the chunks carry. */
    ghost predicate Delivered()
      reads this
    {
      if buffered then Receive(sent, None) == Some((File(wav, emitted), []))
      else Decode(sent) == Some((if wav then WavHeader(WAV_MAX) else []) + Pcm(emitted))
    }

    /** Close the response: complete, or visibly cut. */
    method Finish()
      requires Open()
      modifies `sent, `room, `chunks, `failed, `acc, `finished, `sentHdr, `emitted
      ensures finished && emitted == old(emitted)
      ensures !failed ==> Delivered()
      ensures failed ==> !Delivered()
    {
      hide Body, Head;
      if buffered {
        FinishBuffered();
      } else {
        var ok := Emit([]);
        assert old(emitted) + [] == old(emitted);
        ghost var s := sent;
        var closed := SendAll(TERMINAL);
        if ok && closed {
          DecodeBody(chunks);
        } else {
          failed := true;
          if ok {
            assert sent < Body(chunks) + TERMINAL;
            OpenBody(chunks, sent);
          } else {
            assert sent == s + TERMINAL[..0] == s;
          }
        }
        finished := true;
      }
    }

    /** Up to three sends, the first failure ends it. */
    method SendParts(head: seq<Byte>, hdr: seq<Byte>, pcm: seq<Byte>) returns (ok: bool)
      modifies `sent, `room
      ensures ok ==> sent == old(sent) + (head + (hdr + pcm))
      ensures !ok ==> sent < old(sent) + (head + (hdr + pcm))
    {
      ghost var s := sent;
      ok := SendAll(head);
      if !ok {
        Cuts(s, head, hdr + pcm, |sent| - |s|);
        return;
      }
      if |hdr| > 0 {
        ok := SendAll(hdr);
        if !ok {
          Cuts(s + head, hdr, pcm, |sent| - |s + head|);
          assert s + head + (hdr + pcm) == s + (head + (hdr + pcm));
          return;
        }
      }
      if |pcm| > 0 {
        ok := SendAll(pcm);
      }
      assert s + head + hdr + pcm == s + (head + (hdr + pcm));
    }

    method FinishBuffered()
      requires Open() && buffered
      modifies `sent, `room, `failed, `finished
      ensures finished
      ensures !failed ==> Delivered()
      ensures failed ==> Receive(sent, None).None?
    {
      hide Receive, Head, Pcm;
      var hdr := FileHeader(wav, |acc|);
      var head := Head(wav, 2 * |acc| + |hdr|);
      assert File(wav, emitted) == hdr + Pcm(acc);
      FileRead(wav, emitted);
      var ok := SendParts(head, hdr, Pcm(acc));
      assert [] + (head + (hdr + Pcm(acc))) == head + (hdr + Pcm(acc));
      failed := !ok;
      if failed {
        Short(sent, head + (hdr + Pcm(acc)), None);
      }
      finished := true;
    }

    /** The poll loop's end after a submit error: a buffered response is refused, but a streamed body
        is closed as it stands, so a truncated answer decodes as a complete one. */
    method GiveUp()
      requires Open()
      modifies `sent, `room, `failed, `finished
      ensures finished && emitted == old(emitted)
      ensures !buffered && !failed ==> Decode(sent) == Some(Prelude() + Pcm(emitted))
      ensures !buffered && failed ==> Decode(sent).None?
      ensures buffered && !failed ==> Receive(sent, None) == Some((Bytes(REFUSED_BODY), []))
      ensures buffered && failed ==> Receive(sent, None).None?
    {
      hide Decode, Simple, Body, Flatten, Pcm, WavHeader, Receive, Bytes;
      ghost var answer := Simple(REFUSED, REFUSED_BODY);
      SimpleRead(REFUSED, REFUSED_BODY);
      var ok := SendAll(if buffered then Simple(REFUSED, REFUSED_BODY) else TERMINAL);
      if !buffered && ok {
        DecodeBody(chunks);
      } else if !buffered {
        assert sent < Body(chunks) + TERMINAL;
        OpenBody(chunks, sent);
      } else if ok {
        assert sent == [] + answer == answer;
      } else {
        assert sent < answer;
        Short(sent, answer, None);
      }
      failed := !ok;
      finished := true;
    }
  }
}
