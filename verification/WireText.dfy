/** The heads and headers of the responses, letter by letter, and the sizes a player reads from a file. */
module WireText {
  import opened Basics
  import opened HttpHead
  import opened Wire

  lemma BytesJoin(s: string, t: string)
    ensures Bytes(s + t) == Bytes(s) + Bytes(t)
  {
  }

  lemma LineText(s: string)
    ensures Line(s) == Bytes(s + "\r\n")
  {
    hide Bytes;
    BytesJoin(s, "\r\n");
    Ends();
  }

  lemma Ends()
    ensures Bytes("\r\n") == CRLF
  {
  }

  /** A message of any status and type. */
  lemma MessageText(status: string, kind: string, n: nat, more: seq<Byte>)
    ensures Message(status, kind, n, more) ==
      Bytes("HTTP/1.1 ") + Bytes(status) + Bytes("\r\n") + Bytes("Content-Type: ") + Bytes(kind) + Bytes("\r\n")
      + Bytes("Content-Length: ") + Dec(n) + Bytes("\r\n") + more
  {
    hide Bytes, Dec;
    Ends();
    BytesJoin("HTTP/1.1 ", status);
    BytesJoin("Content-Type: ", kind);
  }

  /** The head of a buffered response. */
  lemma HeadText(wav: bool, n: nat)
    ensures Head(wav, n) ==
      Bytes("HTTP/1.1 ") + Bytes("200 OK") + Bytes("\r\n") + Bytes("Content-Type: ")
      + Bytes(if wav then "audio/wav" else "application/octet-stream") + Bytes("\r\n")
      + Bytes("Content-Length: ") + Dec(n) + Bytes("\r\n")
      + (Bytes("Cache-Control: no-store\r\n") + Bytes("Connection: close\r\n\r\n"))
  {
    hide Bytes, Dec, Message;
    var more := Bytes("Cache-Control: no-store\r\n") + Bytes("Connection: close\r\n\r\n");
    MessageText("200 OK", if wav then "audio/wav" else "application/octet-stream", n, more);
    TailText();
  }

  lemma TailText()
    ensures Line(NO_STORE) == Bytes("Cache-Control: no-store\r\n")
    ensures Line(CLOSING) + CRLF == Bytes("Connection: close\r\n\r\n")
    ensures Line(NO_STORE) + (Line(CLOSING) + CRLF) ==
      Bytes("Cache-Control: no-store\r\n") + Bytes("Connection: close\r\n\r\n")
  {
  }

  /** The two answers that carry no audio. */
  lemma RefusedText()
    ensures Simple(REFUSED, REFUSED_BODY) ==
      Bytes("HTTP/1.1 ") + Bytes("503 Service Unavailable") + Bytes("\r\n") + Bytes("Content-Type: ")
      + Bytes("application/json") + Bytes("\r\n") + Bytes("Content-Length: ") + Bytes("25") + Bytes("\r\n")
      + (Bytes("Connection: close\r\n\r\n") + Bytes("{\"error\":\"submit failed\"}"))
  {
    hide Bytes, Message;
    TwoDigits(25);
    ShortText(REFUSED, REFUSED_BODY);
  }

  lemma NoRoomText()
    ensures Simple(NO_ROOM, NO_ROOM_BODY) ==
      Bytes("HTTP/1.1 ") + Bytes("500 Internal Server Error") + Bytes("\r\n") + Bytes("Content-Type: ")
      + Bytes("application/json") + Bytes("\r\n") + Bytes("Content-Length: ") + Bytes("15") + Bytes("\r\n")
      + (Bytes("Connection: close\r\n\r\n") + Bytes("{\"error\":\"oom\"}"))
  {
    hide Bytes, Message;
    TwoDigits(15);
    ShortText(NO_ROOM, NO_ROOM_BODY);
  }

  lemma ShortText(status: string, body: string)
    ensures Simple(status, body) ==
      Bytes("HTTP/1.1 ") + Bytes(status) + Bytes("\r\n") + Bytes("Content-Type: ") + Bytes("application/json")
      + Bytes("\r\n") + Bytes("Content-Length: ") + Dec(|body|) + Bytes("\r\n")
      + (Bytes("Connection: close\r\n\r\n") + Bytes(body))
  {
    hide Bytes, Message, Dec, Line;
    CloseText(body);
    MessageText(status, JSON, |body|, Line(CLOSING) + (CRLF + Bytes(body)));
  }

  lemma CloseText(body: string)
    ensures Line(CLOSING) + (CRLF + Bytes(body)) == Bytes("Connection: close\r\n\r\n") + Bytes(body)
  {
    hide Bytes, Line;
    TailText();
    assert Line(CLOSING) + (CRLF + Bytes(body)) == Line(CLOSING) + CRLF + Bytes(body);
  }

  lemma TwoDigits(n: nat)
    requires n == 15 || n == 25
    ensures Dec(n) == Bytes(if n == 15 then "15" else "25")
  {
  }

  // ---- the sizes in a file ---------------------------------------------------------------------------

  /** A file of samples announces, modulo 2^32, the bytes that follow its header, and its second size is the
      first and 36 more, as far as 32 bits go. */
  lemma FileSizes(s: seq<int>)
    ensures var f, n := File(true, s), 2 * |s| % 0x1_0000_0000;
            && |f| == 44 + 2 * |s| && f[44..] == Pcm(s)
            && U32At(f, 40) == n && U32At(f, 4) == if n + 36 < 0x1_0000_0000 then n + 36 else 0xFFFFFFFF
    ensures File(false, s) == Pcm(s)
  {
    hide WavHeader, U32At, Pcm;
    var f, n := File(true, s), 2 * |s| % 0x1_0000_0000;
    WavHeaderRead(n);
    SameField(f, WavHeader(n), 4);
    SameField(f, WavHeader(n), 40);
  }

  lemma SameField(f: seq<Byte>, h: seq<Byte>, i: nat)
    requires h <= f && i + 4 <= |h|
    ensures U32At(f, i) == U32At(h, i)
  {
  }

  /** A streamed file cannot know its size: both fields are at the top of their range. */
  lemma StreamedSizes()
    ensures U32At(WavHeader(WAV_MAX), 40) == 0xFFFFFFFF && U32At(WavHeader(WAV_MAX), 4) == 0xFFFFFFFF
  {
    hide WavHeader, U32At;
    WavHeaderRead(WAV_MAX);
  }
}
