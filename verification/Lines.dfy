/** Newline framing over a byte stream (week5/Icommon.h). Bytes are chars; what a socket still
    has to deliver before the peer closes it is a sequence of bytes. */
module Lines {
  import opened Sequences

  const BUF_SIZE: nat := 4096
  const NUL := '\0'
  const LF := '\n'

  /** The part of s before its first c: where strcspn stops, and how C reads a string up to
      its NUL. */
  function UpTo(s: string, c: char): (r: string)
    ensures c !in r && r <= s
    ensures c !in s ==> r == s
  {
    s[..IndexOf(s, c)]
  }

  /** What send_line can be given without its length reaching past its buffer. */
  predicate Sendable(line: string) {
    NUL !in line && |line| < BUF_SIZE
  }

  /** The bytes send_line puts on the wire. snprintf cuts the text at BUF_SIZE - 1 but returns
      the uncut length, so a line one byte too long goes out with a NUL instead of a newline. */
  function Framed(line: string): string
    requires Sendable(line)
  {
    if |line| + 1 < BUF_SIZE then line + [LF] else line + [NUL]
  }

  /** What recv_line gets from a stream: a line and what is left, or the end of the stream. */
  datatype Received = Line(text: string, rest: string) | Eof

  function ReadLine(stream: string, size: nat): (r: Received)
    requires size > 0
    ensures r.Line? ==> |r.text| < size && LF !in r.text
    ensures r.Line? && (size > 1 || r.text != "") ==> |r.rest| < |stream|
  {
    var k := IndexOf(stream, LF);
    if k < |stream| && k < size - 1 then Line(stream[..k], stream[k + 1..])
    else if |stream| >= size - 1 then Line(stream[..size - 1], stream[size - 1..])
    else Eof
  }

  /** A connected socket: what can still be received, and what has been sent. */
  class Socket {
    var inbox: string
    var outbox: string

    constructor (inbox: string)
      ensures this.inbox == inbox && outbox == ""
    {
      this.inbox := inbox;
      outbox := "";
    }

    /** recv: some bytes, as many as the network pleases but at most `max`; none at the end, or
        when none were asked for. */
    method Recv(max: nat) returns (chunk: string)
      modifies this`inbox
      ensures |chunk| <= max && old(inbox) == chunk + inbox
      ensures chunk == "" <==> old(inbox) == "" || max == 0
    {
      if inbox == "" || max == 0 {
        return "";
      }
      var n: nat :| 1 <= n <= max && n <= |inbox|;
      chunk, inbox := inbox[..n], inbox[n..];
    }

    method Send(bytes: string)
      modifies this`outbox
      ensures outbox == old(outbox) + bytes
    {
      outbox := outbox + bytes;
    }

    method SendLine(line: string)
      requires Sendable(line)
      modifies this`outbox
      ensures outbox == old(outbox) + Framed(line)
    {
      var text := line + [LF];
      var len := |text|;
      var buf := (if |text| < BUF_SIZE then text else text[..BUF_SIZE - 1]) + [NUL];
      Send(buf[..len]);
    }

    /** recv_line: byte by byte into the caller's buffer; -1 at the end of the stream. */
    method RecvLine(buf: array<char>) returns (n: int)
      requires buf.Length > 0
      modifies this`inbox, buf
      ensures match ReadLine(old(inbox), buf.Length)
              case Line(text, rest) => n == |text| && buf[..n] == text && buf[n] == NUL && inbox == rest
              case Eof => n == -1 && inbox == ""
    {
      var i := 0;
      ghost var was := inbox;
      while i < buf.Length - 1
        invariant 0 <= i <= buf.Length - 1 && i <= |was|
        invariant buf[..i] == was[..i] && inbox == was[i..]
        invariant LF !in was[..i]
      {
        var c := Recv(1);
        if |c| == 0 {
          buf[i] := NUL;
          assert was[..i] == was;
          return -1;
        }
        assert c[0] == was[i];
        if c[0] == LF {
          IndexOfFirst(was, LF, i);
          buf[i] := NUL;
          return i;
        }
        buf[i] := c[0];
        i := i + 1;
        assert was[..i] == was[..i - 1] + [c[0]];
        assert buf[..i] == buf[..i - 1] + [c[0]];
      }
      buf[i] := NUL;
      return i;
    }
  }

  /** Framing is faithful for exactly the lines without a newline that fit the buffer. */
  lemma FramingRoundTrips(line: string, rest: string)
    requires Sendable(line)
    ensures ReadLine(Framed(line) + rest, BUF_SIZE) == Line(line, rest)
            <==> '\n' !in line && |line| <= 4094
  {
    var stream := Framed(line) + rest;
    var k := IndexOf(line, LF);
    assert forall i :: 0 <= i < |line| ==> stream[i] == line[i];
    if k < |line| {
      assert stream[k] == LF;
      assert IndexOf(stream, LF) == k;
    } else if |line| <= BUF_SIZE - 2 {
      assert stream[|line|] == LF;
      assert IndexOf(stream, LF) == |line|;
      assert stream[..|line|] == line && stream[|line| + 1..] == rest;
    } else {
      assert stream[BUF_SIZE - 1..] == [NUL] + rest;
    }
  }

  /** A line the protocol can carry. */
  predicate Clean(line: string) {
    LF !in line && NUL !in line && |line| <= BUF_SIZE - 2
  }

  ghost predicate AllClean(lines: seq<string>) {
    forall i :: 0 <= i < |lines| ==> Clean(lines[i])
  }

  ghost predicate AllSendable(lines: seq<string>) {
    forall i :: 0 <= i < |lines| ==> Sendable(lines[i])
  }

  /** The bytes of these lines, one send_line after the other. */
  ghost function Frames(lines: seq<string>): string
    requires AllSendable(lines)
  {
    if lines == [] then "" else Framed(lines[0]) + Frames(lines[1..])
  }

  lemma {:induction false} FramesConcat(a: seq<string>, b: seq<string>)
    requires AllSendable(a) && AllSendable(b)
    ensures AllSendable(a + b) && Frames(a + b) == Frames(a) + Frames(b)
  {
    if a == [] {
      assert a + b == b;
    } else {
      FramesConcat(a[1..], b);
      assert (a + b)[1..] == a[1..] + b;
      Associative(Framed(a[0]), Frames(a[1..]), Frames(b));
    }
  }

  lemma FramesCons(line: string, more: seq<string>)
    requires Sendable(line) && AllSendable(more)
    ensures AllSendable([line] + more) && Frames([line] + more) == Framed(line) + Frames(more)
  {
    assert ([line] + more)[1..] == more;
  }

  lemma FramesOne(line: string)
    requires Sendable(line)
    ensures Frames([line]) == Framed(line)
  {
    assert [line][1..] == [];
    assert Framed(line) + "" == Framed(line);
  }

  lemma FramesAppend(lines: seq<string>, last: string)
    requires AllSendable(lines) && Sendable(last)
    ensures AllSendable(lines + [last]) && Frames(lines + [last]) == Frames(lines) + Framed(last)
  {
    FramesOne(last);
    FramesConcat(lines, [last]);
  }

  /** Reading from a queue of framed lines takes exactly the first. */
  lemma {:induction false} ReadFirst(lines: seq<string>)
    requires lines != [] && AllClean(lines)
    ensures ReadLine(Frames(lines), BUF_SIZE) == Line(lines[0], Frames(lines[1..]))
  {
    FramingRoundTrips(lines[0], Frames(lines[1..]));
  }
}
