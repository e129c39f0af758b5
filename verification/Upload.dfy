/** The length-prefixed upload of the file server: `cmd_uplode` in week5/Iserver.c against the
    `load` branch of week5/Iclient.c. */
module Upload {
  import opened Sequences
  import opened Decimal
  import opened Lines

  const INT_MAX: int := 0x7fff_ffff
  const LONG_MAX: int := 0x7fff_ffff_ffff_ffff
  const SIZE_BUF: nat := 128

  const READY := "READY"
  const FAILED := "FAILED"
  const UPLOAD_DONE := "UPLOAD DONE"

  // ---- The cast to int ----------------------------------------------------------------

  /** (int)x on a machine with 32-bit int. */
  function ToInt(x: int): (r: int)
    ensures -0x8000_0000 <= r < 0x8000_0000 && (x - r) % 0x1_0000_0000 == 0
  {
    (x + 0x8000_0000) % 0x1_0000_0000 - 0x8000_0000
  }

  /** How many bytes the server asks recv for. */
  function ToRead(fileSize: int, received: int): int {
    var remain := ToInt(fileSize - received);
    if remain < BUF_SIZE then remain else BUF_SIZE
  }

  /** Until the cast size is used up, the cast follows the count. */
  lemma ToIntShifts(fileSize: int, received: int)
    requires 0 <= received <= ToInt(fileSize)
    ensures ToInt(fileSize - received) == ToInt(fileSize) - received
  {
  }

  lemma ToIntBounds(fileSize: int)
    requires fileSize > 0
    ensures ToInt(fileSize) <= fileSize
    ensures ToInt(fileSize) == fileSize <==> fileSize <= INT_MAX
  {
  }

  /** The read asks for something, no more than the buffer holds, and not beyond the file. */
  predicate SoundRead(fileSize: int, received: int) {
    1 <= ToRead(fileSize, received) <= BUF_SIZE && received + ToRead(fileSize, received) <= fileSize
  }

  /** A size that is an int: the server asks for all that is left, up to 4096 bytes. */
  lemma AsksForTheRest(fileSize: int, received: int)
    requires 0 <= received < fileSize <= 0x7fff_ffff
    ensures ToRead(fileSize, received) == if fileSize - received < 4096 then fileSize - received else 4096
  {
  }

  function Sum(chunks: seq<nat>): nat {
    if chunks == [] then 0 else Sum(chunks[..|chunks| - 1]) + chunks[|chunks| - 1]
  }

  /** The receive loop can have taken chunks of these sizes so far. */
  predicate Receivable(fileSize: int, chunks: seq<nat>) {
    chunks == [] ||
    (var before := chunks[..|chunks| - 1];
     && Receivable(fileSize, before) && Sum(before) < fileSize
     && 1 <= chunks[|chunks| - 1] <= ToRead(fileSize, Sum(before)))
  }

  function Ones(k: nat): seq<nat> {
    seq(k, _ => 1)
  }

  lemma {:induction false} OnesAreReceivable(fileSize: int, k: nat)
    requires k <= ToInt(fileSize) <= fileSize
    ensures Receivable(fileSize, Ones(k)) && Sum(Ones(k)) == k
  {
    if k > 0 {
      OnesAreReceivable(fileSize, k - 1);
      ToIntShifts(fileSize, k - 1);
      assert Ones(k)[..k - 1] == Ones(k - 1);
    }
  }

  /** The cast is harmless at every point the loop can get to, for exactly the sizes an int
      holds. For any other size it asks for nothing, or for less than nothing, once the cast size
      has been received. */
  lemma ReadSizesAreSoundIff(fileSize: int)
    requires fileSize > 0
    ensures (forall chunks :: Receivable(fileSize, chunks) && Sum(chunks) < fileSize ==>
               SoundRead(fileSize, Sum(chunks)))
            <==> fileSize <= INT_MAX
  {
    ToIntBounds(fileSize);
    if fileSize > INT_MAX {
      var k := if ToInt(fileSize) > 0 then ToInt(fileSize) else 0;
      if k > 0 {
        OnesAreReceivable(fileSize, k);
        ToIntShifts(fileSize, k);
      }
      assert Receivable(fileSize, Ones(k)) && Sum(Ones(k)) == k;
      assert !SoundRead(fileSize, Sum(Ones(k)));
    }
  }

  // ---- The server's side --------------------------------------------------------------

  /** What the server does with an upload: what it stores, sends back and leaves unread. */
  datatype Outcome = Outcome(file: string, reply: string, rest: string)

  function Announced(sizeLine: string): int {
    Atol(UpTo(sizeLine, NUL))
  }

  /** The announced size does not turn negative in the cast, which would make recv write past
      the server's buffer. */
  predicate ReadsAreDefined(stream: string) {
    match ReadLine(stream, SIZE_BUF)
    case Eof => true
    case Line(sizeLine, _) => Announced(sizeLine) > 0 ==> ToInt(Announced(sizeLine)) >= 0
  }

  /** A size that is no int is received up to its cast; the next read then asks for nothing,
      gets nothing, and is taken for the end of the connection. */
  function Receive(stream: string): Outcome
    requires ReadsAreDefined(stream)
  {
    match ReadLine(stream, SIZE_BUF)
    case Eof => Outcome("", "", "")
    case Line(sizeLine, data) =>
      var size := Announced(sizeLine);
      if sizeLine == "" then Outcome("", "", data)
      else if size <= 0 then Outcome("", Framed(FAILED), data)
      else if |data| < ToInt(size) then Outcome(data, "", "")
      else Outcome(data[..ToInt(size)], if ToInt(size) == size then Framed(UPLOAD_DONE) else "", data[ToInt(size)..])
  }

  /** The connection delivers all that this upload is going to read. */
  predicate Complete(stream: string) {
    match ReadLine(stream, SIZE_BUF)
    case Eof => false
    case Line(sizeLine, data) => sizeLine == "" || Announced(sizeLine) <= 0 || ToInt(Announced(sizeLine)) <= |data|
  }

  /** The receive loop. However recv cuts the stream, exactly fileSize bytes are stored and the
      next byte stays unread, if fileSize is an int; otherwise as many bytes as its cast says. */
  method ReceiveData(sock: Socket, fileSize: int) returns (fp: string, complete: bool)
    requires fileSize > 0 && ToInt(fileSize) >= 0
    modifies sock`inbox
    ensures complete <==> fileSize <= INT_MAX && |old(sock.inbox)| >= fileSize
    ensures if |old(sock.inbox)| < ToInt(fileSize) then fp == old(sock.inbox) && sock.inbox == ""
            else fp == old(sock.inbox)[..ToInt(fileSize)] && sock.inbox == old(sock.inbox)[ToInt(fileSize)..]
  {
    ToIntBounds(fileSize);
    fp := "";
    var totalReceived := 0;
    while totalReceived < fileSize
      invariant 0 <= totalReceived == |fp| <= ToInt(fileSize)
      invariant old(sock.inbox) == fp + sock.inbox
      decreases fileSize - totalReceived
    {
      ToIntShifts(fileSize, totalReceived);
      var chunk := sock.Recv(ToRead(fileSize, totalReceived));
      if |chunk| <= 0 {
        return fp, false;
      }
      fp := fp + chunk;
      totalReceived := totalReceived + |chunk|;
    }
    return fp, true;
  }

  /** What follows READY: the size line, the data and the answer. */
  method ReceiveFile(sock: Socket) returns (fp: string)
    requires ReadsAreDefined(sock.inbox)
    modifies sock
    ensures var o := Receive(old(sock.inbox));
            fp == o.file && sock.inbox == o.rest && sock.outbox == old(sock.outbox) + o.reply
  {
    var sizeBuf := new char[SIZE_BUF];
    var n := sock.RecvLine(sizeBuf);
    if n <= 0 {
      return "";
    }
    var fileSize := Atol(UpTo(sizeBuf[..n], NUL));
    if fileSize <= 0 {
      sock.SendLine(FAILED);
      return "";
    }
    var complete;
    ToIntBounds(fileSize);
    fp, complete := ReceiveData(sock, fileSize);
    if complete {
      sock.SendLine(UPLOAD_DONE);
    }
  }

  method CmdUpload(sock: Socket, canOpen: bool) returns (file: Option<string>)
    requires canOpen ==> ReadsAreDefined(sock.inbox)
    modifies sock
    ensures if canOpen then
              var o := Receive(old(sock.inbox));
              && file == Some(o.file) && sock.inbox == o.rest
              && sock.outbox == old(sock.outbox) + Framed(READY) + o.reply
            else
              && file == None && sock.inbox == old(sock.inbox)
              && sock.outbox == old(sock.outbox) + Framed(FAILED)
  {
    if !canOpen {
      sock.SendLine(FAILED);
      return None;
    }
    sock.SendLine(READY);
    var fp := ReceiveFile(sock);
    return Some(fp);
  }

  // ---- The client's side --------------------------------------------------------------

  function Pow10(k: nat): nat {
    if k == 0 then 1 else 10 * Pow10(k - 1)
  }

  lemma {:induction false} DigitsAreFew(n: nat, k: nat)
    requires 0 < k && n < Pow10(k)
    ensures |Digits(n)| <= k
  {
    if n >= 10 {
      DigitsAreFew(n / 10, k - 1);
    }
  }

  lemma SizeLineFits(n: nat)
    requires n <= LONG_MAX
    ensures Clean(Print(n)) && 0 < |Print(n)| <= 19
  {
    assert Pow10(10) == 10 * 10 * 10 * 10 * 10 * 10 * 10 * 10 * 10 * 10;
    assert Pow10(19) == 10 * 10 * 10 * 10 * 10 * 10 * 10 * 10 * 10 * Pow10(10);
    DigitsAreFew(n, 19);
    forall i | 0 <= i < |Print(n)| ensures Print(n)[i] != LF && Print(n)[i] != NUL {
      assert IsDigit(Print(n)[i]);
    }
  }

  function SizeFrame(n: nat): string
    requires n <= LONG_MAX
  {
    SizeLineFits(n);
    Framed(Print(n))
  }

  function UploadStream(content: string): string
    requires |content| <= LONG_MAX
  {
    SizeFrame(|content|) + content
  }

  /** The client's half, after READY: the size line, then the file in chunks. */
  method SendUpload(sock: Socket, content: string)
    requires |content| <= LONG_MAX
    modifies sock`outbox
    ensures sock.outbox == old(sock.outbox) + UploadStream(content)
  {
    SizeLineFits(|content|);
    sock.SendLine(Print(|content|));
    var totalSent := 0;
    while totalSent < |content|
      invariant 0 <= totalSent <= |content|
      invariant sock.outbox == old(sock.outbox) + SizeFrame(|content|) + content[..totalSent]
    {
      var end := if totalSent + BUF_SIZE < |content| then totalSent + BUF_SIZE else |content|;
      sock.Send(content[totalSent..end]);
      assert content[..end] == content[..totalSent] + content[totalSent..end];
      totalSent := end;
    }
    assert content[..totalSent] == content;
  }

  // ---- Both together ------------------------------------------------------------------

  /** The server reads off exactly the size line, and the size printed on it. */
  lemma SizeLineIsRead(n: nat, rest: string)
    requires n <= LONG_MAX
    ensures ReadLine(SizeFrame(n) + rest, SIZE_BUF) == Line(Print(n), rest)
    ensures Print(n) != "" && Announced(Print(n)) == n
  {
    SizeLineFits(n);
    var line := Print(n);
    var stream := SizeFrame(n) + rest;
    assert stream[|line|] == LF;
    assert forall i :: 0 <= i < |line| ==> stream[i] == line[i];
    assert IndexOf(stream, LF) == |line|;
    assert stream[..|line|] == line && stream[|line| + 1..] == rest;
    PrintParses(n, "");
    assert line + "" == line;
  }

  lemma StreamIsRead(content: string, tail: string)
    requires |content| <= LONG_MAX
    ensures ReadLine(UploadStream(content) + tail, SIZE_BUF) == Line(Print(|content|), content + tail)
    ensures Print(|content|) != "" && Announced(Print(|content|)) == |content|
  {
    Associative(SizeFrame(|content|), content, tail);
    SizeLineIsRead(|content|, content + tail);
  }

  /** The upload round trip: what the client sends for a file is received as that file and
      nothing more; an empty file is answered FAILED. */
  lemma UploadRoundTrips(content: string, tail: string)
    requires |content| <= INT_MAX
    ensures ReadsAreDefined(UploadStream(content) + tail)
    ensures Receive(UploadStream(content) + tail) ==
            Outcome(content, Framed(if content == "" then FAILED else UPLOAD_DONE), tail)
  {
    StreamIsRead(content, tail);
    if content != "" {
      ToIntBounds(|content|);
      assert (content + tail)[..|content|] == content && (content + tail)[|content|..] == tail;
    }
  }

  /** A file that is not empty goes through if and only if its size is an int. */
  lemma UploadIsExactIff(content: string, tail: string)
    requires 0 < |content| <= 0x7fff_ffff_ffff_ffff && ReadsAreDefined(UploadStream(content) + tail)
    ensures Receive(UploadStream(content) + tail) == Outcome(content, Framed(UPLOAD_DONE), tail)
            <==> |content| <= 0x7fff_ffff
  {
    ToIntBounds(|content|);
    if |content| <= INT_MAX {
      UploadRoundTrips(content, tail);
    } else {
      StreamIsRead(content, tail);
    }
  }
}
