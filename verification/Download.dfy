/** The text download of the file server: `cmd_get` in week5/Iserver.c against the `get`
    branch of week5/Iclient.c. */
module Download {
  import opened Sequences
  import opened Lines

  const START := "START"
  const END := "END =========="

  // ---- The server's side --------------------------------------------------------------

  /** How many bytes fgets(buf, 4096, fp) takes: through the first newline, at most 4095. */
  function FgetsLength(content: string): (n: nat)
    requires content != ""
    ensures 0 < n <= |content| && n < BUF_SIZE
  {
    var k := IndexOf(content, LF);
    var n := if k < |content| then k + 1 else |content|;
    if n < BUF_SIZE then n else BUF_SIZE - 1
  }

  /** What is left of the chunk after strcspn cut it and %s stopped at its first NUL. */
  function LineOf(chunk: string): (line: string)
    ensures NUL !in line && LF !in line && |line| <= |chunk|
  {
    UpTo(UpTo(chunk, LF), NUL)
  }

  /** Everything cmd_get sends after START. */
  function FileStream(content: string): (s: string)
    ensures |s| > |END|
  {
    if content == "" then Framed(END)
    else
      var n := FgetsLength(content);
      Framed(LineOf(content[..n])) + FileStream(content[n..])
  }

  function GetStream(content: string): string {
    Framed(START) + FileStream(content)
  }

  method SendFile(sock: Socket, file: string)
    modifies sock`outbox
    ensures sock.outbox == old(sock.outbox) + FileStream(file)
  {
    var fp := file;
    while fp != ""
      invariant sock.outbox + FileStream(fp) == old(sock.outbox) + FileStream(file)
      decreases |fp|
    {
      var n := FgetsLength(fp);
      var buf := fp[..n];
      Associative(sock.outbox, Framed(LineOf(buf)), FileStream(fp[n..]));
      sock.SendLine(LineOf(buf));
      fp := fp[n..];
    }
    sock.SendLine(END);
  }

  // ---- The client's side --------------------------------------------------------------

  /** What the client wrote to its file, what it left unread, and whether it saw the END line
      (rather than a blank line or the end of the connection). */
  datatype Outcome = Outcome(text: string, rest: string, sawEnd: bool)

  function ClientGet(stream: string): Outcome
    decreases |stream|
  {
    match ReadLine(stream, BUF_SIZE)
    case Eof => Outcome("", "", false)
    case Line(buf, rest) =>
      var line := UpTo(buf, NUL);
      if buf == "" then Outcome("", rest, false)
      else if line == START then ClientGet(rest)
      else if line == END then Outcome("", rest, true)
      else
        var more := ClientGet(rest);
        more.(text := line + [LF] + more.text)
  }

  /** The outcome for a client that has already written `text`. */
  function After(text: string, more: Outcome): Outcome {
    more.(text := text + more.text)
  }

  lemma AfterStep(text: string, stream: string)
    ensures After(text, ClientGet(stream)) ==
            match ReadLine(stream, BUF_SIZE)
            case Eof => Outcome(text, "", false)
            case Line(buf, rest) =>
              var line := UpTo(buf, NUL);
              if buf == "" then Outcome(text, rest, false)
              else if line == START then After(text, ClientGet(rest))
              else if line == END then Outcome(text, rest, true)
              else After(text + line + [LF], ClientGet(rest))
  {
    var got := ReadLine(stream, BUF_SIZE);
    assert text + "" == text;
    if got.Line? && got.text != "" {
      var line := UpTo(got.text, NUL);
      var more := ClientGet(got.rest).text;
      Associative(text, line + [LF], more);
      Associative(text, line, [LF]);
    }
  }

  method Receive(sock: Socket, buf: array<char>) returns (fp: string)
    requires buf.Length == BUF_SIZE
    modifies sock`inbox, buf
    ensures var got := ClientGet(old(sock.inbox)); fp == got.text && sock.inbox == got.rest
  {
    fp := "";
    ghost var all := ClientGet(sock.inbox);
    while true
      invariant all == After(fp, ClientGet(sock.inbox))
      decreases |sock.inbox|
    {
      AfterStep(fp, sock.inbox);
      var n := sock.RecvLine(buf);
      if n <= 0 { return; }
      var line := UpTo(buf[..n], NUL);
      if line == START { continue; }
      if line == END { return; }
      fp := fp + line + [LF];
    }
  }

  // ---- When the download is exact -----------------------------------------------------

  /** The file as text: a last line without a newline gets one. */
  function Normalized(content: string): string {
    if content == "" || content[|content| - 1] == LF then content else content + [LF]
  }

  /** A line the download can carry. */
  predicate GoodLine(line: string) {
    0 < |line| <= BUF_SIZE - 2 && NUL !in line && line != START && line != END
  }

  function FirstLine(content: string): string {
    content[..IndexOf(content, LF)]
  }

  function AfterLine(content: string): (rest: string)
    ensures content != "" ==> |rest| < |content|
  {
    var k := IndexOf(content, LF);
    if k < |content| then content[k + 1..] else ""
  }

  predicate Downloadable(content: string)
    decreases |content|
  {
    content != "" ==> GoodLine(FirstLine(content)) && Downloadable(AfterLine(content))
  }

  lemma NormalizedSplits(content: string)
    requires content != ""
    ensures Normalized(content) == FirstLine(content) + [LF] + Normalized(AfterLine(content))
  {
    var k := IndexOf(content, LF);
    var (line, rest) := (FirstLine(content), AfterLine(content));
    if k < |content| {
      assert content == line + [LF] + rest;
      if rest == "" {
        assert content[|content| - 1] == LF && line + [LF] + "" == line + [LF];
      } else {
        assert content[|content| - 1] == rest[|rest| - 1];
        Associative(line + [LF], rest, [LF]);
      }
    } else {
      assert line == content && line + [LF] + "" == line + [LF];
    }
  }

  /** fgets takes a line that fits whole. */
  lemma ShortLineIsOneChunk(content: string)
    requires content != "" && |FirstLine(content)| <= BUF_SIZE - 2 && NUL !in FirstLine(content)
    ensures var n := FgetsLength(content);
            LineOf(content[..n]) == FirstLine(content) && content[n..] == AfterLine(content)
  {
    var k := IndexOf(content, LF);
    var n := FgetsLength(content);
    var chunk := content[..n];
    if k < |content| {
      assert chunk[k] == LF && IndexOf(chunk, LF) == k;
      assert chunk[..k] == FirstLine(content);
    } else {
      assert chunk == content && content[n..] == "";
    }
  }

  /** And it is sent in one frame of its own. */
  lemma ShortLineIsSent(content: string)
    requires content != "" && |FirstLine(content)| <= BUF_SIZE - 2 && NUL !in FirstLine(content)
    ensures FileStream(content) == Framed(FirstLine(content)) + FileStream(AfterLine(content))
  {
    ShortLineIsOneChunk(content);
  }

  /** What the client makes of one clean frame. */
  lemma ClientTakesLine(line: string, rest: string)
    requires Clean(line) && line != ""
    ensures ClientGet(Framed(line) + rest) ==
            if line == START then ClientGet(rest)
            else if line == END then Outcome("", rest, true)
            else ClientGet(rest).(text := line + [LF] + ClientGet(rest).text)
  {
    FramingRoundTrips(line, rest);
  }

  lemma EndArrives(tail: string)
    ensures ClientGet(FileStream("") + tail) == Outcome("", tail, true)
  {
    ClientTakesLine(END, tail);
  }

  lemma {:induction false} GoodFilesArrive(content: string, tail: string)
    requires Downloadable(content)
    ensures ClientGet(FileStream(content) + tail) == Outcome(Normalized(content), tail, true)
    decreases |content|
  {
    if content == "" {
      EndArrives(tail);
    } else {
      var line := FirstLine(content);
      var rest := AfterLine(content);
      ShortLineIsSent(content);
      GoodFilesArrive(rest, tail);
      ClientTakesLine(line, FileStream(rest) + tail);
      Associative(Framed(line), FileStream(rest), tail);
      NormalizedSplits(content);
    }
  }

  // ---- And when it is not -------------------------------------------------------------

  /** The client writes no NUL. */
  lemma {:induction false} ClientWritesNoNul(stream: string)
    ensures NUL !in ClientGet(stream).text
    decreases |stream|
  {
    var got := ReadLine(stream, BUF_SIZE);
    if got.Line? && got.text != "" {
      ClientWritesNoNul(got.rest);
    }
  }

  predicate StartsWithLine(text: string, line: string) {
    IndexOf(text, LF) < |text| && FirstLine(text) == line
  }

  lemma FirstLineOf(line: string, more: string)
    requires LF !in line
    ensures StartsWithLine(line + [LF] + more, line)
  {
    var text := line + [LF] + more;
    assert text[|line|] == LF;
    assert forall i :: 0 <= i < |line| ==> text[i] == line[i];
    assert IndexOf(text, LF) == |line| && text[..|line|] == line;
  }

  /** The client's file never begins with a START line. */
  lemma {:induction false} ClientSkipsStart(stream: string)
    ensures !StartsWithLine(ClientGet(stream).text, START)
    decreases |stream|
  {
    var got := ReadLine(stream, BUF_SIZE);
    if got.Line? && got.text != "" {
      ClientSkipsStart(got.rest);
      FirstLineOf(UpTo(got.text, NUL), ClientGet(got.rest).text);
    }
  }

  lemma BlankLineStops(rest: string)
    ensures !ClientGet([LF] + rest).sawEnd
  {
    assert ([LF] + rest)[..0] == "";
  }

  /** A blank first line is sent as an empty frame. */
  lemma BlankLineIsSent(content: string)
    requires content != "" && content[0] == LF
    ensures FileStream(content) == [LF] + FileStream(content[1..])
  {
    assert FgetsLength(content) == 1;
    assert content[..1][0] == LF && LineOf(content[..1]) == "";
    assert Framed("") == [LF];
  }

  /** A first line of 4095 bytes or more goes out in pieces, the first closed by a NUL. */
  lemma LongLineIsCut(content: string, tail: string)
    requires |FirstLine(content)| >= BUF_SIZE - 1 && NUL !in content
    ensures FileStream(content) + tail
         == content[..BUF_SIZE - 1] + ([NUL] + (FileStream(content[BUF_SIZE - 1..]) + tail))
  {
    var chunk := content[..BUF_SIZE - 1];
    var later := FileStream(content[BUF_SIZE - 1..]);
    assert FgetsLength(content) == BUF_SIZE - 1;
    assert LF !in chunk && LineOf(chunk) == chunk;
    assert FileStream(content) == (chunk + [NUL]) + later;
    Associative(chunk + [NUL], later, tail);
    Associative(chunk, [NUL], later + tail);
  }

  /** Reading on from such a NUL: the client writes an empty line first, or never finishes. */
  lemma AfterTheNul(rest: string)
    ensures var got := ClientGet([NUL] + rest);
            !got.sawEnd || (got.text != "" && got.text[0] == LF)
  {
    var got := ReadLine([NUL] + rest, BUF_SIZE);
    if got.Line? {
      assert got.text != "" && got.text[0] == NUL;
      assert UpTo(got.text, NUL) == "";
    }
  }

  lemma LineThenRest(line: string, rest: string)
    requires LF !in line
    ensures var content := line + ([LF] + rest);
            && IndexOf(content, LF) == |line| < |content|
            && FirstLine(content) == line && AfterLine(content) == rest
            && content[..|line|] == line && content[|line|..] == [LF] + rest
            && content == line + [LF] + rest
  {
    var content := line + ([LF] + rest);
    assert content[|line|] == LF;
    assert content[..|line|] == line;
    assert content[|line|..] == [LF] + rest;
    IndexOfFirst(content, LF, |line|);
    assert content[|line| + 1..] == rest;
    Associative(line, [LF], rest);
  }

  lemma ReadsLine(line: string, rest: string)
    requires LF !in line && |line| <= BUF_SIZE - 2
    ensures ReadLine(line + ([LF] + rest), BUF_SIZE) == Line(line, rest)
  {
    LineThenRest(line, rest);
    assert (line + ([LF] + rest))[|line| + 1..] == rest;
  }

  lemma WritesLine(stream: string, buf: string, rest: string, line: string)
    requires ReadLine(stream, BUF_SIZE) == Line(buf, rest) && buf != ""
    requires line == UpTo(buf, NUL) && line != START && line != END
    ensures ClientGet(stream) == ClientGet(rest).(text := line + [LF] + ClientGet(rest).text)
  {
  }

  /** A NUL and then a newline: exactly one empty line is written. */
  lemma AfterTheNulAndNewline(rest: string)
    ensures var more := ClientGet(rest);
            ClientGet([NUL] + ([LF] + rest)) == more.(text := [LF] + more.text)
  {
    ReadsLine([NUL], rest);
    assert UpTo([NUL], NUL) == "";
    WritesLine([NUL] + ([LF] + rest), [NUL], rest, "");
    assert "" + [LF] == [LF];
  }

  lemma LongLineIsReceived(chunk: string, rest: string)
    requires |chunk| == BUF_SIZE - 1 && LF !in chunk && NUL !in chunk
    ensures var more := ClientGet(rest);
            ClientGet(chunk + rest) == more.(text := chunk + [LF] + more.text)
  {
    var stream := chunk + rest;
    assert stream[..BUF_SIZE - 1] == chunk && stream[BUF_SIZE - 1..] == rest;
    assert IndexOf(stream, LF) >= BUF_SIZE - 1 by {
      assert forall i :: 0 <= i < |chunk| ==> stream[i] == chunk[i];
    }
  }

  predicate Exact(content: string, tail: string) {
    ClientGet(FileStream(content) + tail) == Outcome(Normalized(content), tail, true)
  }

  lemma DifferAfter(a: string, b: string, c: string)
    requires b != c
    ensures a + b != a + c
  {
    assert (a + b)[|a|..] == b && (a + c)[|a|..] == c;
  }

  /** The line is exactly 4095 bytes: its newline comes as an extra empty line. */
  lemma CutBeforeNewline(chunk: string, rest: string, tail: string)
    requires |chunk| == BUF_SIZE - 1 && LF !in chunk && NUL !in chunk && NUL !in rest
    ensures var more := ClientGet(FileStream(rest) + tail);
            var got := ClientGet(FileStream(chunk + ([LF] + rest)) + tail);
            got == more.(text := chunk + [LF] + ([LF] + more.text))
  {
    LineThenRest(chunk, rest);
    LongLineIsCut(chunk + ([LF] + rest), tail);
    BlankLineIsSent([LF] + rest);
    assert ([LF] + rest)[1..] == rest;
    Associative([LF], FileStream(rest), tail);
    var stream := FileStream(rest) + tail;
    LongLineIsReceived(chunk, [NUL] + ([LF] + stream));
    AfterTheNulAndNewline(stream);
  }

  lemma ExtraLineShows(chunk: string, rest: string, more: string)
    requires LF !in chunk && (rest == "" || rest[0] != LF)
    ensures Normalized(chunk + ([LF] + rest)) != chunk + [LF] + ([LF] + more)
  {
    LineThenRest(chunk, rest);
    NormalizedSplits(chunk + ([LF] + rest));
    assert rest != "" ==> Normalized(rest)[0] == rest[0];
    DifferAfter(chunk + [LF], [LF] + more, Normalized(rest));
  }

  lemma BlankFirstLineStops(content: string, tail: string)
    requires content != "" && content[0] == LF
    ensures !ClientGet(FileStream(content) + tail).sawEnd
  {
    BlankLineIsSent(content);
    Associative([LF], FileStream(content[1..]), tail);
    BlankLineStops(FileStream(content[1..]) + tail);
  }

  lemma ExactlyTooLongFails(chunk: string, rest: string, tail: string)
    requires |chunk| == BUF_SIZE - 1 && LF !in chunk && NUL !in chunk && NUL !in rest
    ensures !Exact(chunk + ([LF] + rest), tail)
  {
    CutBeforeNewline(chunk, rest, tail);
    if rest != "" && rest[0] == LF {
      BlankFirstLineStops(rest, tail);
    } else {
      ExtraLineShows(chunk, rest, ClientGet(FileStream(rest) + tail).text);
    }
  }

  lemma LongTextDiffers(content: string, more: string)
    requires |content| >= BUF_SIZE - 1 && LF !in content[..BUF_SIZE - 1]
    requires |content| == BUF_SIZE - 1 || content[BUF_SIZE - 1] != LF
    requires more != "" && more[0] == LF
    ensures Normalized(content) != content[..BUF_SIZE - 1] + [LF] + more
  {
    var text := content[..BUF_SIZE - 1] + [LF] + more;
    assert text[BUF_SIZE - 1] == LF;
    if |content| == BUF_SIZE - 1 {
      assert |Normalized(content)| <= BUF_SIZE < |text|;
    } else {
      assert Normalized(content)[BUF_SIZE - 1] == content[BUF_SIZE - 1];
    }
  }

  /** The line goes on beyond 4095 bytes, or the file ends there. */
  lemma LongerFails(content: string, tail: string)
    requires |FirstLine(content)| >= BUF_SIZE - 1 && NUL !in content
    requires |content| == BUF_SIZE - 1 || content[BUF_SIZE - 1] != LF
    ensures !Exact(content, tail)
  {
    var chunk := content[..BUF_SIZE - 1];
    var stream := FileStream(content[BUF_SIZE - 1..]) + tail;
    LongLineIsCut(content, tail);
    LongLineIsReceived(chunk, [NUL] + stream);
    AfterTheNul(stream);
    var more := ClientGet([NUL] + stream);
    if more.sawEnd {
      LongTextDiffers(content, more.text);
    }
  }

  lemma LongLineFails(content: string, tail: string)
    requires |FirstLine(content)| >= BUF_SIZE - 1 && NUL !in content
    ensures !Exact(content, tail)
  {
    var chunk := content[..BUF_SIZE - 1];
    var after := content[BUF_SIZE - 1..];
    if after != "" && after[0] == LF {
      assert content == chunk + ([LF] + after[1..]);
      ExactlyTooLongFails(chunk, after[1..], tail);
    } else {
      LongerFails(content, tail);
    }
  }

  lemma NulFails(content: string, tail: string)
    requires NUL in content
    ensures !Exact(content, tail)
  {
    ClientWritesNoNul(FileStream(content) + tail);
    assert NUL in Normalized(content);
  }

  lemma StartLineFails(content: string, tail: string)
    requires content != "" && FirstLine(content) == START
    ensures !Exact(content, tail)
  {
    ClientSkipsStart(FileStream(content) + tail);
    NormalizedSplits(content);
    FirstLineOf(START, Normalized(AfterLine(content)));
  }

  lemma EndLineFails(content: string, tail: string)
    requires content != "" && FirstLine(content) == END
    ensures !Exact(content, tail)
  {
    var rest := AfterLine(content);
    ShortLineIsSent(content);
    Associative(Framed(END), FileStream(rest), tail);
    ClientTakesLine(END, FileStream(rest) + tail);
  }

  lemma {:induction false} BadFilesDoNotArrive(content: string, tail: string)
    requires !Downloadable(content)
    ensures !Exact(content, tail)
    decreases |content|
  {
    var line := FirstLine(content);
    var rest := AfterLine(content);
    if NUL in content {
      NulFails(content, tail);
    } else if line == "" {
      BlankFirstLineStops(content, tail);
    } else if |line| >= BUF_SIZE - 1 {
      LongLineFails(content, tail);
    } else if line == START {
      StartLineFails(content, tail);
    } else if line == END {
      EndLineFails(content, tail);
    } else {
      BadFilesDoNotArrive(rest, tail);
      ShortLineIsSent(content);
      Associative(Framed(line), FileStream(rest), tail);
      ClientTakesLine(line, FileStream(rest) + tail);
      NormalizedSplits(content);
      if ClientGet(FileStream(rest) + tail).text != Normalized(rest) {
        DifferAfter(line + [LF], ClientGet(FileStream(rest) + tail).text, Normalized(rest));
      }
    }
  }

  /** A download is exact, byte for byte up to a final newline and with the END line the last
      thing taken from the connection, for precisely the files without NULs whose lines are 1
      to 4094 bytes long and none of which is START or the END marker. */
  lemma {:induction false} DownloadIsExactIff(content: string, tail: string)
    ensures ClientGet(GetStream(content) + tail) == Outcome(Normalized(content), tail, true)
            <==> Downloadable(content)
  {
    Associative(Framed(START), FileStream(content), tail);
    ClientTakesLine(START, FileStream(content) + tail);
    if Downloadable(content) {
      GoodFilesArrive(content, tail);
    } else {
      BadFilesDoNotArrive(content, tail);
    }
  }
}
