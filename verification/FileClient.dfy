/** The file client's own code (week5/Iclient.c): the command loop over a socket and the local
    files. Every execution is a run of the session machine's client on the same typed lines, up
    to the point where that is blocked or done. */
module FileClient {
  import opened Sequences
  import opened Lines
  import opened Session
  import opened Solo
  import Download
  import Upload

  /** A line the user typed, without its newline, and whether a download's output would open. */
  datatype Typing = Typing(input: string, outputOpens: bool)

  predicate Typable(l: Typing) {
    Sendable(l.input) && LF !in l.input
  }

  function Types(l: Typing): Event {
    ClientTypes(l.input, l.outputOpens)
  }

  /** A session as the client finds it: these bytes are going to arrive, nothing was sent. */
  function Begin(texts: Texts, inbox: string, locals: map<string, string>): State {
    State(texts, CPrompt, SClosed, "", inbox, map[], locals, [], [])
  }

  /** The client's runs from there in which it has taken k lines from the user. */
  function TypedLines(start: State, typed: nat -> Typing, k: nat): Origin {
    Origin(ClientSide, start, seq(k, (i: nat) => Types(typed(i))))
  }

  lemma OneMoreInput(start: State, typed: nat -> Typing, k: nat)
    ensures Took(TypedLines(start, typed, k), Types(typed(k))) == TypedLines(start, typed, k + 1)
  {
  }

  ghost predicate SizeFits(o: Origin) {
    forall t :: ClientReaches(o, t) && t.client.CReady? ==> |t.client.content| <= Upload.LONG_MAX
  }

  /** No file the user uploads is larger than ftell can say. */
  ghost predicate SizesFit(start: State, typed: nat -> Typing) {
    forall k: nat :: SizeFits(TypedLines(start, typed, k))
  }

  predicate Waiting(client: Client) {
    client.CPrompt? || client.CList? || client.CGet? || client.CReady? || client.CDone? || client.COther?
  }

  predicate Blocked(s: State) {
    || s.client.CInput? || s.client.CClosed?
    || (Waiting(s.client) && ReadLine(s.s2c, BUF_SIZE).Eof?)
  }

  function OutputPath(name: string): string {
    Path("downloaded_", name)
  }

  /** The local files, with the download under way as far as it is written. */
  function Saved(s: State): map<string, string> {
    if s.client.CGet? then s.locals[OutputPath(s.client.name) := s.client.text] else s.locals
  }

  // ---- What the machine does in each branch -------------------------------------------

  /** One line from the server is taken. */
  ghost function Taken(s: State, rest: string, client: Client): State {
    s.(s2c := rest, client := client)
  }

  lemma Prompted(o: Origin, s: State)
    requires ClientReaches(o, s) && s.client.CPrompt? && s.down == []
    requires var got := ReadLine(s.s2c, BUF_SIZE); got.Line? && got.text != ""
    ensures ClientReaches(o, Taken(s, ReadLine(s.s2c, BUF_SIZE).rest, CInput))
  {
    ReachesNext(o, s, ClientReads);
  }

  /** A blank line instead of the prompt ends the client; so does the end of the stream. */
  lemma NotPrompted(o: Origin, s: State) returns (t: State)
    requires ClientReaches(o, s) && s.client.CPrompt? && s.down == []
    requires var got := ReadLine(s.s2c, BUF_SIZE); got.Line? ==> got.text == ""
    ensures ClientReaches(o, t) && Blocked(t) && !t.client.CInput?
    ensures t.c2s == s.c2s && Saved(t) == s.locals
  {
    t := s;
    if ReadLine(s.s2c, BUF_SIZE).Line? {
      ReachesNext(o, s, ClientReads);
      t := Apply(s, ClientReads);
    }
  }

  lemma TypedIn(o: Origin, s: State, l: Typing)
    requires ClientReaches(o, s) && s.client.CInput? && Typable(l)
    ensures ClientReaches(Took(o, Types(l)), Typed(s, l.input, l.outputOpens))
  {
    ReachesNext(o, s, Types(l));
  }

  /** The inner loop of `list`: what it leaves unread, and whether it found its end. */
  datatype Skipped = Skipped(rest: string, ended: bool)

  function Skip(stream: string): Skipped
    decreases |stream|
  {
    match ReadLine(stream, BUF_SIZE)
    case Eof => Skipped("", false)
    case Line(buf, rest) =>
      if buf == "" || UpTo(buf, NUL) == Download.END then Skipped(rest, true) else Skip(rest)
  }

  lemma {:induction false} SkipRuns(o: Origin, s: State) returns (t: State)
    requires ClientReaches(o, s) && s.client.CList? && s.down == []
    ensures ClientReaches(o, t)
    ensures if Skip(s.s2c).ended then t == Taken(s, Skip(s.s2c).rest, CPrompt)
            else t == Taken(s, t.s2c, CList) && Blocked(t)
    decreases |s.s2c|
  {
    t := s;
    var got := ReadLine(s.s2c, BUF_SIZE);
    if got.Line? {
      ReachesNext(o, s, ClientReads);
      t := Apply(s, ClientReads);
      if t.client.CList? {
        assert t == Taken(s, got.rest, CList);
        t := SkipRuns(o, t);
      }
    }
  }

  /** The inner loop of `get` finds its end, an END line or a blank one. */
  predicate GetEnds(stream: string)
    decreases |stream|
  {
    match ReadLine(stream, BUF_SIZE)
    case Eof => false
    case Line(buf, rest) => buf == "" || UpTo(buf, NUL) == Download.END || GetEnds(rest)
  }

  /** What one line does to a download. */
  lemma GetStep(s: State, name: string, text: string)
    requires s.client == CGet(name, text) && s.down == [] && ReadLine(s.s2c, BUF_SIZE).Line?
    ensures Enabled(s, ClientReads)
    ensures var got := ReadLine(s.s2c, BUF_SIZE);
            var line := UpTo(got.text, NUL);
            var t := Apply(s, ClientReads);
            if got.text == "" || line == Download.END
            then t == Taken(s, got.rest, CPrompt).(locals := s.locals[OutputPath(name) := text], done := t.done)
            else t == Taken(s, got.rest, CGet(name, if line == Download.START then text else text + line + [LF]))
  {
  }

  /** Where a download stands once the stream has been read. */
  ghost predicate Got(s: State, t: State, name: string, text: string) {
    var got := Download.After(text, Download.ClientGet(s.s2c));
    if GetEnds(s.s2c)
    then t == Taken(s, got.rest, CPrompt).(locals := s.locals[OutputPath(name) := got.text], done := t.done)
    else t == Taken(s, t.s2c, CGet(name, got.text)) && Blocked(t) && got.rest == ""
  }

  lemma {:induction false} GetRuns(o: Origin, s: State, name: string, text: string) returns (t: State)
    requires ClientReaches(o, s) && s.client == CGet(name, text) && s.down == []
    ensures ClientReaches(o, t) && Got(s, t, name, text)
    decreases |s.s2c|
  {
    Download.AfterStep(text, s.s2c);
    var got := ReadLine(s.s2c, BUF_SIZE);
    t := s;
    if got.Line? {
      GetStep(s, name, text);
      ReachesNext(o, s, ClientReads);
      t := Apply(s, ClientReads);
      if t.client.CGet? {
        t := GetRuns(o, t, name, t.client.text);
      }
    }
  }

  /** The rest of an upload, from chunk to chunk. */
  ghost function Uploaded(s: State, name: string, content: string, sent: nat): State
    requires sent <= |content|
  {
    s.(c2s := s.c2s + content[sent..], client := CDone(name, content))
  }

  lemma ChunkShape(s: State, name: string, content: string, sent: nat)
    requires s.client == CData(name, content, sent) && sent <= |content|
    ensures Enabled(s, ClientSendsChunk)
    ensures var end := if sent + BUF_SIZE < |content| then sent + BUF_SIZE else |content|;
            Apply(s, ClientSendsChunk)
            == if sent == |content| then s.(client := CDone(name, content))
               else s.(c2s := s.c2s + content[sent..end], client := CData(name, content, end))
  {
  }

  lemma {:induction false} ChunksRun(o: Origin, s: State, name: string, content: string, sent: nat)
    requires ClientReaches(o, s) && s.client == CData(name, content, sent) && sent <= |content|
    ensures ClientReaches(o, Uploaded(s, name, content, sent))
    decreases |content| - sent
  {
    ChunkShape(s, name, content, sent);
    ReachesNext(o, s, ClientSendsChunk);
    if sent == |content| {
      assert s.c2s + content[sent..] == s.c2s;
    } else {
      var end := if sent + BUF_SIZE < |content| then sent + BUF_SIZE else |content|;
      ChunksRun(o, s.(c2s := s.c2s + content[sent..end], client := CData(name, content, end)), name, content, end);
      assert content[sent..] == content[sent..end] + content[end..];
      Associative(s.c2s, content[sent..end], content[end..]);
    }
  }

  lemma UploadRuns(o: Origin, s: State, name: string, content: string)
    requires ClientReaches(o, s) && s.client == CSize(name, content) && |content| <= Upload.LONG_MAX
    ensures ClientReaches(o, s.(c2s := s.c2s + Upload.UploadStream(content), client := CDone(name, content)))
  {
    ReachesNext(o, s, ClientSendsSize);
    var t := Apply(s, ClientSendsSize);
    var frame := Upload.SizeFrame(|content|);
    assert t == s.(c2s := s.c2s + frame, client := CData(name, content, 0));
    ChunksRun(o, t, name, content, 0);
    assert content[0..] == content;
    Associative(s.c2s, frame, content);
  }

  /** The client reads the last line of an exchange. */
  lemma LastLine(o: Origin, s: State) returns (t: State)
    requires ClientReaches(o, s) && s.down == [] && (s.client.CDone? || s.client.COther?)
    ensures ClientReaches(o, t)
    ensures match ReadLine(s.s2c, BUF_SIZE)
            case Eof => t == s && Blocked(t)
            case Line(_, rest) => t == Taken(s, rest, CPrompt).(done := t.done)
  {
    t := s;
    if ReadLine(s.s2c, BUF_SIZE).Line? {
      ReachesNext(o, s, ClientReads);
      t := Apply(s, ClientReads);
    }
  }

  /** What the client does after sending a load command: what it sends, what it leaves unread,
      and whether it goes on to the next prompt. */
  datatype Loaded = Loaded(sent: string, rest: string, goOn: bool)

  function Exchange(stream: string, content: string): Loaded
    requires |content| <= Upload.LONG_MAX
  {
    match ReadLine(stream, BUF_SIZE)
    case Eof => Loaded("", "", false)
    case Line(buf, rest) =>
      if buf == "" then Loaded("", rest, false)
      else if UpTo(buf, NUL) != Upload.READY then Loaded("", rest, true)
      else match ReadLine(rest, BUF_SIZE)
        case Eof => Loaded(Upload.UploadStream(content), "", true)
        case Line(_, later) => Loaded(Upload.UploadStream(content), later, true)
  }

  /** The code's place between two commands: at the prompt with the machine, or past the end of
      the stream on which the machine is blocked. */
  ghost predicate Matches(t: State, locals: map<string, string>, inbox: string, sent: string) {
    && t.down == [] && sent == t.c2s && locals == Saved(t)
    && if t.client.CPrompt? then inbox == t.s2c else Waiting(t.client) && Blocked(t) && inbox == ""
  }

  /** The same once the client has left its loop. */
  ghost predicate Left(t: State, locals: map<string, string>, sent: string) {
    Blocked(t) && sent == t.c2s && locals == Saved(t)
  }

  ghost predicate LoadServed(s: State, t: State, content: string)
    requires |content| <= Upload.LONG_MAX
  {
    var l := Exchange(s.s2c, content);
    if l.goOn then Matches(t, s.locals, l.rest, s.c2s + l.sent)
    else Left(t, s.locals, s.c2s + l.sent) && !t.client.CInput?
  }

  lemma ReadyStep(s: State, name: string, content: string)
    requires s.client == CReady(name, content) && s.down == [] && ReadLine(s.s2c, BUF_SIZE).Line?
    ensures Enabled(s, ClientReads)
    ensures var got := ReadLine(s.s2c, BUF_SIZE);
            Apply(s, ClientReads) == Taken(s, got.rest,
              if got.text == "" then CClosed
              else if UpTo(got.text, NUL) == Upload.READY then CSize(name, content) else CPrompt)
  {
  }

  lemma LoadRuns(o: Origin, s: State, name: string, content: string) returns (t: State)
    requires ClientReaches(o, s) && s.client == CReady(name, content) && s.down == []
    requires |content| <= Upload.LONG_MAX
    ensures ClientReaches(o, t) && LoadServed(s, t, content)
  {
    assert s.c2s + "" == s.c2s;
    t := s;
    if ReadLine(s.s2c, BUF_SIZE).Line? {
      ReadyStep(s, name, content);
      ReachesNext(o, s, ClientReads);
      t := Apply(s, ClientReads);
      if t.client.CSize? {
        UploadRuns(o, t, name, content);
        t := LastLine(o, t.(c2s := t.c2s + Upload.UploadStream(content), client := CDone(name, content)));
      }
    }
  }

  lemma {:induction false} SkipRest(stream: string)
    ensures !Skip(stream).ended ==> Skip(stream).rest == ""
    ensures |Skip(stream).rest| <= |stream|
    decreases |stream|
  {
    var got := ReadLine(stream, BUF_SIZE);
    if got.Line? && got.text != "" && UpTo(got.text, NUL) != Download.END {
      SkipRest(got.rest);
    }
  }

  lemma SkipMatches(s: State, t: State)
    requires s.client.CList? && s.down == []
    requires if Skip(s.s2c).ended then t == Taken(s, Skip(s.s2c).rest, CPrompt)
             else t == Taken(s, t.s2c, CList) && Blocked(t)
    ensures Matches(t, s.locals, Skip(s.s2c).rest, s.c2s)
  {
    SkipRest(s.s2c);
  }

  lemma {:induction false} GetRest(stream: string)
    ensures |Download.ClientGet(stream).rest| <= |stream|
    decreases |stream|
  {
    var got := ReadLine(stream, BUF_SIZE);
    if got.Line? && got.text != "" {
      GetRest(got.rest);
    }
  }

  lemma GotMatches(s: State, t: State, name: string)
    requires s.down == [] && Got(s, t, name, "")
    ensures var got := Download.ClientGet(s.s2c);
            Matches(t, s.locals[OutputPath(name) := got.text], got.rest, s.c2s)
  {
    assert "" + Download.ClientGet(s.s2c).text == Download.ClientGet(s.s2c).text;
  }

  lemma ListTurn(o: Origin, s: State) returns (t: State)
    requires ClientReaches(o, s) && s.client.CList? && s.down == []
    ensures ClientReaches(o, t) && Matches(t, s.locals, Skip(s.s2c).rest, s.c2s)
    ensures |Skip(s.s2c).rest| <= |s.s2c|
  {
    t := SkipRuns(o, s);
    SkipMatches(s, t);
    SkipRest(s.s2c);
  }

  /** The command has been sent; the download runs if its output opened. */
  lemma GetTurn(o: Origin, s: State, name: string) returns (t: State)
    requires ClientReaches(o, s) && (s.client == CGet(name, "") || s.client.CPrompt?) && s.down == []
    ensures ClientReaches(o, t)
    ensures var got := Download.ClientGet(s.s2c);
            && |got.rest| <= |s.s2c|
            && if s.client.CPrompt? then t == s && Matches(t, s.locals, s.s2c, s.c2s)
               else Matches(t, s.locals[OutputPath(name) := got.text], got.rest, s.c2s)
  {
    t := s;
    GetRest(s.s2c);
    if s.client.CGet? {
      t := GetRuns(o, s, name, "");
      GotMatches(s, t, name);
    }
  }

  lemma LoadTurn(o: Origin, s: State, name: string, before: string) returns (t: State, sent: string)
    requires ClientReaches(o, s) && SizeFits(o) && s.client.CReady? && s.client.name == name && s.down == []
    ensures |s.client.content| <= Upload.LONG_MAX
    ensures var l := Exchange(s.s2c, s.client.content);
            && |l.rest| <= |s.s2c| && before + s.c2s + l.sent == before + sent
            && ClientReaches(o, t)
            && if l.goOn then Matches(t, s.locals, l.rest, sent) else Left(t, s.locals, sent) && !t.client.CInput?
  {
    var content := s.client.content;
    t := LoadRuns(o, s, name, content);
    sent := s.c2s + Exchange(s.s2c, content).sent;
    Associative(before, s.c2s, Exchange(s.s2c, content).sent);
  }

  lemma OtherTurn(o: Origin, s: State) returns (t: State)
    requires ClientReaches(o, s) && s.client.COther? && s.down == []
    ensures ClientReaches(o, t)
    ensures match ReadLine(s.s2c, BUF_SIZE)
            case Eof => Matches(t, s.locals, "", s.c2s)
            case Line(_, rest) => Matches(t, s.locals, rest, s.c2s)
  {
    t := LastLine(o, s);
  }

  // ---- The code -----------------------------------------------------------------------

  class Console {
    const sock: Socket
    var locals: map<string, string>

    constructor (sock: Socket, locals: map<string, string>)
      ensures this.sock == sock && this.locals == locals
    {
      this.sock := sock;
      this.locals := locals;
    }

    /** Iclient.c's `list` branch. */
    method CmdList(input: string, buf: array<char>)
      requires Sendable(input) && buf.Length == BUF_SIZE
      modifies sock, buf
      ensures sock.outbox == old(sock.outbox) + Framed(input) && sock.inbox == Skip(old(sock.inbox)).rest
    {
      sock.SendLine(input);
      while true
        invariant Skip(sock.inbox).rest == Skip(old(sock.inbox)).rest
        invariant sock.outbox == old(sock.outbox) + Framed(input)
        decreases |sock.inbox|
      {
        var n := sock.RecvLine(buf);
        if n <= 0 { break; }
        if UpTo(buf[..n], NUL) == Download.END { break; }
      }
    }

    /** Its `get` branch. */
    method CmdGet(input: string, name: string, outputOpens: bool, buf: array<char>)
      requires Sendable(input) && buf.Length == BUF_SIZE
      modifies this`locals, sock, buf
      ensures sock.outbox == old(sock.outbox) + Framed(input)
      ensures var got := Download.ClientGet(old(sock.inbox));
              if outputOpens then locals == old(locals)[OutputPath(name) := got.text] && sock.inbox == got.rest
              else locals == old(locals) && sock.inbox == old(sock.inbox)
    {
      sock.SendLine(input);
      if !outputOpens { return; }
      var fp := Download.Receive(sock, buf);
      locals := locals[OutputPath(name) := fp];
    }

    /** Its `load` branch, once the local file is open. */
    method CmdLoad(input: string, content: string, buf: array<char>) returns (goOn: bool)
      requires Sendable(input) && |content| <= Upload.LONG_MAX && buf.Length == BUF_SIZE
      modifies sock, buf
      ensures var l := Exchange(old(sock.inbox), content);
              && goOn == l.goOn && sock.inbox == l.rest
              && sock.outbox == old(sock.outbox) + Framed(input) + l.sent
    {
      sock.SendLine(input);
      var n := sock.RecvLine(buf);
      if n <= 0 { return false; }
      if UpTo(buf[..n], NUL) != Upload.READY { return true; }
      Upload.SendUpload(sock, content);
      n := sock.RecvLine(buf);
      return true;
    }

    /** The last branch: any other command and its one-line answer. */
    method CmdOther(input: string, buf: array<char>)
      requires Sendable(input) && buf.Length == BUF_SIZE
      modifies sock, buf
      ensures sock.outbox == old(sock.outbox) + Framed(input)
      ensures match ReadLine(old(sock.inbox), BUF_SIZE)
              case Eof => sock.inbox == ""
              case Line(_, rest) => sock.inbox == rest
    {
      sock.SendLine(input);
      var n := sock.RecvLine(buf);
    }

    /** One turn of the loop after the prompt, with the machine's run beside it. */
    method Turn(l: Typing, buf: array<char>, ghost o: Origin, ghost s: State, ghost before: string)
      returns (goOn: bool, ghost t: State, ghost sent: string)
      requires ClientReaches(o, s) && SizeFits(Took(o, Types(l)))
      requires s.client.CInput? && s.down == [] && Typable(l) && buf.Length == BUF_SIZE
      requires locals == s.locals && sock.inbox == s.s2c && sock.outbox == before + s.c2s
      modifies this`locals, sock, buf
      ensures ClientReaches(Took(o, Types(l)), t) && sock.outbox == before + sent
      ensures if goOn then Matches(t, locals, sock.inbox, sent)
              else Left(t, locals, sent) && !t.client.CInput?
      ensures |sock.inbox| <= |old(sock.inbox)|
    {
      goOn := true;
      TypedIn(o, s, l);
      t := Typed(s, l.input, l.outputOpens);
      sent := t.c2s;
      Associative(before, s.c2s, Framed(l.input));
      match Classify(l.input)
      case Quit =>
        sock.SendLine(l.input);
        goOn := false;
      case List =>
        t := ListTurn(Took(o, Types(l)), t);
        CmdList(l.input, buf);
      case Get(name) =>
        t := GetTurn(Took(o, Types(l)), t, name);
        CmdGet(l.input, name, l.outputOpens, buf);
      case Load(name) =>
        if name in locals {
          t, sent := LoadTurn(Took(o, Types(l)), t, name, before);
          goOn := CmdLoad(l.input, locals[name], buf);
        }
      case Other =>
        t := OtherTurn(Took(o, Types(l)), t);
        CmdOther(l.input, buf);
    }

    /** Every execution is a run of the machine's client on the same typed lines: it ends where
        the machine is blocked or closed, with the same local files and the same bytes sent. The
        user is left waiting for only when no typed line is left. */
    method Run(typed: nat -> Typing, available: nat, ghost texts: Texts) returns (ghost t: State, ghost k: nat)
      requires forall i :: Typable(typed(i))
      requires SizesFit(Begin(texts, sock.inbox, locals), typed)
      modifies this`locals, sock
      ensures ClientReaches(TypedLines(Begin(texts, old(sock.inbox), old(locals)), typed, k), t)
      ensures k <= available && Blocked(t) && (t.client.CInput? ==> k == available)
      ensures locals == Saved(t) && sock.outbox == old(sock.outbox) + t.c2s
    {
      var buf := new char[BUF_SIZE];
      ghost var start, before, sent := Begin(texts, sock.inbox, locals), sock.outbox, "";
      var i := 0;
      ReachesItself(ClientSide, start);
      assert TypedLines(start, typed, 0) == Origin(ClientSide, start, []);
      t := start;
      while true
        invariant fresh(buf) && i <= available && ClientReaches(TypedLines(start, typed, i), t)
        invariant Matches(t, locals, sock.inbox, sent) && sock.outbox == before + sent
        decreases |sock.inbox|
      {
        OneMoreInput(start, typed, i);
        k := i;
        var n := sock.RecvLine(buf);
        if n <= 0 {
          if t.client.CPrompt? {
            t := NotPrompted(TypedLines(start, typed, i), t);
          }
          break;
        }
        Prompted(TypedLines(start, typed, i), t);
        t := Taken(t, sock.inbox, CInput);
        if i == available { break; }
        var goOn;
        goOn, t, sent := Turn(typed(i), buf, TypedLines(start, typed, i), t, before);
        k := i + 1;
        if !goOn { break; }
        i := i + 1;
      }
    }
  }
}
