/** The file server's own code (week5/Iserver.c): handle_client and the commands it calls, as
    loops over a socket and the server's files. Every execution is a run of the session
    machine's server, up to the point where that is blocked or done. */
module FileServer {
  import opened Sequences
  import opened Lines
  import opened Session
  import opened Solo
  import Download
  import Upload

  /** What the file system answers while one command is served. */
  datatype Env = Env(dirOpens: bool, names: seq<string>, fileOpens: bool)

  /** A session as the server finds it: these bytes are going to arrive, nothing was sent. */
  function Begin(texts: Texts, inbox: string, files: map<string, string>): State {
    State(texts, CPrompt, SSend([texts.commands], Loop), inbox, "", files, map[], [], [])
  }

  function Read(env: Env): Event {
    ServerReads(env.dirOpens, env.names, env.fileOpens)
  }

  /** The server's runs from there in which it has served k commands. */
  function Commands(start: State, env: nat -> Env, k: nat): Origin {
    Origin(ServerSide, start, seq(k, (i: nat) => Read(env(i))))
  }

  lemma OneMoreCommand(start: State, env: nat -> Env, k: nat)
    ensures Took(Commands(start, env, k), Read(env(k))) == Commands(start, env, k + 1)
  {
  }

  ghost predicate SizeFits(o: Origin) {
    forall t :: ServerReaches(o, t) && t.server.SData? ==> Upload.ToInt(t.server.size) >= 0
  }

  /** The client announces no upload whose size turns negative in the cast to int. */
  ghost predicate SizesFit(start: State, env: nat -> Env) {
    forall k: nat :: SizeFits(Commands(start, env, k))
  }

  predicate Blocked(s: State) {
    match s.server
    case SLoop => ReadLine(s.c2s, BUF_SIZE).Eof?
    case SSend(_, _) => false
    case SSize(_) => ReadLine(s.c2s, Upload.SIZE_BUF).Eof?
    case SData(_, size, received) => s.c2s == "" && Upload.ToRead(size, received) != 0
    case SClosed => true
  }

  /** The server has sent all its lines. */
  ghost function Sent(s: State): State
    requires s.server.SSend? && AllSendable(s.server.todo)
  {
    s.(server := Settled([], s.server.next), s2c := s.s2c + Frames(s.server.todo), down := s.down + s.server.todo)
  }

  lemma SendsOne(s: State)
    requires s.server.SSend? && s.server.todo != [] && AllSendable(s.server.todo)
    ensures var (line, more) := (s.server.todo[0], s.server.todo[1..]);
            && Enabled(s, ServerSends)
            && Apply(s, ServerSends) == s.(server := Settled(more, s.server.next),
                                           s2c := s.s2c + Framed(line), down := s.down + [line])
  {
  }

  /** Sending one line and then the others is sending them all. */
  lemma SentSplits(s: State, line: string, more: seq<string>)
    requires s.server.SSend? && s.server.todo == [line] + more && Sendable(line) && AllSendable(more)
    ensures AllSendable(s.server.todo)
    ensures Sent(s) == s.(server := Settled([], s.server.next),
                          s2c := s.s2c + Framed(line) + Frames(more), down := s.down + [line] + more)
  {
    FramesCons(line, more);
    Associative(s.s2c, Framed(line), Frames(more));
    Associative(s.down, [line], more);
  }

  lemma NothingMore(bytes: string, lines: seq<string>)
    ensures bytes + Frames([]) == bytes && lines + [] == lines
  {
  }

  lemma {:induction false} SendsAll(o: Origin, s: State, todo: seq<string>)
    requires ServerReaches(o, s)
    requires s.server.SSend? && s.server.todo == todo != [] && AllSendable(todo)
    ensures ServerReaches(o, Sent(s))
    decreases todo
  {
    var line, more := todo[0], todo[1..];
    assert todo == [line] + more;
    SendsOne(s);
    ReachesNext(o, s, ServerSends);
    SentSplits(s, line, more);
    var t := Apply(s, ServerSends);
    if more == [] {
      NothingMore(s.s2c + Framed(line), s.down + [line]);
    } else {
      SendsAll(o, t, more);
    }
  }

  /** The lines a command is answered with; an upload is answered differently. */
  ghost function AnswerLines(x: Texts, cmd: Command, env: Env, files: map<string, string>): seq<string> {
    match cmd
    case List => if env.dirOpens then [x.files] + env.names + [Download.END] else [x.noDirectory]
    case Get(name) =>
      if ServerPath(name) in files then [Download.START] + FileLines(files[ServerPath(name)]) + [Download.END]
      else [x.notFound]
    case Load(_) => [Upload.FAILED]
    case _ => [x.unknown]
  }

  lemma {:induction false} FileLinesAreSendable(content: string)
    ensures AllSendable(FileLines(content))
    decreases |content|
  {
    if content != "" {
      FileLinesAreSendable(content[Download.FgetsLength(content)..]);
    }
  }

  lemma AnswerIsSendable(x: Texts, cmd: Command, env: Env, files: map<string, string>)
    requires Proper(x) && AllSendable(env.names)
    ensures AllSendable(AnswerLines(x, cmd, env, files))
  {
    if cmd.Get? && ServerPath(cmd.name) in files {
      FileLinesAreSendable(files[ServerPath(cmd.name)]);
    }
  }

  lemma NothingBefore(bytes: string)
    ensures Frames([]) + bytes == bytes
  {
  }

  lemma OneLineMore(content: string, n: nat, end: string)
    requires content != "" && n == Download.FgetsLength(content)
    requires AllSendable(FileLines(content[n..]))
    requires Download.FileStream(content[n..]) == Frames(FileLines(content[n..])) + end
    ensures AllSendable(FileLines(content))
    ensures Download.FileStream(content) == Frames(FileLines(content)) + end
  {
    var line := Download.LineOf(content[..n]);
    FramesCons(line, FileLines(content[n..]));
    Associative(Framed(line), Frames(FileLines(content[n..])), end);
  }

  /** fgets and send_line put the file's lines and the END line on the wire. */
  lemma {:induction false} FileLinesOnTheWire(content: string)
    ensures AllSendable(FileLines(content))
    ensures Download.FileStream(content) == Frames(FileLines(content)) + Framed(Download.END)
    decreases |content|
  {
    if content == "" {
      NothingBefore(Framed(Download.END));
    } else {
      var n := Download.FgetsLength(content);
      FileLinesOnTheWire(content[n..]);
      OneLineMore(content, n, Framed(Download.END));
    }
  }

  lemma InOrder(first: string, lines: seq<string>, last: string)
    requires Sendable(first) && AllSendable(lines) && Sendable(last)
    ensures AllSendable([first] + lines + [last])
    ensures Frames([first] + lines + [last]) == Framed(first) + (Frames(lines) + Framed(last))
  {
    FramesCons(first, lines);
    FramesOne(last);
    FramesConcat([first] + lines, [last]);
    Associative(Framed(first), Frames(lines), Framed(last));
  }

  lemma MarkersAreSendable()
    ensures Sendable(Download.START) && Sendable(Download.END)
  {
  }

  lemma GetOnTheWire(content: string)
    ensures var lines := [Download.START] + FileLines(content) + [Download.END];
            AllSendable(lines) && Frames(lines) == Download.GetStream(content)
  {
    FileLinesOnTheWire(content);
    MarkersAreSendable();
    InOrder(Download.START, FileLines(content), Download.END);
  }

  /** The command line is there to be read, and this is the command. */
  ghost predicate Asked(s: State, cmd: Command, rest: string) {
    && Proper(s.texts) && s.server.SLoop?
    && var got := ReadLine(s.c2s, BUF_SIZE);
    && got.Line? && got.text != "" && cmd == Classify(UpTo(got.text, NUL)) && got.rest == rest
  }

  /** The state after a command was served from its answer: the prompt follows it. */
  ghost function Served(s: State, rest: string, lines: seq<string>): State
    requires AllSendable(lines + [s.texts.commands])
  {
    s.(c2s := rest, s2c := s.s2c + Frames(lines + [s.texts.commands]), down := s.down + (lines + [s.texts.commands]))
  }

  predicate IsUpload(cmd: Command, env: Env) {
    cmd.Load? && env.fileOpens
  }

  lemma AnswerThenPrompt(x: Texts, cmd: Command, env: Env, files: map<string, string>)
    ensures var all := AnswerLines(x, cmd, env, files) + [x.commands];
            match cmd
            case List =>
              all == if env.dirOpens then [x.files] + env.names + [Download.END, x.commands]
                     else [x.noDirectory, x.commands]
            case Get(name) =>
              all == if ServerPath(name) in files
                     then [Download.START] + FileLines(files[ServerPath(name)]) + [Download.END, x.commands]
                     else [x.notFound, x.commands]
            case Load(_) => all == [Upload.FAILED, x.commands]
            case _ => all == [x.unknown, x.commands]
  {
  }

  lemma ServesAnswer(o: Origin, s: State, cmd: Command, env: Env, rest: string)
    requires ServerReaches(o, s) && Asked(s, cmd, rest)
    requires !cmd.Quit? && !IsUpload(cmd, env) && AllSendable(env.names)
    ensures AllSendable(AnswerLines(s.texts, cmd, env, s.files) + [s.texts.commands])
    ensures ServerReaches(Took(o, Read(env)), Served(s, rest, AnswerLines(s.texts, cmd, env, s.files)))
  {
    var e := Read(env);
    var lines := AnswerLines(s.texts, cmd, env, s.files);
    var all := lines + [s.texts.commands];
    AnswerIsSendable(s.texts, cmd, env, s.files);
    ReachesNext(o, s, e);
    var t := Apply(s, e);
    AnswerThenPrompt(s.texts, cmd, env, s.files);
    assert t == s.(c2s := rest, server := SSend(all, Loop));
    SendsAll(Took(o, e), t, all);
  }

  // ---- Uploads ------------------------------------------------------------------------

  /** The state once `n` more bytes have been stored. */
  function Stored(s: State, path: string, n: nat, server: Server): State
    requires path in s.files && n <= |s.c2s|
  {
    s.(c2s := s.c2s[n..], files := s.files[path := s.files[path] + s.c2s[..n]], server := server)
  }

  /** Where an upload stands once that much has been stored. */
  function Progress(s: State, path: string, size: int, received: nat): Server {
    if received < size then SData(path, size, received)
    else SSend([Upload.UPLOAD_DONE, s.texts.commands], Loop)
  }

  lemma ReceivesOne(s: State, path: string, size: int, received: nat)
    requires s.server == SData(path, size, received) && path in s.files
    requires s.c2s != "" && received < Upload.ToInt(size)
    ensures Enabled(s, ServerReceives(1))
    ensures Apply(s, ServerReceives(1)) == Stored(s, path, 1, Progress(s, path, size, received + 1))
  {
    Upload.ToIntShifts(size, received);
  }

  function Min(a: int, b: int): int {
    if a < b then a else b
  }

  /** The state once all the data the connection still delivers is stored, or the server has got
      what it is going to ask for. */
  function Drained(s: State, path: string, size: int, received: nat): State
    requires path in s.files && received <= Upload.ToInt(size)
  {
    var n := Min(|s.c2s|, Upload.ToInt(size) - received);
    Stored(s, path, n, Progress(s, path, size, received + n))
  }

  lemma NothingStored(s: State, path: string)
    requires path in s.files
    ensures Stored(s, path, 0, s.server) == s
  {
    assert s.files[path] + s.c2s[..0] == s.files[path];
    assert s.files[path := s.files[path]] == s.files;
  }

  lemma StoredOneFirst(s: State, t: State, path: string, n: nat, end: Server)
    requires path in s.files && 1 <= n <= |s.c2s|
    requires t == s.(c2s := s.c2s[1..], files := s.files[path := s.files[path] + s.c2s[..1]], server := t.server)
    ensures Stored(t, path, n - 1, end) == Stored(s, path, n, end)
  {
    assert s.c2s[..n] == s.c2s[..1] + t.c2s[..n - 1];
    Associative(s.files[path], s.c2s[..1], t.c2s[..n - 1]);
    assert t.files[path := t.files[path] + t.c2s[..n - 1]] == s.files[path := s.files[path] + s.c2s[..n]];
  }

  lemma DrainsOneFirst(s: State, path: string, size: int, received: nat)
    requires path in s.files && s.c2s != "" && received < size && received < Upload.ToInt(size) <= size
    ensures var t := Stored(s, path, 1, Progress(s, path, size, received + 1));
            && path in t.files
            && if received + 1 < size then Drained(t, path, size, received + 1) == Drained(s, path, size, received)
               else t == Drained(s, path, size, received)
  {
    if received + 1 < size {
      var n := Min(|s.c2s|, Upload.ToInt(size) - received);
      StoredOneFirst(s, Stored(s, path, 1, Progress(s, path, size, received + 1)), path, n,
                     Progress(s, path, size, received + n));
    }
  }

  lemma {:induction false} ReceivesAll(o: Origin, s: State, path: string, size: int, received: nat)
    requires ServerReaches(o, s)
    requires s.server == SData(path, size, received) && path in s.files
    requires received < size && received <= Upload.ToInt(size) <= size
    ensures ServerReaches(o, Drained(s, path, size, received))
    decreases size - received
  {
    if s.c2s == "" || received == Upload.ToInt(size) {
      NothingStored(s, path);
    } else {
      ReceivesOne(s, path, size, received);
      ReachesNext(o, s, ServerReceives(1));
      DrainsOneFirst(s, path, size, received);
      if received + 1 < size {
        ReceivesAll(o, Apply(s, ServerReceives(1)), path, size, received + 1);
      }
    }
  }

  /** The server has answered READY and waits for the size line. */
  ghost function Opened(s: State, path: string, rest: string): State {
    s.(c2s := rest, server := SSize(path), files := s.files[path := ""],
       s2c := s.s2c + Framed(Upload.READY), down := s.down + [Upload.READY])
  }

  lemma UploadOpens(o: Origin, s: State, name: string, env: Env, rest: string)
    requires ServerReaches(o, s) && Asked(s, Load(name), rest) && env.fileOpens && AllSendable(env.names)
    ensures ServerReaches(Took(o, Read(env)), Opened(s, ServerPath(name), rest))
  {
    var e := Read(env);
    ReachesNext(o, s, e);
    var t := Apply(s, e);
    assert t == s.(c2s := rest, server := SSend([Upload.READY], AwaitSize(ServerPath(name))),
                   files := s.files[ServerPath(name) := ""]);
    SendsAll(Took(o, e), t, [Upload.READY]);
    FramesOne(Upload.READY);
  }

  /** The upload is over; these lines, or none, and the prompt are its answer. */
  ghost function Closed(s: State, rest: string, lines: seq<string>, file: string, path: string): State
    requires AllSendable(lines + [s.texts.commands])
  {
    Served(s, rest, lines).(server := SLoop, files := s.files[path := file])
  }

  function Refusal(sizeLine: string): seq<string> {
    if sizeLine == "" then [] else [Upload.FAILED]
  }

  lemma RefusesSize(s: State, path: string)
    requires s.server == SSize(path)
    requires var got := ReadLine(s.c2s, Upload.SIZE_BUF);
             got.Line? && (got.text == "" || Upload.Announced(got.text) <= 0)
    ensures var got := ReadLine(s.c2s, Upload.SIZE_BUF);
            && Enabled(s, ServerReadsSize)
            && Apply(s, ServerReadsSize)
            == s.(c2s := got.rest, server := SSend(Refusal(got.text) + [s.texts.commands], Loop))
  {
    assert [] + [s.texts.commands] == [s.texts.commands];
    assert [Upload.FAILED] + [s.texts.commands] == [Upload.FAILED, s.texts.commands];
  }

  lemma RefusalIsSendable(x: Texts, sizeLine: string)
    requires Proper(x)
    ensures AllSendable(Refusal(sizeLine)) && AllSendable(Refusal(sizeLine) + [x.commands])
  {
  }

  lemma Refuses(o: Origin, s: State, path: string, rest: string, lines: seq<string>)
    requires ServerReaches(o, s.(c2s := rest, server := SSend(lines + [s.texts.commands], Loop)))
    requires Proper(s.texts) && path in s.files && s.files[path] == "" && AllSendable(lines)
    ensures AllSendable(lines + [s.texts.commands])
    ensures ServerReaches(o, Closed(s, rest, lines, "", path))
  {
    SendsAll(o, s.(c2s := rest, server := SSend(lines + [s.texts.commands], Loop)), lines + [s.texts.commands]);
    assert s.files[path := ""] == s.files;
  }

  /** No size line worth the name: the upload ends there. */
  lemma UploadRefused(o: Origin, s: State, path: string)
    requires ServerReaches(o, s) && s.server == SSize(path) && Proper(s.texts)
    requires path in s.files && s.files[path] == ""
    requires var got := ReadLine(s.c2s, Upload.SIZE_BUF);
             got.Line? && (got.text == "" || Upload.Announced(got.text) <= 0)
    ensures var got := ReadLine(s.c2s, Upload.SIZE_BUF);
            && AllSendable(Refusal(got.text) + [s.texts.commands])
            && ServerReaches(o, Closed(s, got.rest, Refusal(got.text), "", path))
  {
    var got := ReadLine(s.c2s, Upload.SIZE_BUF);
    RefusesSize(s, path);
    ReachesNext(o, s, ServerReadsSize);
    RefusalIsSendable(s.texts, got.text);
    Refuses(o, s, path, got.rest, Refusal(got.text));
  }

  lemma UploadAnnounced(o: Origin, s: State, path: string)
    requires ServerReaches(o, s) && s.server == SSize(path) && SizeFits(o)
    requires var got := ReadLine(s.c2s, Upload.SIZE_BUF);
             got.Line? && got.text != "" && Upload.Announced(got.text) > 0
    ensures var got := ReadLine(s.c2s, Upload.SIZE_BUF);
            var size := Upload.Announced(got.text);
            && Upload.ToInt(size) >= 0
            && ServerReaches(o, s.(c2s := got.rest, server := SData(path, size, 0)))
  {
    ReachesNext(o, s, ServerReadsSize);
  }

  /** The lines that answer an upload whose data has all been read. */
  function Answer(size: int): seq<string> {
    if Upload.ToInt(size) == size then [Upload.UPLOAD_DONE] else []
  }

  lemma AnswerLinesFit(x: Texts, size: int)
    requires Proper(x)
    ensures AllSendable(Answer(size)) && AllSendable(Answer(size) + [x.commands])
    ensures Upload.ToInt(size) == size ==> Answer(size) + [x.commands] == [Upload.UPLOAD_DONE, x.commands]
    ensures Upload.ToInt(size) != size ==> Answer(size) + [x.commands] == [x.commands]
  {
  }

  /** All the data is there: the server is about to answer, or to give up and prompt. */
  lemma UploadIsRead(o: Origin, s: State, path: string, size: int)
    requires ServerReaches(o, s) && s.server == SData(path, size, 0) && Proper(s.texts)
    requires path in s.files && s.files[path] == "" && 0 < size && 0 <= Upload.ToInt(size) <= |s.c2s|
    ensures var n := Upload.ToInt(size);
            ServerReaches(o, s.(c2s := s.c2s[n..], files := s.files[path := s.c2s[..n]],
                                server := SSend(Answer(size) + [s.texts.commands], Loop)))
  {
    var n := Upload.ToInt(size);
    Upload.ToIntBounds(size);
    ReceivesAll(o, s, path, size, 0);
    AnswerLinesFit(s.texts, size);
    assert "" + s.c2s[..n] == s.c2s[..n];
    var t := Drained(s, path, size, 0);
    if n < size {
      Upload.ToIntShifts(size, n);
      ReachesNext(o, t, ServerGivesUp);
    }
  }

  lemma UploadCompletes(o: Origin, s: State, path: string, size: int)
    requires ServerReaches(o, s) && s.server == SData(path, size, 0) && Proper(s.texts)
    requires path in s.files && s.files[path] == "" && 0 < size && 0 <= Upload.ToInt(size) <= |s.c2s|
    ensures AllSendable(Answer(size) + [s.texts.commands])
    ensures var n := Upload.ToInt(size);
            ServerReaches(o, Closed(s, s.c2s[n..], Answer(size), s.c2s[..n], path))
  {
    var n := Upload.ToInt(size);
    UploadIsRead(o, s, path, size);
    AnswerLinesFit(s.texts, size);
    var t := s.(c2s := s.c2s[n..], files := s.files[path := s.c2s[..n]],
                server := SSend(Answer(size) + [s.texts.commands], Loop));
    SendsAll(o, t, Answer(size) + [s.texts.commands]);
  }

  /** What the machine has done with an upload when the code is through with it. */
  ghost predicate UploadServed(s: State, t: State, path: string, rest: string)
    requires Upload.ReadsAreDefined(rest)
  {
    var o := Upload.Receive(rest);
    && Proper(s.texts) && t.texts == s.texts && t.files == s.files[path := o.file]
    && if Upload.Complete(rest)
       then t.server.SLoop? && t.c2s == o.rest
            && t.s2c == s.s2c + Framed(Upload.READY) + o.reply + Framed(s.texts.commands)
       else Blocked(t) && !t.server.SLoop? && !t.server.SClosed? && o.rest == "" && o.reply == ""
            && t.s2c == s.s2c + Framed(Upload.READY)
  }

  lemma ClosedShape(s: State, path: string, before: string, rest: string, lines: seq<string>, file: string)
    requires Proper(s.texts) && AllSendable(lines)
    ensures AllSendable(lines + [s.texts.commands])
    ensures var t := Closed(Opened(s, path, before), rest, lines, file, path);
            && t.texts == s.texts && t.server.SLoop? && t.c2s == rest && t.files == s.files[path := file]
            && t.s2c == s.s2c + Framed(Upload.READY) + Frames(lines) + Framed(s.texts.commands)
  {
    FramesAppend(lines, s.texts.commands);
    Associative(s.s2c + Framed(Upload.READY), Frames(lines), Framed(s.texts.commands));
    assert s.files[path := ""][path := file] == s.files[path := file];
  }

  lemma RefusedOutcome(rest: string)
    requires var got := ReadLine(rest, Upload.SIZE_BUF);
             got.Line? && (got.text == "" || Upload.Announced(got.text) <= 0)
    requires Upload.ReadsAreDefined(rest)
    ensures var got := ReadLine(rest, Upload.SIZE_BUF);
            && Upload.Complete(rest) && AllSendable(Refusal(got.text))
            && Upload.Receive(rest) == Upload.Outcome("", Frames(Refusal(got.text)), got.rest)
  {
    FramesOne(Upload.FAILED);
  }

  lemma UploadIsRefused(o: Origin, s: State, path: string, rest: string) returns (t: State)
    requires Proper(s.texts) && ServerReaches(o, Opened(s, path, rest))
    requires var got := ReadLine(rest, Upload.SIZE_BUF);
             got.Line? && (got.text == "" || Upload.Announced(got.text) <= 0)
    requires Upload.ReadsAreDefined(rest)
    ensures ServerReaches(o, t) && UploadServed(s, t, path, rest)
  {
    var got := ReadLine(rest, Upload.SIZE_BUF);
    UploadRefused(o, Opened(s, path, rest), path);
    RefusedOutcome(rest);
    ClosedShape(s, path, rest, got.rest, Refusal(got.text), "");
    t := Closed(Opened(s, path, rest), got.rest, Refusal(got.text), "", path);
  }

  /** The size line has been read and announces this size. */
  ghost predicate HasAnnounced(o: Origin, s: State, path: string, size: int, rest: string) {
    var got := ReadLine(rest, Upload.SIZE_BUF);
    && Proper(s.texts) && got.Line? && got.text != "" && size == Upload.Announced(got.text)
    && size > 0 && Upload.ToInt(size) >= 0
    && ServerReaches(o, Opened(s, path, rest).(c2s := got.rest, server := SData(path, size, 0)))
  }

  lemma StoredOutcome(rest: string, size: int)
    requires Upload.ReadsAreDefined(rest) && size > 0 && Upload.ToInt(size) >= 0
    requires var got := ReadLine(rest, Upload.SIZE_BUF);
             got.Line? && got.text != "" && size == Upload.Announced(got.text) && Upload.ToInt(size) <= |got.rest|
    ensures var (n, data) := (Upload.ToInt(size), ReadLine(rest, Upload.SIZE_BUF).rest);
            && Upload.Complete(rest) && AllSendable(Answer(size))
            && Upload.Receive(rest) == Upload.Outcome(data[..n], Frames(Answer(size)), data[n..])
  {
    FramesOne(Upload.UPLOAD_DONE);
  }

  lemma UploadIsStored(o: Origin, s: State, path: string, size: int, rest: string) returns (t: State)
    requires HasAnnounced(o, s, path, size, rest) && Upload.ReadsAreDefined(rest)
    requires Upload.ToInt(size) <= |ReadLine(rest, Upload.SIZE_BUF).rest|
    ensures ServerReaches(o, t) && UploadServed(s, t, path, rest)
  {
    var data, n := ReadLine(rest, Upload.SIZE_BUF).rest, Upload.ToInt(size);
    UploadCompletes(o, Opened(s, path, rest).(c2s := data, server := SData(path, size, 0)), path, size);
    StoredOutcome(rest, size);
    ClosedShape(s, path, rest, data[n..], Answer(size), data[..n]);
    t := Closed(Opened(s, path, rest), data[n..], Answer(size), data[..n], path);
  }

  /** Too little data: it is all stored, and the server waits for more. */
  lemma DrainedDry(s: State, path: string, size: int)
    requires path in s.files && s.files[path] == "" && |s.c2s| < Upload.ToInt(size) <= size
    ensures Drained(s, path, size, 0)
         == s.(c2s := "", files := s.files[path := s.c2s], server := SData(path, size, |s.c2s|))
    ensures Blocked(Drained(s, path, size, 0))
  {
    assert "" + s.c2s == s.c2s && s.c2s[..|s.c2s|] == s.c2s;
    Upload.ToIntShifts(size, |s.c2s|);
  }

  lemma UploadIsCutShort(o: Origin, s: State, path: string, size: int, rest: string) returns (t: State)
    requires HasAnnounced(o, s, path, size, rest) && Upload.ReadsAreDefined(rest)
    requires Upload.ToInt(size) > |ReadLine(rest, Upload.SIZE_BUF).rest|
    ensures ServerReaches(o, t) && UploadServed(s, t, path, rest)
  {
    var data := ReadLine(rest, Upload.SIZE_BUF).rest;
    var a := Opened(s, path, rest).(c2s := data, server := SData(path, size, 0));
    Upload.ToIntBounds(size);
    ReceivesAll(o, a, path, size, 0);
    DrainedDry(a, path, size);
    t := Drained(a, path, size, 0);
    assert s.files[path := ""][path := data] == s.files[path := data];
  }

  lemma UploadRuns(o: Origin, s: State, name: string, env: Env, rest: string) returns (t: State)
    requires ServerReaches(o, s) && Asked(s, Load(name), rest) && env.fileOpens && AllSendable(env.names)
    requires SizeFits(Took(o, Read(env)))
    ensures Upload.ReadsAreDefined(rest)
    ensures ServerReaches(Took(o, Read(env)), t) && UploadServed(s, t, ServerPath(name), rest)
  {
    var path, after := ServerPath(name), Took(o, Read(env));
    UploadOpens(o, s, name, env, rest);
    t := Opened(s, path, rest);
    var got := ReadLine(rest, Upload.SIZE_BUF);
    if got.Line? {
      if got.text == "" || Upload.Announced(got.text) <= 0 {
        t := UploadIsRefused(after, s, path, rest);
      } else {
        UploadAnnounced(after, t, path);
        var size := Upload.Announced(got.text);
        if Upload.ToInt(size) <= |got.rest| {
          t := UploadIsStored(after, s, path, size, rest);
        } else {
          t := UploadIsCutShort(after, s, path, size, rest);
        }
      }
    }
  }

  /** The first prompt is out. */
  lemma Greeted(start: State) returns (t: State)
    requires Proper(start.texts) && start.server == SSend([start.texts.commands], Loop) && start.s2c == ""
    ensures ServerReaches(Origin(ServerSide, start, []), t)
    ensures t == start.(server := SLoop, s2c := Framed(start.texts.commands), down := t.down)
  {
    ReachesItself(ServerSide, start);
    SendsAll(Origin(ServerSide, start, []), start, [start.texts.commands]);
    FramesOne(start.texts.commands);
    assert "" + Framed(start.texts.commands) == Framed(start.texts.commands);
    t := Sent(start);
  }

  /** The code is where the machine is; if the connection ended inside an upload, the code has
      gone on to send the prompt once more. */
  ghost predicate Matches(t: State, x: Texts, files: map<string, string>, inbox: string, sent: string) {
    && Proper(x) && t.texts == x && files == t.files
    && if t.server.SLoop? then inbox == t.c2s && sent == t.s2c
       else (t.server.SSize? || t.server.SData?) && Blocked(t) && inbox == "" && sent == t.s2c + Framed(x.commands)
  }

  lemma AnswerMatches(s: State, rest: string, lines: seq<string>)
    requires Proper(s.texts) && s.server.SLoop? && AllSendable(lines)
    ensures AllSendable(lines + [s.texts.commands])
    ensures Matches(Served(s, rest, lines), s.texts, s.files, rest, s.s2c + Frames(lines) + Framed(s.texts.commands))
  {
    FramesAppend(lines, s.texts.commands);
    Associative(s.s2c, Frames(lines), Framed(s.texts.commands));
  }

  lemma UploadMatches(s: State, t: State, path: string, rest: string)
    requires Upload.ReadsAreDefined(rest) && UploadServed(s, t, path, rest)
    ensures var o := Upload.Receive(rest);
            Matches(t, s.texts, s.files[path := o.file], o.rest,
                    s.s2c + Framed(Upload.READY) + o.reply + Framed(s.texts.commands))
  {
    assert s.s2c + Framed(Upload.READY) + "" == s.s2c + Framed(Upload.READY);
  }

  /** Everything sent so far is `before` and then `sent`; three more pieces go out. */
  lemma ThreeMore(before: string, sent: string, a: string, b: string, c: string)
    ensures before + sent + a + b + c == before + (sent + a + b + c)
  {
    Associative(before, sent, a);
    Associative(before, sent + a, b);
    Associative(before, sent + a + b, c);
  }

  lemma TwoMore(before: string, sent: string, a: string, b: string)
    ensures before + sent + a + b == before + (sent + a + b)
  {
    Associative(before, sent, a);
    Associative(before, sent + a, b);
  }

  lemma RestIsNoLonger(rest: string)
    requires Upload.ReadsAreDefined(rest)
    ensures |Upload.Receive(rest).rest| <= |rest|
  {
  }

  /** What a turn of the loop that serves an upload does to the machine. */
  lemma UploadTurn(o: Origin, s: State, name: string, env: Env, rest: string, before: string)
    returns (t: State, sent: string)
    requires ServerReaches(o, s) && Asked(s, Load(name), rest) && env.fileOpens && AllSendable(env.names)
    requires SizeFits(Took(o, Read(env)))
    ensures Upload.ReadsAreDefined(rest)
    ensures var got := Upload.Receive(rest);
            && |got.rest| <= |rest|
            && ServerReaches(Took(o, Read(env)), t)
            && Matches(t, s.texts, s.files[ServerPath(name) := got.file], got.rest, sent)
            && before + s.s2c + Framed(Upload.READY) + got.reply + Framed(s.texts.commands) == before + sent
  {
    t := UploadRuns(o, s, name, env, rest);
    var reply := Upload.Receive(rest).reply;
    RestIsNoLonger(rest);
    UploadMatches(s, t, ServerPath(name), rest);
    sent := s.s2c + Framed(Upload.READY) + reply + Framed(s.texts.commands);
    ThreeMore(before, s.s2c, Framed(Upload.READY), reply, Framed(s.texts.commands));
  }

  predicate EndsLoop(inbox: string) {
    match ReadLine(inbox, BUF_SIZE)
    case Eof => true
    case Line(text, _) => text == "" || Classify(UpTo(text, NUL)).Quit?
  }

  /** A blank line or quit closes the machine's server. */
  lemma Closes(s: State, env: Env)
    requires s.server.SLoop? && EndsLoop(s.c2s) && ReadLine(s.c2s, BUF_SIZE).Line?
    ensures Enabled(s, Read(env))
    ensures Apply(s, Read(env)) == s.(c2s := ReadLine(s.c2s, BUF_SIZE).rest, server := SClosed)
  {
    var Line(buf, rest) := ReadLine(s.c2s, BUF_SIZE);
    if buf != "" {
      assert Classify(UpTo(buf, NUL)) == Quit;
    }
  }

  /** The end of the stream leaves the machine where it is; a blank line or quit ends it. */
  lemma LeavesLoop(o: Origin, s: State, env: Env) returns (t: State)
    requires ServerReaches(o, s) && s.server.SLoop? && EndsLoop(s.c2s)
    ensures Blocked(t) && (t.server.SLoop? || t.server.SClosed?) && t.files == s.files && t.s2c == s.s2c
    ensures ServerReaches(if ReadLine(s.c2s, BUF_SIZE).Eof? then o else Took(o, Read(env)), t)
  {
    t := s;
    if !Blocked(s) {
      Closes(s, env);
      ReachesNext(o, s, Read(env));
      t := s.(c2s := ReadLine(s.c2s, BUF_SIZE).rest, server := SClosed);
    }
  }

  // ---- The code -----------------------------------------------------------------------

  class Handler {
    const sock: Socket
    const texts: Texts
    var files: map<string, string>

    constructor (sock: Socket, texts: Texts, files: map<string, string>)
      ensures this.sock == sock && this.texts == texts && this.files == files
    {
      this.sock := sock;
      this.texts := texts;
      this.files := files;
    }

    method SendCommandList()
      requires Proper(texts)
      modifies sock`outbox
      ensures sock.outbox == old(sock.outbox) + Framed(texts.commands)
    {
      sock.SendLine(texts.commands);
    }

    method CmdList(env: Env)
      requires Proper(texts) && AllSendable(env.names)
      modifies sock`outbox
      ensures AllSendable(AnswerLines(texts, List, env, files))
      ensures sock.outbox == old(sock.outbox) + Frames(AnswerLines(texts, List, env, files))
    {
      AnswerIsSendable(texts, List, env, files);
      if !env.dirOpens {
        sock.SendLine(texts.noDirectory);
        FramesOne(texts.noDirectory);
        return;
      }
      sock.SendLine(texts.files);
      for i := 0 to |env.names|
        invariant AllSendable(env.names[..i])
        invariant sock.outbox == old(sock.outbox) + Framed(texts.files) + Frames(env.names[..i])
      {
        sock.SendLine(env.names[i]);
        FramesOne(env.names[i]);
        FramesConcat(env.names[..i], [env.names[i]]);
        assert env.names[..i + 1] == env.names[..i] + [env.names[i]];
        Associative(old(sock.outbox) + Framed(texts.files), Frames(env.names[..i]), Framed(env.names[i]));
      }
      sock.SendLine(Download.END);
      assert env.names[..|env.names|] == env.names;
      InOrder(texts.files, env.names, Download.END);
      Associative(old(sock.outbox) + Framed(texts.files), Frames(env.names), Framed(Download.END));
      Associative(old(sock.outbox), Framed(texts.files), Frames(env.names) + Framed(Download.END));
    }

    method CmdGet(name: string, env: Env)
      requires Proper(texts)
      modifies sock`outbox
      ensures AllSendable(AnswerLines(texts, Get(name), env, files))
      ensures sock.outbox == old(sock.outbox) + Frames(AnswerLines(texts, Get(name), env, files))
    {
      var path := ServerPath(name);
      if path !in files {
        sock.SendLine(texts.notFound);
        FramesOne(texts.notFound);
        return;
      }
      sock.SendLine(Download.START);
      Download.SendFile(sock, files[path]);
      Associative(old(sock.outbox), Framed(Download.START), Download.FileStream(files[path]));
      GetOnTheWire(files[path]);
    }

    method CmdUplode(name: string, env: Env)
      requires env.fileOpens ==> Upload.ReadsAreDefined(sock.inbox)
      modifies this`files, sock
      ensures if env.fileOpens then
                var o := Upload.Receive(old(sock.inbox));
                && files == old(files)[ServerPath(name) := o.file] && sock.inbox == o.rest
                && sock.outbox == old(sock.outbox) + Framed(Upload.READY) + o.reply
              else
                && files == old(files) && sock.inbox == old(sock.inbox)
                && sock.outbox == old(sock.outbox) + Framed(Upload.FAILED)
    {
      var file := Upload.CmdUpload(sock, env.fileOpens);
      if file.Some? {
        files := files[ServerPath(name) := file.value];
      }
    }

    /** One command of handle_client's loop, other than an upload and quit. */
    method ServeCommand(cmd: Command, env: Env)
      requires Proper(texts) && !cmd.Quit? && !IsUpload(cmd, env) && AllSendable(env.names)
      modifies this`files, sock
      ensures files == old(files) && sock.inbox == old(sock.inbox)
      ensures AllSendable(AnswerLines(texts, cmd, env, files))
      ensures sock.outbox == old(sock.outbox) + Frames(AnswerLines(texts, cmd, env, files)) + Framed(texts.commands)
    {
      match cmd {
        case List => CmdList(env);
        case Get(name) => CmdGet(name, env);
        case Load(name) =>
          CmdUplode(name, env);
          FramesOne(Upload.FAILED);
        case Other =>
          sock.SendLine(texts.unknown);
          FramesOne(texts.unknown);
      }
      SendCommandList();
    }

    /** One turn of the loop, with the machine's run beside it. */
    method TurnWithUpload(name: string, env: Env, ghost o: Origin, ghost s: State, ghost before: string)
      returns (ghost t: State, ghost sent: string)
      requires ServerReaches(o, s) && SizeFits(Took(o, Read(env)))
      requires Asked(s, Load(name), sock.inbox) && env.fileOpens && AllSendable(env.names)
      requires s.texts == texts && files == s.files && sock.outbox == before + s.s2c
      modifies this`files, sock
      ensures ServerReaches(Took(o, Read(env)), t) && Matches(t, texts, files, sock.inbox, sent)
      ensures sock.outbox == before + sent && |sock.inbox| <= |old(sock.inbox)|
    {
      t, sent := UploadTurn(o, s, name, env, sock.inbox, before);
      CmdUplode(name, env);
      SendCommandList();
    }

    method Turn(cmd: Command, env: Env, ghost o: Origin, ghost s: State, ghost before: string)
      returns (ghost t: State, ghost sent: string)
      requires ServerReaches(o, s)
      requires Asked(s, cmd, sock.inbox) && !cmd.Quit? && !IsUpload(cmd, env) && AllSendable(env.names)
      requires s.texts == texts && files == s.files && sock.outbox == before + s.s2c
      modifies this`files, sock
      ensures ServerReaches(Took(o, Read(env)), t) && Matches(t, texts, files, sock.inbox, sent)
      ensures sock.outbox == before + sent && |sock.inbox| <= |old(sock.inbox)|
    {
      ghost var lines := AnswerLines(texts, cmd, env, files);
      ServesAnswer(o, s, cmd, env, sock.inbox);
      ServeCommand(cmd, env);
      AnswerMatches(s, sock.inbox, lines);
      t := Served(s, sock.inbox, lines);
      sent := s.s2c + Frames(lines) + Framed(texts.commands);
      TwoMore(before, s.s2c, Frames(lines), Framed(texts.commands));
    }

    /** Every execution is a run of the machine's server on the same file system: it ends where
        the machine is blocked or closed, with the same files and the same bytes sent. Only if
        the connection ended inside an upload has the code sent one more prompt. */
    method HandleClient(env: nat -> Env) returns (ghost t: State, ghost k: nat)
      requires Proper(texts) && forall i :: AllSendable(env(i).names)
      requires SizesFit(Begin(texts, sock.inbox, files), env)
      modifies this`files, sock
      ensures ServerReaches(Commands(Begin(texts, old(sock.inbox), old(files)), env, k), t) && Blocked(t)
      ensures files == t.files
      ensures sock.outbox == old(sock.outbox)
              + if t.server.SSize? || t.server.SData? then t.s2c + Framed(texts.commands) else t.s2c
    {
      var buf := new char[BUF_SIZE];
      ghost var start, before := Begin(texts, sock.inbox, files), sock.outbox;
      t := Greeted(start);
      SendCommandList();
      ghost var sent := t.s2c;
      var i := 0;
      assert Commands(start, env, 0) == Origin(ServerSide, start, []);
      while true
        invariant fresh(buf) && ServerReaches(Commands(start, env, i), t)
        invariant Matches(t, texts, files, sock.inbox, sent) && sock.outbox == before + sent
        decreases |sock.inbox|
      {
        OneMoreCommand(start, env, i);
        var n := sock.RecvLine(buf);
        if n <= 0 {
          k := if n < 0 then i else i + 1;
          if t.server.SLoop? {
            t := LeavesLoop(Commands(start, env, i), t, env(i));
          }
          break;
        }
        var cmd := Classify(UpTo(buf[..n], NUL));
        if cmd.Quit? {
          k := i + 1;
          t := LeavesLoop(Commands(start, env, i), t, env(i));
          break;
        }
        if IsUpload(cmd, env(i)) {
          t, sent := TurnWithUpload(cmd.name, env(i), Commands(start, env, i), t, before);
        } else {
          t, sent := Turn(cmd, env(i), Commands(start, env, i), t, before);
        }
        i := i + 1;
      }
    }
  }
}
