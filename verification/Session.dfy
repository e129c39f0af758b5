/** A whole session of the file server (week5/Iserver.c) with its client (week5/Iclient.c), in
    every interleaving of the two processes.

    A step is one send or one receive by one peer: one line where the code calls send_line or
    recv_line, one chunk where it calls send or recv on file data. A receive is possible only
    when what it needs has arrived; otherwise that peer is blocked. */
module Session {
  import opened Sequences
  import opened Lines
  import Download
  import Upload

  /** The server's fixed lines. Only what Proper says about their wording matters. */
  datatype Texts = Texts(commands: string, files: string, noDirectory: string, notFound: string, unknown: string)

  const TEXTS := Texts(
    "COMMANDS: list, " + "get <filename>, " + "load <filename>, quit",
    "Files:", "Failed to open directory", "File not found", "Unknown command")

  ghost predicate Proper(x: Texts) {
    && Clean(x.commands) && Clean(x.files) && Clean(x.noDirectory) && Clean(x.notFound) && Clean(x.unknown)
    && x.commands != "" && x.files != "" && x.files != Download.END
  }

  lemma CleanAppend(a: string, b: string)
    requires Clean(a) && Clean(b) && |a| + |b| <= BUF_SIZE - 2
    ensures Clean(a + b)
  {
  }

  lemma FirstPartIsClean()
    ensures Clean("COMMANDS: list, ")
  {
  }

  lemma SecondPartIsClean()
    ensures Clean("get <filename>, ")
  {
  }

  lemma ThirdPartIsClean()
    ensures Clean("load <filename>, quit")
  {
  }

  lemma CommandsAreClean()
    ensures Clean("COMMANDS: list, " + "get <filename>, " + "load <filename>, quit")
  {
    FirstPartIsClean();
    SecondPartIsClean();
    ThirdPartIsClean();
    CleanAppend("COMMANDS: list, ", "get <filename>, ");
    CleanAppend("COMMANDS: list, " + "get <filename>, ", "load <filename>, quit");
  }

  lemma NoDirectoryIsClean()
    ensures Clean("Failed to open directory")
  {
  }

  lemma NotFoundIsClean()
    ensures Clean("File not found")
  {
  }

  lemma UnknownIsClean()
    ensures Clean("Unknown command")
  {
  }

  lemma {:induction false} TextsAreProper()
    ensures Proper(TEXTS)
  {
    CommandsAreClean();
    NoDirectoryIsClean();
    NotFoundIsClean();
    UnknownIsClean();
  }

  datatype Command = List | Get(name: string) | Load(name: string) | Quit | Other

  /** Both peers tell commands apart by the same mutually exclusive tests. */
  function Classify(input: string): Command {
    if input == "list" then List
    else if "get " <= input then Get(input[4..])
    else if "load " <= input then Load(input[5..])
    else if input == "quit" then Quit
    else Other
  }

  /** snprintf into a buffer of BUF_SIZE bytes. */
  function Path(prefix: string, name: string): string {
    var path := prefix + name;
    if |path| < BUF_SIZE then path else path[..BUF_SIZE - 1]
  }

  function ServerPath(name: string): string {
    Path("./Files/", name)
  }

  datatype Next = Loop | AwaitSize(path: string)

  datatype Server =
    | SLoop                                   // at the top of handle_client's loop
    | SSend(todo: seq<string>, next: Next)    // has these lines left to send
    | SSize(path: string)                     // waits for the size line of an upload
    | SData(path: string, size: int, received: nat)
    | SClosed

  datatype Client =
    | CPrompt                                 // at the loop head, waits for the command list
    | CInput                                  // waits for the user
    | CList
    | CGet(name: string, text: string)        // has written `text` to its file so far
    | CReady(name: string, content: string)   // waits for READY
    | CSize(name: string, content: string)
    | CData(name: string, content: string, sent: nat)
    | CDone(name: string, content: string)    // waits for the verdict on an upload
    | COther
    | CClosed

  /** A finished transfer: what arrived, and what the other side holds at that moment. */
  datatype Transfer =
    | Downloaded(name: string, got: string, had: string)
    | Uploaded(name: string, verdict: string, sent: string, stored: string)

  datatype State = State(
    texts: Texts,
    client: Client,
    server: Server,
    c2s: string,                   // bytes on their way to the server
    s2c: string,                   // bytes on their way to the client
    files: map<string, string>,    // the server's files
    locals: map<string, string>,   // the client's files
    down: seq<string>,             // history: the lines s2c consists of
    done: seq<Transfer>)           // history

  datatype Event =
    | ServerSends
    | ServerReads(dirOpens: bool, names: seq<string>, fileOpens: bool)
    | ServerReadsSize
    | ServerReceives(n: nat)
    | ServerGivesUp               // recv was asked for nothing, and got nothing
    | ClientReads
    | ClientTypes(input: string, outputOpens: bool)
    | ClientSendsSize
    | ClientSendsChunk

  function Settled(todo: seq<string>, next: Next): Server {
    if todo != [] then SSend(todo, next)
    else match next case Loop => SLoop case AwaitSize(path) => SSize(path)
  }

  /** The lines cmd_get sends between START and END, as one list. */
  function FileLines(content: string): seq<string> {
    if content == "" then []
    else
      var n := Download.FgetsLength(content);
      [Download.LineOf(content[..n])] + FileLines(content[n..])
  }

  predicate ByServer(e: Event) {
    e.ServerSends? || e.ServerReads? || e.ServerReadsSize? || e.ServerReceives? || e.ServerGivesUp?
  }

  predicate Enabled(s: State, e: Event) {
    match e
    case ServerSends => s.server.SSend? && s.server.todo != [] && Sendable(s.server.todo[0])
    case ServerReads(_, _, _) => s.server.SLoop? && ReadLine(s.c2s, BUF_SIZE).Line?
    case ServerReadsSize => s.server.SSize? && ReadLine(s.c2s, Upload.SIZE_BUF).Line?
    case ServerReceives(n) =>
      && s.server.SData? && s.server.path in s.files
      && 1 <= n <= |s.c2s| && n <= Upload.ToRead(s.server.size, s.server.received)
    case ServerGivesUp => s.server.SData? && Upload.ToRead(s.server.size, s.server.received) == 0
    case ClientReads =>
      && (s.client.CPrompt? || s.client.CList? || s.client.CGet? || s.client.CReady?
          || s.client.CDone? || s.client.COther?)
      && ReadLine(s.s2c, BUF_SIZE).Line?
    case ClientTypes(input, _) => s.client.CInput? && Sendable(input) && LF !in input
    case ClientSendsSize => s.client.CSize? && |s.client.content| <= Upload.LONG_MAX
    case ClientSendsChunk => s.client.CData? && s.client.sent <= |s.client.content|
  }

  /** handle_client on one command. */
  function Serve(s: State, cmd: Command, dirOpens: bool, names: seq<string>, fileOpens: bool): State {
    match cmd
    case List =>
      s.(server := SSend(if dirOpens then [s.texts.files] + names + [Download.END, s.texts.commands]
                         else [s.texts.noDirectory, s.texts.commands], Loop))
    case Get(name) =>
      var path := ServerPath(name);
      s.(server := SSend(if path in s.files
                         then [Download.START] + FileLines(s.files[path]) + [Download.END, s.texts.commands]
                         else [s.texts.notFound, s.texts.commands], Loop))
    case Load(name) =>
      if fileOpens then
        var path := ServerPath(name);
        s.(server := SSend([Upload.READY], AwaitSize(path)), files := s.files[path := ""])
      else s.(server := SSend([Upload.FAILED, s.texts.commands], Loop))
    case Quit => s.(server := SClosed)
    case Other => s.(server := SSend([s.texts.unknown, s.texts.commands], Loop))
  }

  /** The client's loop on one line from the server. */
  function ClientTakes(s: State, buf: string): State {
    var line := UpTo(buf, NUL);
    match s.client
    case CPrompt => s.(client := if buf == "" then CClosed else CInput)
    case CList => if buf == "" || line == Download.END then s.(client := CPrompt) else s
    case CGet(name, text) =>
      if buf == "" || line == Download.END then
        var path := ServerPath(name);
        s.(client := CPrompt,
           locals := s.locals[Path("downloaded_", name) := text],
           done := s.done + [Downloaded(name, text, if path in s.files then s.files[path] else "")])
      else if line == Download.START then s
      else s.(client := CGet(name, text + line + [LF]))
    case CReady(name, content) =>
      if buf == "" then s.(client := CClosed)
      else if line == Upload.READY then s.(client := CSize(name, content))
      else s.(client := CPrompt)
    case CDone(name, content) =>
      var path := ServerPath(name);
      s.(client := CPrompt,
         done := s.done + [Uploaded(name, line, content, if path in s.files then s.files[path] else "")])
    case _ => s.(client := CPrompt)
  }

  /** The client acts on what the user typed. */
  function Typed(s: State, input: string, outputOpens: bool): State
    requires Sendable(input)
  {
    var sent := s.(c2s := s.c2s + Framed(input));
    match Classify(input)
    case Quit => sent.(client := CClosed)
    case List => sent.(client := CList)
    case Get(name) => sent.(client := if outputOpens then CGet(name, "") else CPrompt)
    case Load(name) =>
      if name in s.locals then sent.(client := CReady(name, s.locals[name])) else s.(client := CPrompt)
    case Other => sent.(client := COther)
  }

  function Apply(s: State, e: Event): State
    requires Enabled(s, e)
  {
    match e
    case ServerSends =>
      var line := s.server.todo[0];
      s.(server := Settled(s.server.todo[1..], s.server.next),
         s2c := s.s2c + Framed(line), down := s.down + [line])
    case ServerReads(dirOpens, names, fileOpens) =>
      var Line(buf, rest) := ReadLine(s.c2s, BUF_SIZE);
      if buf == "" then s.(c2s := rest, server := SClosed)
      else Serve(s.(c2s := rest), Classify(UpTo(buf, NUL)), dirOpens, names, fileOpens)
    case ServerReadsSize =>
      var Line(buf, rest) := ReadLine(s.c2s, Upload.SIZE_BUF);
      var size := Upload.Announced(buf);
      s.(c2s := rest,
         server := if buf == "" then SSend([s.texts.commands], Loop)
                   else if size <= 0 then SSend([Upload.FAILED, s.texts.commands], Loop)
                   else SData(s.server.path, size, 0))
    case ServerReceives(n) =>
      var SData(path, size, received) := s.server;
      s.(c2s := s.c2s[n..],
         files := s.files[path := s.files[path] + s.c2s[..n]],
         server := if received + n < size then SData(path, size, received + n)
                   else SSend([Upload.UPLOAD_DONE, s.texts.commands], Loop))
    case ServerGivesUp => s.(server := SSend([s.texts.commands], Loop))
    case ClientReads =>
      var Line(buf, rest) := ReadLine(s.s2c, BUF_SIZE);
      ClientTakes(s.(s2c := rest, down := if s.down == [] then [] else s.down[1..]), buf)
    case ClientTypes(input, outputOpens) => Typed(s, input, outputOpens)
    case ClientSendsSize =>
      s.(c2s := s.c2s + Upload.SizeFrame(|s.client.content|),
         client := CData(s.client.name, s.client.content, 0))
    case ClientSendsChunk =>
      var CData(name, content, sent) := s.client;
      if sent == |content| then s.(client := CDone(name, content))
      else
        var end := if sent + BUF_SIZE < |content| then sent + BUF_SIZE else |content|;
        s.(c2s := s.c2s + content[sent..end], client := CData(name, content, end))
  }

  function Start(files: map<string, string>, locals: map<string, string>): State {
    State(TEXTS, CPrompt, SSend([TEXTS.commands], Loop), "", "", files, locals, [], [])
  }

  /** Commands are not empty and fit a line; get names a file the download carries exactly and
      its output opens; load names a local file whose size fits an int; list opens its
      directory, and no name there is empty, needs two lines or is the END marker. */
  predicate Admissible(s: State, e: Event) {
    match e
    case ClientTypes(input, outputOpens) =>
      && input != "" && Clean(input)
      && (match Classify(input)
          case Get(name) =>
            outputOpens && ServerPath(name) in s.files && Download.Downloadable(s.files[ServerPath(name)])
          case Load(name) => name in s.locals && |s.locals[name]| <= Upload.INT_MAX
          case _ => true)
    case ServerReads(dirOpens, names, _) =>
      dirOpens && forall i :: 0 <= i < |names| ==> Clean(names[i]) && names[i] != "" && names[i] != Download.END
    case _ => true
  }

  function Run(init: State, es: seq<Event>): Option<State> {
    if es == [] then Some(init)
    else
      var before := Run(init, es[..|es| - 1]);
      var e := es[|es| - 1];
      if before.Some? && Enabled(before.value, e) && Admissible(before.value, e)
      then Some(Apply(before.value, e)) else None
  }
}
