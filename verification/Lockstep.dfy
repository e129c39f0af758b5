/** The two peers of the file server stay in lockstep: the invariant of every admissible session
    and what it says about prompts, waiting and the files transferred. */
module Lockstep {
  import opened Sequences
  import opened Lines
  import opened Session
  import Download
  import Upload

  /** The server is on its way back to its command loop. */
  predicate Returning(server: Server) {
    server.SLoop? || (server.SSend? && server.next.Loop?)
  }

  /** The lines the client has yet to read: those on the wire, then those the server has
      already decided to send. */
  function Coming(s: State): seq<string> {
    s.down + if s.server.SSend? then s.server.todo else []
  }

  /** The client's command is still on its way; nothing else is going on. */
  ghost predicate Requested(s: State, cmd: Command) {
    && s.server.SLoop? && s.down == []
    && exists input :: Clean(input) && input != "" && s.c2s == Framed(input) && Classify(input) == cmd
  }

  /** A listing as the client reads it: names up to the END line, then the prompt. */
  predicate Listing(lines: seq<string>, prompt: string) {
    && lines != []
    && if lines[0] == Download.END then lines[1..] == [prompt] else lines[0] != "" && Listing(lines[1..], prompt)
  }

  /** A download as the client reads it: exactly the lines of `text`, END, then the prompt. */
  predicate Listed(lines: seq<string>, text: string, prompt: string) {
    && lines != []
    && if lines[0] == Download.END then text == "" && lines[1..] == [prompt]
       else if lines[0] == Download.START then Listed(lines[1..], text, prompt)
       else && lines[0] != ""
            && lines[0] + [LF] <= text
            && Listed(lines[1..], text[|lines[0]| + 1..], prompt)
  }

  /** Only these lines are left of the exchange, and nothing is on its way to the server. */
  predicate Answering(s: State, lines: seq<string>) {
    Returning(s.server) && s.c2s == "" && Coming(s) == lines
  }

  ghost predicate Getting(s: State, name: string, text: string) {
    var path := ServerPath(name);
    && path in s.files
    && if Requested(s, Get(name)) then text == "" && Download.Downloadable(s.files[path])
       else
         && Returning(s.server) && s.c2s == ""
         && text <= Download.Normalized(s.files[path])
         && Listed(Coming(s), Download.Normalized(s.files[path])[|text|..], s.texts.commands)
  }

  /** The client waits for READY: it is coming, or a refusal is. */
  ghost predicate AwaitingReady(s: State, name: string) {
    var path := ServerPath(name);
    || Requested(s, Load(name))
    || Answering(s, [Upload.FAILED, s.texts.commands])
    || (&& s.c2s == "" && path in s.files && s.files[path] == ""
        && (s.server == SSend([Upload.READY], AwaitSize(path)) || s.server == SSize(path))
        && Coming(s) == [Upload.READY])
  }

  function Verdict(content: string): string {
    if content == "" then Upload.FAILED else Upload.UPLOAD_DONE
  }

  /** The first `sent` bytes of content have left the client: they are on the wire behind the
      size line, or split between the wire and the server's file, or all stored. */
  ghost predicate Uploading(s: State, name: string, content: string, sent: nat) {
    var path := ServerPath(name);
    && |content| <= Upload.INT_MAX && sent <= |content|
    && path in s.files
    && match s.server
       case SSize(p) =>
         && p == path && s.down == [] && s.files[path] == ""
         && s.c2s == Upload.SizeFrame(|content|) + content[..sent]
       case SData(p, size, received) =>
         && p == path && s.down == [] && size == |content|
         && |s.files[path]| == received < size && s.files[path] + s.c2s == content[..sent]
       case _ =>
         && sent == |content| && s.files[path] == content
         && Answering(s, [Verdict(content), s.texts.commands])
  }

  ghost predicate InStep(s: State) {
    match s.client
    case CPrompt => Answering(s, [s.texts.commands])
    case CInput => s.server.SLoop? && s.c2s == "" && s.down == []
    case CList => Requested(s, List) || (Returning(s.server) && s.c2s == "" && Listing(Coming(s), s.texts.commands))
    case CGet(name, text) => Getting(s, name, text)
    case CReady(name, content) => |content| <= Upload.INT_MAX && AwaitingReady(s, name)
    case CSize(name, content) =>
      var path := ServerPath(name);
      && |content| <= Upload.INT_MAX && path in s.files && s.files[path] == ""
      && s.server == SSize(path) && s.c2s == "" && s.down == []
    case CData(name, content, sent) => Uploading(s, name, content, sent)
    case CDone(name, content) => Uploading(s, name, content, |content|)
    case COther => Requested(s, Other) || Answering(s, [s.texts.unknown, s.texts.commands])
    case CClosed => true
  }

  predicate IsExact(transfer: Transfer) {
    match transfer
    case Downloaded(_, got, had) => got == Download.Normalized(had)
    case Uploaded(_, verdict, sent, stored) => stored == sent && verdict == Verdict(sent)
  }

  /** Every transfer that has finished was exact. */
  ghost predicate TransfersExact(done: seq<Transfer>) {
    forall i :: 0 <= i < |done| ==> IsExact(done[i])
  }

  lemma OneMoreTransfer(done: seq<Transfer>, transfer: Transfer)
    requires TransfersExact(done) && IsExact(transfer)
    ensures TransfersExact(done + [transfer])
  {
  }

  ghost predicate Wired(s: State) {
    && Proper(s.texts)
    && AllClean(s.down) && s.s2c == Frames(s.down)
    && (s.server.SSend? ==> s.server.todo != [] && AllClean(s.server.todo))
  }

  /** Once the client has quit there is nothing left to keep but its finished transfers. */
  ghost predicate Inv(s: State) {
    TransfersExact(s.done) && (!s.client.CClosed? ==> Wired(s) && InStep(s))
  }

  /** One more line is on the wire; what the client will read is the same. */
  lemma SentLineIsComing(s: State, e: Event)
    requires Wired(s) && e.ServerSends? && Enabled(s, e)
    ensures var t := Apply(s, e);
            && Wired(t) && Coming(t) == Coming(s)
            && (Returning(t.server) <==> Returning(s.server))
            && (t.server.SSize? <==> s.server.todo[1..] == [] && s.server.next.AwaitSize?)
            && (t.server.SSize? ==> t.server.path == s.server.next.path)
            && (t.server.SSend? ==> t.server.next == s.server.next)
            && !t.server.SData? && !t.server.SClosed?
            && t == s.(server := t.server, s2c := t.s2c, down := t.down)
  {
    FramesAppend(s.down, s.server.todo[0]);
  }

  lemma ServerSendsKeeps(s: State, e: Event)
    requires Inv(s) && e.ServerSends? && Enabled(s, e) && !s.client.CClosed?
    ensures Wired(Apply(s, e)) && InStep(Apply(s, e))
  {
    SentLineIsComing(s, e);
  }

  /** The server takes a request off the wire whole and serves just that. */
  lemma ServesRequest(s: State, e: Event, cmd: Command)
    requires Requested(s, cmd) && e.ServerReads? && Enabled(s, e)
    ensures Apply(s, e) == Serve(s.(c2s := ""), cmd, e.dirOpens, e.names, e.fileOpens)
  {
    var input :| Clean(input) && input != "" && s.c2s == Framed(input) && Classify(input) == cmd;
    FramingRoundTrips(input, "");
    assert s.c2s + "" == s.c2s;
  }

  lemma {:induction false} ListingOf(names: seq<string>, prompt: string)
    requires forall i :: 0 <= i < |names| ==> names[i] != "" && names[i] != Download.END
    ensures Listing(names + [Download.END, prompt], prompt)
  {
    var lines := names + [Download.END, prompt];
    if names == [] {
      assert lines == [Download.END, prompt] && lines[1..] == [prompt];
    } else {
      ListingOf(names[1..], prompt);
      assert lines[1..] == names[1..] + [Download.END, prompt];
    }
  }

  lemma ListedCons(line: string, body: seq<string>, text: string, prompt: string)
    requires Listed(body, text, prompt) && line != "" && line != Download.START && line != Download.END
    ensures Listed([line] + body, line + [LF] + text, prompt)
  {
    var lines := [line] + body;
    var all := line + [LF] + text;
    assert lines[1..] == body && all[|line| + 1..] == text;
    assert line + [LF] <= all;
  }

  lemma ListedStart(body: seq<string>, text: string, prompt: string)
    requires Listed(body, text, prompt)
    ensures Listed([Download.START] + body, text, prompt)
  {
    assert ([Download.START] + body)[1..] == body;
  }

  lemma ListedEnd(prompt: string)
    ensures Listed([Download.END, prompt], "", prompt)
  {
    assert [Download.END, prompt][1..] == [prompt];
  }

  /** The lines are a clean listing of that text. */
  ghost predicate ListsText(lines: seq<string>, text: string, prompt: string) {
    AllClean(lines) && Listed(lines + [Download.END, prompt], text, prompt)
  }

  lemma ListsTextCons(line: string, lines: seq<string>, text: string, prompt: string)
    requires ListsText(lines, text, prompt) && Download.GoodLine(line) && LF !in line
    ensures ListsText([line] + lines, line + [LF] + text, prompt)
  {
    ListedCons(line, lines + [Download.END, prompt], text, prompt);
    Associative([line], lines, [Download.END, prompt]);
  }

  lemma ListsNothing(prompt: string)
    ensures ListsText([], "", prompt)
  {
    ListedEnd(prompt);
    assert [] + [Download.END, prompt] == [Download.END, prompt];
  }

  lemma FileLinesSplit(content: string)
    requires content != "" && Download.Downloadable(content)
    ensures FileLines(content) == [Download.FirstLine(content)] + FileLines(Download.AfterLine(content))
  {
    Download.ShortLineIsOneChunk(content);
  }

  lemma {:induction false} FileIsListed(content: string, prompt: string)
    requires Download.Downloadable(content)
    ensures ListsText(FileLines(content), Download.Normalized(content), prompt)
    decreases |content|
  {
    if content == "" {
      ListsNothing(prompt);
    } else {
      var line := Download.FirstLine(content);
      var rest := Download.AfterLine(content);
      FileLinesSplit(content);
      Download.NormalizedSplits(content);
      FileIsListed(rest, prompt);
      ListsTextCons(line, FileLines(rest), Download.Normalized(rest), prompt);
    }
  }

  /** The server has just decided on its answer, and both wires are empty. */
  ghost predicate Replies(t: State, lines: seq<string>, next: Next) {
    && Proper(t.texts) && lines != [] && AllClean(lines)
    && t.server == SSend(lines, next) && t.c2s == "" && t.s2c == "" && t.down == []
  }

  lemma RepliesAreWired(t: State, lines: seq<string>, next: Next)
    requires Replies(t, lines, next)
    ensures Wired(t) && Coming(t) == lines
  {
  }

  lemma ListingIsClean(x: Texts, names: seq<string>)
    requires Proper(x) && AllClean(names)
    ensures AllClean([x.files] + names + [Download.END, x.commands])
  {
  }

  lemma ListingCons(first: string, lines: seq<string>, prompt: string)
    requires Listing(lines, prompt) && first != "" && first != Download.END
    ensures Listing([first] + lines, prompt)
  {
    assert ([first] + lines)[1..] == lines;
  }

  lemma HeadedListing(x: Texts, names: seq<string>)
    requires Proper(x) && forall i :: 0 <= i < |names| ==> names[i] != "" && names[i] != Download.END
    ensures Listing([x.files] + names + [Download.END, x.commands], x.commands)
  {
    ListingOf(names, x.commands);
    ListingCons(x.files, names + [Download.END, x.commands], x.commands);
    Associative([x.files], names, [Download.END, x.commands]);
  }

  lemma ListReply(t: State, names: seq<string>)
    requires Proper(t.texts) && t.client.CList? && AllClean(names)
    requires forall i :: 0 <= i < |names| ==> names[i] != "" && names[i] != Download.END
    requires t.server == SSend([t.texts.files] + names + [Download.END, t.texts.commands], Loop)
    requires t.c2s == "" && t.s2c == "" && t.down == []
    ensures Wired(t) && InStep(t)
  {
    var lines := [t.texts.files] + names + [Download.END, t.texts.commands];
    ListingIsClean(t.texts, names);
    RepliesAreWired(t, lines, Loop);
    HeadedListing(t.texts, names);
  }

  /** What the client still has to write, once the server has begun to answer. */
  ghost predicate Remaining(s: State, name: string, text: string, rest: string) {
    && ServerPath(name) in s.files && Returning(s.server) && s.c2s == ""
    && Download.Normalized(s.files[ServerPath(name)]) == text + rest
    && Listed(Coming(s), rest, s.texts.commands)
  }

  lemma StillGetting(t: State, name: string, text: string, rest: string)
    requires Wired(t) && t.client == CGet(name, text) && Remaining(t, name, text, rest)
    ensures InStep(t)
  {
    assert !Requested(t, Get(name));
    var goal := Download.Normalized(t.files[ServerPath(name)]);
    assert goal[|text|..] == rest && goal[..|text|] == text;
  }

  lemma GetReply(t: State, name: string, lines: seq<string>)
    requires Proper(t.texts) && t.client == CGet(name, "")
    requires ServerPath(name) in t.files
    requires ListsText(lines, Download.Normalized(t.files[ServerPath(name)]), t.texts.commands)
    requires t.server == SSend([Download.START] + lines + [Download.END, t.texts.commands], Loop)
    requires t.c2s == "" && t.s2c == "" && t.down == []
    ensures Wired(t) && InStep(t)
  {
    var body := lines + [Download.END, t.texts.commands];
    var goal := Download.Normalized(t.files[ServerPath(name)]);
    ListedStart(body, goal, t.texts.commands);
    Associative([Download.START], lines, [Download.END, t.texts.commands]);
    RepliesAreWired(t, [Download.START] + body, Loop);
    assert "" + goal == goal;
    StillGetting(t, name, "", goal);
  }

  lemma LoadReply(t: State, name: string, content: string)
    requires Proper(t.texts) && t.client == CReady(name, content) && |content| <= Upload.INT_MAX
    requires t.c2s == "" && t.s2c == "" && t.down == []
    requires || t.server == SSend([Upload.FAILED, t.texts.commands], Loop)
             || (&& t.server == SSend([Upload.READY], AwaitSize(ServerPath(name)))
                 && ServerPath(name) in t.files && t.files[ServerPath(name)] == "")
    ensures Wired(t) && InStep(t)
  {
    RepliesAreWired(t, t.server.todo, t.server.next);
  }

  lemma OtherReply(t: State)
    requires Proper(t.texts) && t.client.COther?
    requires t.server == SSend([t.texts.unknown, t.texts.commands], Loop)
    requires t.c2s == "" && t.s2c == "" && t.down == []
    ensures Wired(t) && InStep(t)
  {
    RepliesAreWired(t, t.server.todo, Loop);
  }

  /** A command the server can read is a request it can serve. */
  lemma OnlyRequestsAreRead(s: State, e: Event)
    requires Inv(s) && !s.client.CClosed? && e.ServerReads? && Enabled(s, e)
    ensures s.down == [] && s.s2c == "" && Proper(s.texts)
    ensures match s.client
            case CList => Requested(s, List)
            case CGet(name, text) =>
              && Requested(s, Get(name)) && text == "" && ServerPath(name) in s.files
              && Download.Downloadable(s.files[ServerPath(name)])
            case CReady(name, content) => Requested(s, Load(name)) && |content| <= Upload.INT_MAX
            case COther => Requested(s, Other)
            case _ => false
  {
  }

  lemma ServerReadsListKeeps(s: State, e: Event)
    requires Inv(s) && s.client.CList? && e.ServerReads? && Enabled(s, e) && Admissible(s, e)
    ensures Wired(Apply(s, e)) && InStep(Apply(s, e))
  {
    OnlyRequestsAreRead(s, e);
    ServesRequest(s, e, List);
    ListReply(Apply(s, e), e.names);
  }

  lemma ServerReadsGetKeeps(s: State, e: Event)
    requires Inv(s) && s.client.CGet? && e.ServerReads? && Enabled(s, e)
    ensures Wired(Apply(s, e)) && InStep(Apply(s, e))
  {
    OnlyRequestsAreRead(s, e);
    var name := s.client.name;
    ServesRequest(s, e, Get(name));
    FileIsListed(s.files[ServerPath(name)], s.texts.commands);
    GetReply(Apply(s, e), name, FileLines(s.files[ServerPath(name)]));
  }

  lemma ServerReadsLoadKeeps(s: State, e: Event)
    requires Inv(s) && s.client.CReady? && e.ServerReads? && Enabled(s, e)
    ensures Wired(Apply(s, e)) && InStep(Apply(s, e))
  {
    OnlyRequestsAreRead(s, e);
    ServesRequest(s, e, Load(s.client.name));
    LoadReply(Apply(s, e), s.client.name, s.client.content);
  }

  lemma ServerReadsOtherKeeps(s: State, e: Event)
    requires Inv(s) && s.client.COther? && e.ServerReads? && Enabled(s, e)
    ensures Wired(Apply(s, e)) && InStep(Apply(s, e))
  {
    OnlyRequestsAreRead(s, e);
    ServesRequest(s, e, Other);
    OtherReply(Apply(s, e));
  }

  lemma ServerReadsKeeps(s: State, e: Event)
    requires Inv(s) && !s.client.CClosed? && e.ServerReads? && Enabled(s, e) && Admissible(s, e)
    ensures Wired(Apply(s, e)) && InStep(Apply(s, e))
  {
    OnlyRequestsAreRead(s, e);
    match s.client
    case CList => ServerReadsListKeeps(s, e);
    case CGet(_, _) => ServerReadsGetKeeps(s, e);
    case CReady(_, _) => ServerReadsLoadKeeps(s, e);
    case COther => ServerReadsOtherKeeps(s, e);
  }

  /** The size line is read off whole; the file data behind it stays on the wire. */
  lemma ServesSize(s: State, e: Event, content: string, sent: nat)
    requires e.ServerReadsSize? && Enabled(s, e)
    requires |content| <= Upload.INT_MAX && sent <= |content|
    requires s.c2s == Upload.SizeFrame(|content|) + content[..sent]
    ensures Apply(s, e) == s.(c2s := content[..sent],
                              server := if content == "" then SSend([Upload.FAILED, s.texts.commands], Loop)
                                        else SData(s.server.path, |content|, 0))
  {
    Upload.SizeLineIsRead(|content|, content[..sent]);
  }

  lemma SizeServed(s: State, t: State, content: string, sent: nat)
    requires Wired(s) && s.server.SSize? && (s.client.CData? || s.client.CDone?)
    requires s.client.content == content && sent == (if s.client.CData? then s.client.sent else |content|)
    requires Uploading(s, s.client.name, content, sent)
    requires t == s.(c2s := content[..sent],
                     server := if content == "" then SSend([Upload.FAILED, s.texts.commands], Loop)
                               else SData(s.server.path, |content|, 0))
    ensures Wired(t) && InStep(t)
  {
    if content == "" {
      assert Coming(t) == [Upload.FAILED, s.texts.commands];
    } else {
      assert "" + t.c2s == t.c2s;
    }
  }

  lemma ServerReadsSizeKeeps(s: State, e: Event)
    requires Inv(s) && e.ServerReadsSize? && Enabled(s, e) && !s.client.CClosed?
    ensures Wired(Apply(s, e)) && InStep(Apply(s, e))
  {
    assert s.client.CData? || s.client.CDone?;
    var content := s.client.content;
    var sent := if s.client.CData? then s.client.sent else |content|;
    assert Uploading(s, s.client.name, content, sent);
    ServesSize(s, e, content, sent);
    SizeServed(s, Apply(s, e), content, sent);
  }

  /** The last byte is stored and the verdict decided. */
  lemma UploadStored(s: State, t: State, content: string)
    requires Wired(s) && (s.client.CData? || s.client.CDone?) && s.client.content == content && s.down == []
    requires s.client.CData? ==> s.client.sent == |content|
    requires 0 < |content| <= Upload.INT_MAX
    requires t == s.(server := SSend([Upload.UPLOAD_DONE, s.texts.commands], Loop), c2s := "", files := t.files)
    requires ServerPath(s.client.name) in t.files && t.files[ServerPath(s.client.name)] == content
    ensures Wired(t) && InStep(t)
  {
    assert Coming(t) == [Upload.UPLOAD_DONE, s.texts.commands];
  }

  lemma ServerReceivesKeeps(s: State, e: Event)
    requires Inv(s) && e.ServerReceives? && Enabled(s, e) && !s.client.CClosed?
    ensures Wired(Apply(s, e)) && InStep(Apply(s, e))
  {
    var content := s.client.content;
    var sent := if s.client.CData? then s.client.sent else |content|;
    var SData(path, size, received) := s.server;
    var t := Apply(s, e);
    assert t.files[path] + t.c2s == s.files[path] + s.c2s;
    if received + e.n >= size {
      assert |t.files[path]| == size && |t.files[path] + t.c2s| == sent;
      assert t.c2s == "" && t.files[path] == t.files[path] + t.c2s;
      assert content[..sent] == content;
      UploadStored(s, t, content);
    }
  }

  /** With a size that is an int the server always asks for something. */
  lemma NeverGivesUp(s: State)
    requires Inv(s) && !s.client.CClosed?
    ensures !Enabled(s, ServerGivesUp)
  {
    if s.server.SData? {
      Upload.ToIntBounds(s.server.size - s.server.received);
    }
  }

  /** The first line is gone from the wire. */
  ghost function Popped(s: State): State
    requires Wired(s) && s.down != []
  {
    s.(s2c := Frames(s.down[1..]), down := s.down[1..])
  }

  /** The client reads exactly the first line on the wire. */
  lemma ClientReadsFirst(s: State, e: Event)
    requires Wired(s) && e.ClientReads? && Enabled(s, e)
    ensures s.down != [] && Apply(s, e) == ClientTakes(Popped(s), s.down[0])
    ensures UpTo(s.down[0], NUL) == s.down[0]
  {
    ReadFirst(s.down);
  }

  lemma PoppedIsWired(s: State)
    requires Wired(s) && s.down != []
    ensures Wired(Popped(s))
    ensures Coming(s) != [] && Coming(s)[0] == s.down[0] && Coming(Popped(s)) == Coming(s)[1..]
  {
  }

  /** Back at the loop head: only the prompt is left, and the server is returning to it. */
  lemma BackAtPrompt(s: State, t: State)
    requires Wired(s) && s.down != [] && Returning(s.server) && s.c2s == ""
    requires Coming(s)[1..] == [s.texts.commands]
    requires t.client.CPrompt? && t == Popped(s).(client := t.client, locals := t.locals, done := t.done)
    ensures Wired(t) && InStep(t)
  {
    PoppedIsWired(s);
    assert Coming(t) == Coming(Popped(s));
  }

  lemma ClientReadsPrompt(s: State, e: Event)
    requires Inv(s) && e.ClientReads? && Enabled(s, e) && s.client.CPrompt?
    ensures Wired(Apply(s, e)) && InStep(Apply(s, e))
  {
    ClientReadsFirst(s, e);
    PoppedIsWired(s);
  }

  lemma ClientReadsListing(s: State, e: Event)
    requires Inv(s) && e.ClientReads? && Enabled(s, e) && s.client.CList?
    ensures Wired(Apply(s, e)) && InStep(Apply(s, e))
  {
    ClientReadsFirst(s, e);
    PoppedIsWired(s);
    assert !Requested(s, List);
    if s.down[0] == Download.END {
      BackAtPrompt(s, Apply(s, e));
    } else {
      assert Apply(s, e) == Popped(s);
    }
  }

  lemma GettingFirst(s: State) returns (rest: string)
    requires Wired(s) && s.down != [] && s.client.CGet? && Getting(s, s.client.name, s.client.text)
    ensures Remaining(s, s.client.name, s.client.text, rest)
  {
    rest := Download.Normalized(s.files[ServerPath(s.client.name)])[|s.client.text|..];
  }

  lemma ClientReadsEnd(s: State, e: Event)
    requires Inv(s) && e.ClientReads? && Enabled(s, e) && s.client.CGet?
    requires s.down != [] && s.down[0] == Download.END
    ensures Wired(Apply(s, e)) && InStep(Apply(s, e)) && TransfersExact(Apply(s, e).done)
  {
    ClientReadsFirst(s, e);
    PoppedIsWired(s);
    var rest := GettingFirst(s);
    assert rest == "" && s.client.text + rest == s.client.text;
    OneMoreTransfer(s.done, Downloaded(s.client.name, s.client.text, s.files[ServerPath(s.client.name)]));
    BackAtPrompt(s, Apply(s, e));
  }

  lemma TakesLine(text: string, line: string, rest: string)
    requires line + [LF] <= rest
    ensures text + rest == text + line + [LF] + rest[|line| + 1..]
  {
    assert rest == (line + [LF]) + rest[|line| + 1..];
  }

  lemma ClientReadsFileLine(s: State, e: Event)
    requires Inv(s) && e.ClientReads? && Enabled(s, e) && s.client.CGet?
    requires s.down != [] && s.down[0] != Download.END
    ensures Wired(Apply(s, e)) && InStep(Apply(s, e)) && Apply(s, e).done == s.done
  {
    ClientReadsFirst(s, e);
    PoppedIsWired(s);
    var rest := GettingFirst(s);
    var CGet(name, text) := s.client;
    var line := s.down[0];
    var t := Apply(s, e);
    if line == Download.START {
      assert t == Popped(s);
      StillGetting(t, name, text, rest);
    } else {
      var after := rest[|line| + 1..];
      TakesLine(text, line, rest);
      assert t == Popped(s).(client := CGet(name, text + line + [LF]));
      assert Coming(t) == Coming(Popped(s));
      StillGetting(t, name, text + line + [LF], after);
    }
  }

  /** READY is on the wire, and the server waits for the size line. */
  ghost predicate ReadyArrived(s: State, name: string) {
    var path := ServerPath(name);
    && s.down == [Upload.READY] && s.server == SSize(path) && s.c2s == ""
    && path in s.files && s.files[path] == ""
  }

  lemma ReadyOrRefused(s: State, name: string)
    requires Wired(s) && s.down != [] && AwaitingReady(s, name)
    ensures Answering(s, [Upload.FAILED, s.texts.commands]) || ReadyArrived(s, name)
  {
    assert !Requested(s, Load(name));
  }

  lemma ReadyIsTaken(s: State, content: string, t: State)
    requires Wired(s) && s.client.CReady? && s.client.content == content && |content| <= Upload.INT_MAX
    requires ReadyArrived(s, s.client.name)
    requires t == Popped(s).(client := CSize(s.client.name, content))
    ensures Wired(t) && InStep(t)
  {
    assert t.down == [];
  }

  lemma ClientReadsReady(s: State, e: Event)
    requires Inv(s) && e.ClientReads? && Enabled(s, e) && s.client.CReady?
    ensures Wired(Apply(s, e)) && InStep(Apply(s, e))
  {
    ClientReadsFirst(s, e);
    ReadyOrRefused(s, s.client.name);
    if ReadyArrived(s, s.client.name) {
      ReadyIsTaken(s, s.client.content, Apply(s, e));
    } else {
      PoppedIsWired(s);
      BackAtPrompt(s, Apply(s, e));
    }
  }

  /** When a verdict is there to be read, the upload is complete and this is it. */
  lemma VerdictIsDue(s: State)
    requires Wired(s) && s.down != [] && s.client.CDone?
    requires Uploading(s, s.client.name, s.client.content, |s.client.content|)
    ensures var content := s.client.content;
            && Answering(s, [Verdict(content), s.texts.commands])
            && ServerPath(s.client.name) in s.files && s.files[ServerPath(s.client.name)] == content
  {
  }

  lemma ClientReadsVerdict(s: State, e: Event)
    requires Inv(s) && e.ClientReads? && Enabled(s, e) && s.client.CDone?
    ensures Wired(Apply(s, e)) && InStep(Apply(s, e)) && TransfersExact(Apply(s, e).done)
  {
    ClientReadsFirst(s, e);
    PoppedIsWired(s);
    VerdictIsDue(s);
    var content := s.client.content;
    OneMoreTransfer(s.done, Uploaded(s.client.name, Verdict(content), content, content));
    BackAtPrompt(s, Apply(s, e));
  }

  lemma ClientReadsAnswer(s: State, e: Event)
    requires Inv(s) && e.ClientReads? && Enabled(s, e) && s.client.COther?
    ensures Wired(Apply(s, e)) && InStep(Apply(s, e))
  {
    ClientReadsFirst(s, e);
    PoppedIsWired(s);
    assert !Requested(s, Other);
    BackAtPrompt(s, Apply(s, e));
  }

  lemma ClientTypesKeeps(s: State, e: Event)
    requires Inv(s) && e.ClientTypes? && Enabled(s, e) && Admissible(s, e)
    ensures Inv(Apply(s, e))
  {
    assert "" + Framed(e.input) == Framed(e.input);
    var t := Apply(s, e);
    if !t.client.CClosed? {
      assert Requested(t, Classify(e.input));
    }
  }

  lemma ClientSendsSizeKeeps(s: State, e: Event)
    requires Inv(s) && e.ClientSendsSize? && Enabled(s, e)
    ensures Inv(Apply(s, e))
  {
    var content := s.client.content;
    var frame := Upload.SizeFrame(|content|);
    assert "" + frame == frame && frame + content[..0] == frame;
  }

  lemma ClientSendsChunkKeeps(s: State, e: Event)
    requires Inv(s) && e.ClientSendsChunk? && Enabled(s, e)
    ensures Inv(Apply(s, e))
  {
    var CData(name, content, sent) := s.client;
    if sent < |content| {
      var end := if sent + BUF_SIZE < |content| then sent + BUF_SIZE else |content|;
      var chunk := content[sent..end];
      assert content[..end] == content[..sent] + chunk;
      match s.server
      case SSize(p) => Associative(Upload.SizeFrame(|content|), content[..sent], chunk);
      case SData(p, _, _) => Associative(s.files[p], s.c2s, chunk);
      case _ =>
    }
  }

  lemma ClientReadsFileKeeps(s: State, e: Event)
    requires Inv(s) && e.ClientReads? && Enabled(s, e) && s.client.CGet?
    ensures Wired(Apply(s, e)) && InStep(Apply(s, e)) && TransfersExact(Apply(s, e).done)
  {
    ClientReadsFirst(s, e);
    if s.down[0] == Download.END {
      ClientReadsEnd(s, e);
    } else {
      ClientReadsFileLine(s, e);
    }
  }

  /** Only the last line of a transfer is recorded. */
  lemma OthersRecordNothing(s: State, e: Event)
    requires e.ClientReads? && Enabled(s, e) && !s.client.CGet? && !s.client.CDone?
    ensures Apply(s, e).done == s.done
  {
  }

  lemma ClientReadsKeeps(s: State, e: Event)
    requires Inv(s) && e.ClientReads? && Enabled(s, e)
    ensures Wired(Apply(s, e)) && InStep(Apply(s, e)) && TransfersExact(Apply(s, e).done)
  {
    match s.client
    case CPrompt => ClientReadsPrompt(s, e); OthersRecordNothing(s, e);
    case CList => ClientReadsListing(s, e); OthersRecordNothing(s, e);
    case CGet(_, _) => ClientReadsFileKeeps(s, e);
    case CReady(_, _) => ClientReadsReady(s, e); OthersRecordNothing(s, e);
    case CDone(_, _) => ClientReadsVerdict(s, e);
    case COther => ClientReadsAnswer(s, e); OthersRecordNothing(s, e);
  }

  lemma ServerStepKeeps(s: State, e: Event)
    requires Inv(s) && !s.client.CClosed? && Enabled(s, e) && Admissible(s, e)
    requires ByServer(e)
    ensures Wired(Apply(s, e)) && InStep(Apply(s, e))
  {
    match e
    case ServerSends => ServerSendsKeeps(s, e);
    case ServerReads(_, _, _) => ServerReadsKeeps(s, e);
    case ServerReadsSize => ServerReadsSizeKeeps(s, e);
    case ServerReceives(_) => ServerReceivesKeeps(s, e);
    case ServerGivesUp => NeverGivesUp(s);
  }

  lemma ServeLeavesClient(s: State, cmd: Command, dirOpens: bool, names: seq<string>, fileOpens: bool)
    ensures var t := Serve(s, cmd, dirOpens, names, fileOpens); t.client == s.client && t.done == s.done
  {
  }

  /** The server's steps leave the client where it is and record nothing. */
  lemma ServerLeavesClient(s: State, e: Event)
    requires Enabled(s, e) && ByServer(e)
    ensures Apply(s, e).client == s.client && Apply(s, e).done == s.done
  {
    if e.ServerReads? {
      var Line(buf, rest) := ReadLine(s.c2s, BUF_SIZE);
      ServeLeavesClient(s.(c2s := rest), Classify(UpTo(buf, NUL)), e.dirOpens, e.names, e.fileOpens);
    }
  }

  lemma StepKeepsInv(s: State, e: Event)
    requires Inv(s) && Enabled(s, e) && Admissible(s, e)
    ensures Inv(Apply(s, e))
  {
    if ByServer(e) {
      ServerLeavesClient(s, e);
      if !s.client.CClosed? {
        ServerStepKeeps(s, e);
      }
    } else {
      match e
      case ClientReads => ClientReadsKeeps(s, e);
      case ClientTypes(_, _) => ClientTypesKeeps(s, e);
      case ClientSendsSize => ClientSendsSizeKeeps(s, e);
      case ClientSendsChunk => ClientSendsChunkKeeps(s, e);
    }
  }

  lemma {:induction false} RunsKeepInv(files: map<string, string>, locals: map<string, string>, es: seq<Event>)
    requires Run(Start(files, locals), es).Some?
    ensures Inv(Run(Start(files, locals), es).value)
  {
    var init := Start(files, locals);
    if es == [] {
      TextsAreProper();
    } else {
      RunsKeepInv(files, locals, es[..|es| - 1]);
      StepKeepsInv(Run(init, es[..|es| - 1]).value, es[|es| - 1]);
    }
  }

  predicate ServerCanStep(s: State) {
    || Enabled(s, ServerSends)
    || Enabled(s, ServerReads(true, [], true))
    || Enabled(s, ServerReadsSize)
    || Enabled(s, ServerReceives(1))
    || Enabled(s, ServerGivesUp)
  }

  ghost predicate InLockstep(s: State) {
    && Clean(s.texts.commands)
    && s.server.SLoop? && s.c2s == "" && s.s2c == Framed(s.texts.commands)
  }

  lemma OnePromptIsUnread(s: State)
    requires Wired(s) && Answering(s, [s.texts.commands]) && !ServerCanStep(s)
    ensures InLockstep(s)
  {
    if !s.server.SSend? {
      assert Coming(s) == s.down && s.down[1..] == [];
      assert Frames(s.down) == Framed(s.down[0]) + Frames([]);
      assert Framed(s.texts.commands) + "" == Framed(s.texts.commands);
    }
  }

  /** Lockstep: whenever the client is back at its loop head and the server has run until it is
      blocked, the server waits for a command, exactly the one prompt line is unread, and
      nothing is on its way to the server. */
  lemma {:induction false} PeersStayInLockstep(files: map<string, string>, locals: map<string, string>, es: seq<Event>)
    requires Run(Start(files, locals), es).Some?
    requires Run(Start(files, locals), es).value.client.CPrompt?
    requires !ServerCanStep(Run(Start(files, locals), es).value)
    ensures InLockstep(Run(Start(files, locals), es).value)
  {
    RunsKeepInv(files, locals, es);
    OnePromptIsUnread(Run(Start(files, locals), es).value);
  }

  lemma BlockedUploadIsServed(s: State) returns (e: Event)
    requires Inv(s) && s.down == [] && !s.server.SSend? && s.client.CDone?
    ensures Enabled(s, e) && Admissible(s, e) && !e.ClientTypes? && !e.ServerReads?
  {
    var content := s.client.content;
    if s.server.SSize? {
      Upload.SizeLineIsRead(|content|, content[..|content|]);
      e := ServerReadsSize;
    } else {
      assert |s.files[s.server.path] + s.c2s| == |content|;
      Upload.ToIntBounds(|content| - s.server.received);
      e := ServerReceives(1);
    }
  }

  /** The command a waiting client has sent. */
  function PendingCommand(client: Client): Command {
    match client
    case CList => List
    case CGet(name, _) => Get(name)
    case CReady(name, _) => Load(name)
    case _ => Other
  }

  lemma RequestIsServed(s: State, cmd: Command)
    requires Requested(s, cmd)
    ensures Enabled(s, ServerReads(true, [], true)) && Admissible(s, ServerReads(true, [], true))
  {
    var input :| Clean(input) && input != "" && s.c2s == Framed(input) && Classify(input) == cmd;
    FramingRoundTrips(input, "");
    assert s.c2s + "" == s.c2s;
  }

  /** The client waits, no line is on its way and the server is not sending: the server has
      something to read. */
  lemma BlockedClientIsServed(s: State) returns (e: Event)
    requires Inv(s) && s.down == [] && !s.server.SSend?
    requires || s.client.CPrompt? || s.client.CList? || s.client.CGet? || s.client.CReady?
             || s.client.CDone? || s.client.COther?
    ensures Enabled(s, e) && Admissible(s, e) && (e.ServerReads? ==> e.fileOpens)
  {
    if s.client.CDone? {
      e := BlockedUploadIsServed(s);
      return;
    }
    RequestIsServed(s, PendingCommand(s.client));
    e := ServerReads(true, [], true);
  }

  lemma SomeoneCanStep(s: State) returns (e: Event)
    requires Inv(s) && !s.client.CInput? && !s.client.CClosed?
    ensures Enabled(s, e) && Admissible(s, e) && (e.ServerReads? ==> e.fileOpens)
  {
    if s.client.CSize? {
      e := ClientSendsSize;
    } else if s.client.CData? {
      e := ClientSendsChunk;
    } else if s.server.SSend? {
      e := ServerSends;
    } else if s.down != [] {
      ReadFirst(s.down);
      e := ClientReads;
    } else {
      e := BlockedClientIsServed(s);
    }
  }

  /** Neither peer ever waits for the other in vain: unless the client waits for its user or
      has quit, one of the two can step. */
  lemma {:induction false} NobodyWaitsForEver(files: map<string, string>, locals: map<string, string>, es: seq<Event>)
    returns (e: Event)
    requires Run(Start(files, locals), es).Some?
    requires var c := Run(Start(files, locals), es).value.client; !c.CInput? && !c.CClosed?
    ensures var s := Run(Start(files, locals), es).value; Enabled(s, e) && Admissible(s, e)
  {
    RunsKeepInv(files, locals, es);
    e := SomeoneCanStep(Run(Start(files, locals), es).value);
  }

  /** Every download that has finished wrote the server's file, up to a final newline; every
      upload stored the client's file and got the right verdict. */
  lemma {:induction false} FinishedTransfersAreExact(files: map<string, string>, locals: map<string, string>,
                                                    es: seq<Event>, i: nat)
    requires Run(Start(files, locals), es).Some? && i < |Run(Start(files, locals), es).value.done|
    ensures IsExact(Run(Start(files, locals), es).value.done[i])
  {
    RunsKeepInv(files, locals, es);
  }
}
