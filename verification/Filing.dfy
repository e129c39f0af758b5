/** Where a session's transfers end up (week5/Iserver.c and week5/Iclient.c): in every interleaving
    the server's files are the uploads finished so far, one after the other, and the client's files
    the downloads, each under its own name. */
module Filing {
  import opened Lines
  import opened Session
  import opened Lockstep
  import Download
  import Upload

  // ---- Names and paths ----------------------------------------------------------------------

  /** What snprintf leaves of a name behind a prefix: at most n bytes. */
  function Cut(name: string, n: nat): string {
    if |name| <= n then name else name[..n]
  }

  function Stored(name: string): string {
    "./Files/" + Cut(name, 4087)
  }

  function Saved(name: string): string {
    "downloaded_" + Cut(name, 4084)
  }

  lemma CutBehind(prefix: string, name: string, n: nat)
    requires |prefix| + n == 4095
    ensures Path(prefix, name) == prefix + Cut(name, n)
  {
    if |name| > n {
      assert (prefix + name)[..4095] == prefix + name[..n];
    }
  }

  /** The server keeps a file in ./Files under its name, and the client saves a download under its
      name behind downloaded_; only a name too long for the buffer is cut. */
  lemma PathsAreLiteral(name: string)
    ensures ServerPath(name) == Stored(name)
    ensures Path("downloaded_", name) == Saved(name)
  {
    CutBehind("./Files/", name, 4087);
    CutBehind("downloaded_", name, 4084);
  }

  lemma BehindThePrefix(prefix: string, name: string)
    ensures (prefix + name)[|prefix|..] == name
  {
  }

  /** Different names that fit are different files. */
  lemma NamesAreKeptApart(a: string, b: string)
    ensures Stored(a) == Stored(b) <==> Cut(a, 4087) == Cut(b, 4087)
    ensures Saved(a) == Saved(b) <==> Cut(a, 4084) == Cut(b, 4084)
  {
    BehindThePrefix("./Files/", Cut(a, 4087));
    BehindThePrefix("./Files/", Cut(b, 4087));
    BehindThePrefix("downloaded_", Cut(a, 4084));
    BehindThePrefix("downloaded_", Cut(b, 4084));
  }

  // ---- The transfers, one after the other ---------------------------------------------------

  function Uploads(files: map<string, string>, done: seq<Transfer>): map<string, string> {
    if done == [] then files
    else
      var before := Uploads(files, done[..|done| - 1]);
      match done[|done| - 1]
      case Uploaded(name, _, sent, _) => before[Stored(name) := sent]
      case Downloaded(_, _, _) => before
  }

  function Downloads(locals: map<string, string>, done: seq<Transfer>): map<string, string> {
    if done == [] then locals
    else
      var before := Downloads(locals, done[..|done| - 1]);
      match done[|done| - 1]
      case Downloaded(name, got, _) => before[Saved(name) := got]
      case Uploaded(_, _, _, _) => before
  }

  /** The server has opened the file of an upload that is not finished yet. */
  predicate UnderWay(s: State) {
    match s.client
    case CReady(_, _) => s.server.SSize? || (s.server.SSend? && s.server.next.AwaitSize?)
    case CSize(_, _) => true
    case CData(_, _, _) => true
    case CDone(_, _) => true
    case _ => false
  }

  /** The files are the finished uploads; only the one under way may differ. */
  ghost predicate FilesFollow(s: State, files: map<string, string>) {
    if UnderWay(s) then
      s.files - {Stored(s.client.name)} == Uploads(files, s.done) - {Stored(s.client.name)}
    else s.files == Uploads(files, s.done)
  }

  /** Each download found what the uploads before it had left. */
  ghost predicate DownloadsFound(done: seq<Transfer>, files: map<string, string>) {
    forall i :: 0 <= i < |done| && done[i].Downloaded? ==>
      var there := Uploads(files, done[..i]);
      Stored(done[i].name) in there && done[i].had == there[Stored(done[i].name)]
  }

  /** After the client has quit the server only reads that. */
  ghost predicate Farewell(s: State) {
    s.server.SClosed? || (s.server.SLoop? && s.c2s == Framed("quit"))
  }

  ghost predicate Filed(s: State, files: map<string, string>, locals: map<string, string>) {
    && Inv(s)
    && s.locals == Downloads(locals, s.done)
    && FilesFollow(s, files)
    && DownloadsFound(s.done, files)
    && (s.client.CClosed? ==> Farewell(s))
  }

  // ---- The server's steps ---------------------------------------------------------------------

  lemma ServeLeavesLocals(s: State, cmd: Command, dirOpens: bool, names: seq<string>, fileOpens: bool)
    ensures var t := Serve(s, cmd, dirOpens, names, fileOpens);
            && t.locals == s.locals
            && t.files == (if cmd.Load? && fileOpens then s.files[ServerPath(cmd.name) := ""] else s.files)
  {
  }

  lemma ServerLeavesLocals(s: State, e: Event)
    requires Enabled(s, e) && ByServer(e)
    ensures Apply(s, e).locals == s.locals
  {
    if e.ServerReads? {
      var Line(buf, rest) := ReadLine(s.c2s, BUF_SIZE);
      ServeLeavesLocals(s.(c2s := rest), Classify(UpTo(buf, NUL)), e.dirOpens, e.names, e.fileOpens);
    }
  }

  lemma OpenedDiffersThere(s: State, t: State, name: string, files: map<string, string>)
    requires s.client.CReady? && s.client.name == name && t.client == s.client && t.done == s.done
    requires !UnderWay(s) && FilesFollow(s, files)
    requires t.files == (if UnderWay(t) then s.files[Stored(name) := ""] else s.files)
    ensures FilesFollow(t, files)
  {
    assert s.files[Stored(name) := ""] - {Stored(name)} == s.files - {Stored(name)};
  }

  lemma LoadServed(s: State, name: string, dirOpens: bool, names: seq<string>, fileOpens: bool)
    requires s.client.CReady?
    ensures var t := Serve(s, Load(name), dirOpens, names, fileOpens);
            && t.client == s.client && t.done == s.done && (UnderWay(t) <==> fileOpens)
            && t.files == if fileOpens then s.files[ServerPath(name) := ""] else s.files
  {
  }

  lemma LoadOpensItsFile(s: State, e: Event, files: map<string, string>)
    requires Inv(s) && FilesFollow(s, files) && s.client.CReady? && e.ServerReads? && Enabled(s, e)
    ensures FilesFollow(Apply(s, e), files)
  {
    OnlyRequestsAreRead(s, e);
    var name := s.client.name;
    ServesRequest(s, e, Load(name));
    LoadServed(s.(c2s := ""), name, e.dirOpens, e.names, e.fileOpens);
    PathsAreLiteral(name);
    OpenedDiffersThere(s, Apply(s, e), name, files);
  }

  lemma OtherCommandsLeaveFiles(s: State, e: Event, files: map<string, string>)
    requires Inv(s) && FilesFollow(s, files) && !s.client.CReady? && !s.client.CClosed?
    requires e.ServerReads? && Enabled(s, e)
    ensures FilesFollow(Apply(s, e), files)
  {
    OnlyRequestsAreRead(s, e);
    ServesRequest(s, e, PendingCommand(s.client));
    ServeLeavesLocals(s.(c2s := ""), PendingCommand(s.client), e.dirOpens, e.names, e.fileOpens);
    ServerLeavesClient(s, e);
  }

  lemma QuitIsQuit()
    ensures Clean("quit") && Classify("quit") == Quit
  {
  }

  lemma QuitIsServed(s: State, e: Event)
    requires s.server.SLoop? && s.c2s == Framed("quit") && e.ServerReads? && Enabled(s, e)
    ensures Apply(s, e) == s.(c2s := "", server := SClosed)
  {
    QuitIsQuit();
    FramingRoundTrips("quit", "");
    assert s.c2s + "" == s.c2s;
  }

  lemma QuitIsRead(s: State, e: Event)
    requires Farewell(s) && ByServer(e) && Enabled(s, e)
    ensures Farewell(Apply(s, e)) && Apply(s, e).files == s.files
  {
    if e.ServerReads? {
      QuitIsServed(s, e);
    }
  }

  lemma ReceivingStaysInItsFile(s: State, e: Event, files: map<string, string>)
    requires Inv(s) && FilesFollow(s, files) && e.ServerReceives? && Enabled(s, e) && !s.client.CClosed?
    ensures FilesFollow(Apply(s, e), files)
  {
    PathsAreLiteral(s.client.name);
    var path := ServerPath(s.client.name);
    assert s.server.path == path;
    assert Apply(s, e).files - {path} == s.files - {path};
  }

  lemma ServerFiles(s: State, e: Event, files: map<string, string>)
    requires Inv(s) && FilesFollow(s, files) && Enabled(s, e) && ByServer(e) && !s.client.CClosed?
    ensures FilesFollow(Apply(s, e), files)
  {
    ServerLeavesClient(s, e);
    match e
    case ServerSends => SentLineIsComing(s, e);
    case ServerReads(_, _, _) =>
      if s.client.CReady? {
        LoadOpensItsFile(s, e, files);
      } else {
        OtherCommandsLeaveFiles(s, e, files);
      }
    case ServerReadsSize =>
    case ServerReceives(_) => ReceivingStaysInItsFile(s, e, files);
    case ServerGivesUp => NeverGivesUp(s);
  }

  // ---- The client's steps ---------------------------------------------------------------------

  lemma UploadsAppend(files: map<string, string>, done: seq<Transfer>, last: Transfer)
    ensures Uploads(files, done + [last])
         == match last
            case Uploaded(name, _, sent, _) => Uploads(files, done)[Stored(name) := sent]
            case Downloaded(_, _, _) => Uploads(files, done)
    ensures Downloads(files, done + [last])
         == match last
            case Downloaded(name, got, _) => Downloads(files, done)[Saved(name) := got]
            case Uploaded(_, _, _, _) => Downloads(files, done)
  {
    assert (done + [last])[..|done|] == done;
  }

  lemma SameElsewhere(a: map<string, string>, b: map<string, string>, key: string)
    requires a - {key} == b - {key} && key in a
    ensures a == b[key := a[key]]
  {
    forall k | k in a || k in b ensures k in a <==> k in b[key := a[key]] {
      if k != key {
        assert k in a - {key} <==> k in b - {key};
      }
    }
    forall k | k in a ensures a[k] == b[key := a[key]][k] {
      if k != key {
        assert (a - {key})[k] == (b - {key})[k];
      }
    }
  }

  lemma FoundSoFar(done: seq<Transfer>, last: Transfer, files: map<string, string>)
    requires DownloadsFound(done, files)
    requires last.Downloaded? ==>
               Stored(last.name) in Uploads(files, done) && last.had == Uploads(files, done)[Stored(last.name)]
    ensures DownloadsFound(done + [last], files)
  {
    var all := done + [last];
    forall i | 0 <= i < |all| && all[i].Downloaded?
      ensures Stored(all[i].name) in Uploads(files, all[..i])
      ensures all[i].had == Uploads(files, all[..i])[Stored(all[i].name)]
    {
      assert all[..i] == done[..i];
      if i < |done| {
        assert all[i] == done[i];
      } else {
        assert done[..i] == done;
      }
    }
  }

  lemma VerdictIsFiled(s: State, e: Event, files: map<string, string>, locals: map<string, string>)
    requires Filed(s, files, locals) && e.ClientReads? && Enabled(s, e) && s.client.CDone?
    ensures Filed(Apply(s, e), files, locals)
  {
    ClientReadsVerdict(s, e);
    ClientReadsFirst(s, e);
    VerdictIsDue(s);
    var content, name := s.client.content, s.client.name;
    var last := Uploaded(name, s.down[0], content, content);
    PathsAreLiteral(name);
    UploadsAppend(files, s.done, last);
    UploadsAppend(locals, s.done, last);
    SameElsewhere(s.files, Uploads(files, s.done), Stored(name));
    FoundSoFar(s.done, last, files);
    assert Apply(s, e).done == s.done + [last];
  }

  lemma EndRecords(s: State, e: Event)
    requires Inv(s) && e.ClientReads? && Enabled(s, e)
    requires s.client.CGet? && s.down != [] && s.down[0] == Download.END
    ensures Stored(s.client.name) in s.files
    ensures var (name, text, t) := (s.client.name, s.client.text, Apply(s, e));
            && t.client.CPrompt? && t.files == s.files && t.locals == s.locals[Saved(name) := text]
            && t.done == s.done + [Downloaded(name, text, s.files[Stored(name)])]
  {
    ClientReadsFirst(s, e);
    PathsAreLiteral(s.client.name);
    assert Getting(s, s.client.name, s.client.text);
  }

  lemma EndIsFiled(s: State, e: Event, files: map<string, string>, locals: map<string, string>)
    requires Filed(s, files, locals) && e.ClientReads? && Enabled(s, e)
    requires s.client.CGet? && s.down != [] && s.down[0] == Download.END
    ensures Filed(Apply(s, e), files, locals)
  {
    StepKeepsInv(s, e);
    EndRecords(s, e);
    var last := Downloaded(s.client.name, s.client.text, s.files[Stored(s.client.name)]);
    UploadsAppend(files, s.done, last);
    UploadsAppend(locals, s.done, last);
    FoundSoFar(s.done, last, files);
  }

  /** Nothing but the client's place has changed. */
  predicate FilesNothing(s: State, t: State) {
    t.done == s.done && t.locals == s.locals && t.files == s.files && t.server == s.server
  }

  lemma ReadyTaken(s: State, buf: string)
    requires s.client.CReady? && UpTo(buf, NUL) == buf
    ensures FilesNothing(s, ClientTakes(s, buf))
    ensures ClientTakes(s, buf).client
         == if buf == "" then CClosed else if buf == Upload.READY then CSize(s.client.name, s.client.content) else CPrompt
  {
  }

  lemma FileLineTaken(s: State, buf: string)
    requires s.client.CGet? && UpTo(buf, NUL) == buf && buf != "" && buf != Download.END
    ensures FilesNothing(s, ClientTakes(s, buf))
    ensures ClientTakes(s, buf).client.CGet? && ClientTakes(s, buf).client.name == s.client.name
  {
  }

  lemma OtherTaken(s: State, buf: string)
    requires s.client.CPrompt? || s.client.CList? || s.client.COther?
    ensures FilesNothing(s, ClientTakes(s, buf))
    ensures var client := ClientTakes(s, buf).client;
            if s.client.CPrompt? then client == if buf == "" then CClosed else CInput
            else client == s.client || client.CPrompt?
  {
  }

  /** What the client reads when it is not recording anything. */
  lemma NextLine(s: State)
    requires Wired(s) && InStep(s) && s.down != [] && !s.client.CClosed?
    requires s.client.CPrompt? || s.client.CGet? || s.client.CReady?
    ensures s.down[0] != ""
    ensures s.client.CReady? ==>
              if s.down[0] == Upload.READY then s.server.SSize? else !UnderWay(s)
  {
    assert Coming(s)[0] == s.down[0];
    match s.client
    case CPrompt => assert Coming(s) == [s.texts.commands] && Proper(s.texts);
    case CGet(name, _) => assert !Requested(s, Get(name));
    case CReady(name, _) =>
      ReadyOrRefused(s, name);
      if !ReadyArrived(s, name) {
        assert s.down[0] == Upload.FAILED && Returning(s.server);
      }
  }

  lemma ReadyReadIsFiled(s: State, e: Event, files: map<string, string>)
    requires Inv(s) && FilesFollow(s, files) && e.ClientReads? && Enabled(s, e) && s.client.CReady?
    ensures FilesFollow(Apply(s, e), files) && !Apply(s, e).client.CClosed? && FilesNothing(s, Apply(s, e))
  {
    ClientReadsFirst(s, e);
    NextLine(s);
    ReadyTaken(Popped(s), s.down[0]);
  }

  lemma FileLineIsFiled(s: State, e: Event, files: map<string, string>)
    requires Inv(s) && FilesFollow(s, files) && e.ClientReads? && Enabled(s, e) && s.client.CGet?
    requires s.down != [] && s.down[0] != Download.END
    ensures FilesFollow(Apply(s, e), files) && !Apply(s, e).client.CClosed? && FilesNothing(s, Apply(s, e))
  {
    ClientReadsFirst(s, e);
    NextLine(s);
    FileLineTaken(Popped(s), s.down[0]);
  }

  lemma OtherReadIsFiled(s: State, e: Event, files: map<string, string>)
    requires Inv(s) && FilesFollow(s, files) && e.ClientReads? && Enabled(s, e)
    requires s.client.CPrompt? || s.client.CList? || s.client.COther?
    ensures FilesFollow(Apply(s, e), files) && !Apply(s, e).client.CClosed? && FilesNothing(s, Apply(s, e))
  {
    ClientReadsFirst(s, e);
    if s.client.CPrompt? {
      NextLine(s);
    }
    OtherTaken(Popped(s), s.down[0]);
  }

  lemma ReadIsFiled(s: State, e: Event, files: map<string, string>, locals: map<string, string>)
    requires Filed(s, files, locals) && e.ClientReads? && Enabled(s, e)
    ensures Filed(Apply(s, e), files, locals)
  {
    ClientReadsFirst(s, e);
    StepKeepsInv(s, e);
    if s.client.CDone? {
      VerdictIsFiled(s, e, files, locals);
    } else if s.client.CReady? {
      ReadyReadIsFiled(s, e, files);
    } else if !s.client.CGet? {
      OtherReadIsFiled(s, e, files);
    } else if s.down[0] == Download.END {
      EndIsFiled(s, e, files, locals);
    } else {
      FileLineIsFiled(s, e, files);
    }
  }

  lemma TypingMoves(s: State, e: Event)
    requires e.ClientTypes? && Enabled(s, e)
    ensures FilesNothing(s, Apply(s, e))
    ensures var client := Apply(s, e).client;
            && !client.CSize? && !client.CData? && !client.CDone?
            && (client.CClosed? ==> Apply(s, e).c2s == s.c2s + Framed("quit"))
  {
  }

  lemma TypingIsFiled(s: State, e: Event, files: map<string, string>, locals: map<string, string>)
    requires Filed(s, files, locals) && e.ClientTypes? && Enabled(s, e) && Admissible(s, e)
    ensures Filed(Apply(s, e), files, locals)
  {
    StepKeepsInv(s, e);
    TypingMoves(s, e);
    assert "" + Framed("quit") == Framed("quit");
  }

  lemma SendingMoves(s: State, e: Event)
    requires (e.ClientSendsSize? || e.ClientSendsChunk?) && Enabled(s, e)
    ensures FilesNothing(s, Apply(s, e))
    ensures var client := Apply(s, e).client; (client.CData? || client.CDone?) && client.name == s.client.name
  {
  }

  lemma SendingIsFiled(s: State, e: Event, files: map<string, string>, locals: map<string, string>)
    requires Filed(s, files, locals) && (e.ClientSendsSize? || e.ClientSendsChunk?) && Enabled(s, e)
    ensures Filed(Apply(s, e), files, locals)
  {
    StepKeepsInv(s, e);
    SendingMoves(s, e);
  }

  lemma ServerStepIsFiled(s: State, e: Event, files: map<string, string>, locals: map<string, string>)
    requires Filed(s, files, locals) && ByServer(e) && Enabled(s, e) && Admissible(s, e)
    ensures Filed(Apply(s, e), files, locals)
  {
    StepKeepsInv(s, e);
    ServerLeavesClient(s, e);
    ServerLeavesLocals(s, e);
    if s.client.CClosed? {
      QuitIsRead(s, e);
    } else {
      ServerFiles(s, e, files);
    }
  }

  lemma StepKeepsFiled(s: State, e: Event, files: map<string, string>, locals: map<string, string>)
    requires Filed(s, files, locals) && Enabled(s, e) && Admissible(s, e)
    ensures Filed(Apply(s, e), files, locals)
  {
    if ByServer(e) {
      ServerStepIsFiled(s, e, files, locals);
    } else if e.ClientReads? {
      ReadIsFiled(s, e, files, locals);
    } else if e.ClientTypes? {
      TypingIsFiled(s, e, files, locals);
    } else {
      SendingIsFiled(s, e, files, locals);
    }
  }

  // ---- Whole sessions ---------------------------------------------------------------------------

  /** In every interleaving of an admissible session. */
  lemma {:induction false} FilesFollowTransfers(files: map<string, string>, locals: map<string, string>, es: seq<Event>)
    requires Run(Start(files, locals), es).Some?
    ensures Filed(Run(Start(files, locals), es).value, files, locals)
  {
    RunsKeepInv(files, locals, es);
    if es != [] {
      FilesFollowTransfers(files, locals, es[..|es| - 1]);
      StepKeepsFiled(Run(Start(files, locals), es[..|es| - 1]).value, es[|es| - 1], files, locals);
    }
  }

  /** Transfer i is the last upload that went to the file of this name. */
  ghost predicate LastUpload(done: seq<Transfer>, name: string, i: nat) {
    && i < |done| && done[i].Uploaded? && Cut(done[i].name, 4087) == name
    && forall j :: i < j < |done| && done[j].Uploaded? ==> Cut(done[j].name, 4087) != name
  }

  ghost predicate NoUpload(done: seq<Transfer>, name: string) {
    forall j :: 0 <= j < |done| && done[j].Uploaded? ==> Cut(done[j].name, 4087) != name
  }

  lemma {:induction false} OtherNamesAreLeft(files: map<string, string>, done: seq<Transfer>, name: string)
    requires |name| <= 4087 && NoUpload(done, name)
    ensures var path := "./Files/" + name;
            && (path in Uploads(files, done) <==> path in files)
            && (path in files ==> Uploads(files, done)[path] == files[path])
  {
    if done != [] {
      var last := done[|done| - 1];
      OtherNamesAreLeft(files, done[..|done| - 1], name);
      if last.Uploaded? {
        NamesAreKeptApart(last.name, name);
      }
    }
  }

  lemma {:induction false} LastUploadIsThere(files: map<string, string>, done: seq<Transfer>, name: string, i: nat)
    requires LastUpload(done, name, i)
    ensures var path := "./Files/" + name;
            path in Uploads(files, done) && Uploads(files, done)[path] == done[i].sent
  {
    var front, last := done[..|done| - 1], done[|done| - 1];
    if i < |done| - 1 {
      LastUploadIsThere(files, front, name, i);
      if last.Uploaded? {
        NamesAreKeptApart(last.name, name);
      }
    }
  }

  ghost predicate LastDownload(done: seq<Transfer>, name: string, i: nat) {
    && i < |done| && done[i].Downloaded? && Cut(done[i].name, 4084) == name
    && forall j :: i < j < |done| && done[j].Downloaded? ==> Cut(done[j].name, 4084) != name
  }

  lemma {:induction false} LastDownloadIsThere(locals: map<string, string>, done: seq<Transfer>, name: string, i: nat)
    requires LastDownload(done, name, i)
    ensures var path := "downloaded_" + name;
            path in Downloads(locals, done) && Downloads(locals, done)[path] == done[i].got
  {
    var front, last := done[..|done| - 1], done[|done| - 1];
    if i < |done| - 1 {
      LastDownloadIsThere(locals, front, name, i);
      if last.Downloaded? {
        NamesAreKeptApart(last.name, name);
      }
    }
  }

  /** An upload to the file of this name has been opened and is not finished. */
  predicate Busy(s: State, name: string) {
    UnderWay(s) && Cut(s.client.name, 4087) == name
  }

  lemma FiledAwayFrom(s: State, files: map<string, string>, name: string)
    requires FilesFollow(s, files) && |name| <= 4087 && !Busy(s, name)
    ensures var (path, there) := ("./Files/" + name, Uploads(files, s.done));
            && (path in s.files <==> path in there)
            && (path in s.files ==> s.files[path] == there[path])
  {
    var (path, there) := ("./Files/" + name, Uploads(files, s.done));
    if UnderWay(s) {
      var key := Stored(s.client.name);
      NamesAreKeptApart(s.client.name, name);
      assert path in s.files <==> path in s.files - {key};
      assert path in there <==> path in there - {key};
      assert path in there ==> (there - {key})[path] == there[path];
      assert path in s.files ==> (s.files - {key})[path] == s.files[path];
    }
  }

  /** In every interleaving the server's file of a name is what the last finished upload of that
      name sent, and the file that was there before if there was none: uploads of other names, and
      everything else that goes on, leave it alone. */
  lemma {:induction false} FileIsTheLastUpload(files: map<string, string>, locals: map<string, string>, es: seq<Event>,
                                              name: string, i: nat)
    requires Run(Start(files, locals), es).Some? && |name| <= 4087
    requires !Busy(Run(Start(files, locals), es).value, name)
    ensures var (s, path) := (Run(Start(files, locals), es).value, "./Files/" + name);
            && (LastUpload(s.done, name, i) ==> path in s.files && s.files[path] == s.done[i].sent)
            && (NoUpload(s.done, name) ==> (path in s.files <==> path in files)
                                           && (path in files ==> s.files[path] == files[path]))
  {
    var s := Run(Start(files, locals), es).value;
    FilesFollowTransfers(files, locals, es);
    FiledAwayFrom(s, files, name);
    if LastUpload(s.done, name, i) {
      LastUploadIsThere(files, s.done, name, i);
    }
    if NoUpload(s.done, name) {
      OtherNamesAreLeft(files, s.done, name);
    }
  }

  /** And the client's file downloaded_<name> is what the last finished download of that name got. */
  lemma {:induction false} FileIsTheLastDownload(files: map<string, string>, locals: map<string, string>,
                                                es: seq<Event>, name: string, i: nat)
    requires Run(Start(files, locals), es).Some?
    requires LastDownload(Run(Start(files, locals), es).value.done, name, i)
    ensures var (s, path) := (Run(Start(files, locals), es).value, "downloaded_" + name);
            path in s.locals && s.locals[path] == s.done[i].got
  {
    FilesFollowTransfers(files, locals, es);
    LastDownloadIsThere(locals, Run(Start(files, locals), es).value.done, name, i);
  }

  /** What was uploaded under a name comes back when that name is downloaded, with at most a final
      newline added, whatever other files were transferred in between. */
  lemma {:induction false} UploadComesBack(files: map<string, string>, locals: map<string, string>, es: seq<Event>,
                                          i: nat, j: nat)
    requires Run(Start(files, locals), es).Some?
    requires var done := Run(Start(files, locals), es).value.done;
             && j < |done| && done[j].Downloaded?
             && LastUpload(done[..j], Cut(done[j].name, 4087), i)
    ensures var done := Run(Start(files, locals), es).value.done;
            done[j].got == Download.Normalized(done[i].sent)
  {
    var done := Run(Start(files, locals), es).value.done;
    FilesFollowTransfers(files, locals, es);
    FinishedTransfersAreExact(files, locals, es, j);
    LastUploadIsThere(files, done[..j], Cut(done[j].name, 4087), i);
  }
}
