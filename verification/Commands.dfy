/** What each command of a session comes to, letter by letter (week5/Iclient.c and week5/Iserver.c):
    from any point of an admissible session at which the client waits for its user, whatever is
    typed and however the two peers interleave until the client waits again. */
module Commands {
  import opened Sequences
  import opened Lines
  import opened Session
  import opened Lockstep
  import opened Liveness
  import opened Filing
  import Download
  import Upload

  // ---- The words ------------------------------------------------------------------------------

  /** The four commands as both programs tell them apart. */
  lemma CommandsAreSpelled(input: string, name: string)
    ensures Classify(input) == List <==> input == "list"
    ensures Classify(input) == Get(name) <==> input == "get " + name
    ensures Classify(input) == Load(name) <==> input == "load " + name
    ensures Classify(input) == Quit <==> input == "quit"
  {
    if "get " <= input {
      assert input == "get " + input[4..];
    }
    if "load " <= input {
      assert input == "load " + input[5..];
    }
    assert input == "get " + name ==> input[4..] == name && input[0] == 'g';
    assert input == "load " + name ==> input[5..] == name && input[0] == 'l' && input[1] == 'o';
  }

  // ---- What a command records -----------------------------------------------------------------

  /** The client has what it asked for, or is about to wait for its user. */
  predicate Home(client: Client) {
    client.CPrompt? || client.CInput?
  }

  predicate Loading(client: Client, name: string, content: string) {
    (client.CReady? || client.CSize? || client.CData? || client.CDone?)
    && client.name == name && client.content == content
  }

  /** One more entry in the history. */
  predicate Grows(before: seq<Transfer>, after: seq<Transfer>) {
    |after| == |before| + 1 && after[..|before|] == before
  }

  /** What the history is once a command is over: `refused` says that the server answered FAILED. */
  ghost predicate Recorded(cmd: Command, content: string, before: seq<Transfer>, after: seq<Transfer>) {
    match cmd
    case Get(name) =>
      && Grows(before, after)
      && after[|before|].Downloaded? && after[|before|].name == name
    case Load(name) =>
      && Grows(before, after)
      && after[|before|].Uploaded? && after[|before|].name == name && after[|before|].sent == content
    case _ => after == before
  }

  /** The server has refused the upload, or is about to. */
  predicate Refused(s: State) {
    s.client.CReady? && Answering(s, [Upload.FAILED, s.texts.commands])
  }

  /** The client is on a command it began with this history. */
  ghost predicate OnIt(cmd: Command, content: string, before: seq<Transfer>, s: State) {
    if Home(s.client) then Recorded(cmd, content, before, s.done)
    else
      && s.done == before
      && match cmd
         case Get(name) => s.client.CGet? && s.client.name == name
         case Load(name) => Loading(s.client, name, content) && !Refused(s)
         case List => s.client.CList?
         case Other => s.client.COther?
         case Quit => false
  }

  lemma OpenedIsNotRefused(s: State, e: Event)
    requires Inv(s) && s.client.CReady? && !Refused(s) && ByServer(e) && Enabled(s, e) && Opens(e)
    ensures !Refused(Apply(s, e))
  {
    match e
    case ServerSends => SentLineIsComing(s, e);
    case ServerReads(_, _, _) =>
      OnlyRequestsAreRead(s, e);
      ServesRequest(s, e, Load(s.client.name));
    case _ =>
  }

  lemma ServerStaysOnIt(cmd: Command, content: string, before: seq<Transfer>, s: State, e: Event)
    requires Live(s) && OnIt(cmd, content, before, s) && ByServer(e) && Enabled(s, e) && Opens(e)
    ensures OnIt(cmd, content, before, Apply(s, e))
  {
    ServerLeavesClient(s, e);
    if s.client.CReady? {
      OpenedIsNotRefused(s, e);
    }
  }

  lemma ReadyIsRead(s: State, e: Event)
    requires Live(s) && e.ClientReads? && Enabled(s, e) && s.client.CReady? && !Refused(s)
    ensures Apply(s, e).client == CSize(s.client.name, s.client.content) && Apply(s, e).done == s.done
  {
    ClientReadsFirst(s, e);
    ReadyOrRefused(s, s.client.name);
  }

  lemma GetTakes(s: State, buf: string)
    requires s.client.CGet?
    ensures var (t, name) := (ClientTakes(s, buf), s.client.name);
            if t.client.CGet? then t.client.name == name && t.done == s.done
            else t.client.CPrompt? && Grows(s.done, t.done)
                 && t.done[|s.done|].Downloaded? && t.done[|s.done|].name == name
  {
  }

  lemma VerdictTakes(s: State, buf: string)
    requires s.client.CDone?
    ensures var (t, client) := (ClientTakes(s, buf), s.client);
            && t.client.CPrompt? && Grows(s.done, t.done) && t.done[|s.done|].Uploaded?
            && t.done[|s.done|].name == client.name && t.done[|s.done|].sent == client.content
  {
  }

  lemma GetStaysOnIt(cmd: Command, content: string, before: seq<Transfer>, s: State, e: Event)
    requires Live(s) && OnIt(cmd, content, before, s) && e.ClientReads? && Enabled(s, e) && s.client.CGet?
    ensures OnIt(cmd, content, before, Apply(s, e))
  {
    ClientReadsFirst(s, e);
    GetTakes(Popped(s), s.down[0]);
  }

  lemma LoadStaysOnIt(cmd: Command, content: string, before: seq<Transfer>, s: State, e: Event)
    requires Live(s) && OnIt(cmd, content, before, s) && e.ClientReads? && Enabled(s, e)
    requires s.client.CReady? || s.client.CDone?
    ensures OnIt(cmd, content, before, Apply(s, e))
  {
    if s.client.CReady? {
      ReadyIsRead(s, e);
    } else {
      ClientReadsFirst(s, e);
      VerdictTakes(Popped(s), s.down[0]);
    }
  }

  lemma OnItCarries(cmd: Command, content: string, before: seq<Transfer>, s: State, t: State)
    requires OnIt(cmd, content, before, s) && t.done == s.done
    requires if s.client.CPrompt? then t.client.CInput?
             else (s.client.CList? || s.client.COther?) && (t.client == s.client || t.client.CPrompt?)
    ensures OnIt(cmd, content, before, t)
  {
  }

  lemma OtherRead(s: State, e: Event)
    requires Live(s) && e.ClientReads? && Enabled(s, e) && !Apply(s, e).client.CClosed?
    requires s.client.CPrompt? || s.client.CList? || s.client.COther?
    ensures var t := Apply(s, e);
            && t.done == s.done
            && if s.client.CPrompt? then t.client.CInput? else t.client == s.client || t.client.CPrompt?
  {
    ClientReadsFirst(s, e);
    OtherTaken(Popped(s), s.down[0]);
  }

  lemma OtherStaysOnIt(cmd: Command, content: string, before: seq<Transfer>, s: State, e: Event)
    requires Live(s) && OnIt(cmd, content, before, s) && e.ClientReads? && Enabled(s, e)
    requires (s.client.CPrompt? || s.client.CList? || s.client.COther?) && !Apply(s, e).client.CClosed?
    ensures OnIt(cmd, content, before, Apply(s, e))
  {
    OtherRead(s, e);
    OnItCarries(cmd, content, before, s, Apply(s, e));
  }

  lemma ReadStaysOnIt(cmd: Command, content: string, before: seq<Transfer>, s: State, e: Event)
    requires Live(s) && OnIt(cmd, content, before, s) && e.ClientReads? && Enabled(s, e)
    requires !Apply(s, e).client.CClosed?
    ensures OnIt(cmd, content, before, Apply(s, e))
  {
    if s.client.CGet? {
      GetStaysOnIt(cmd, content, before, s, e);
    } else if s.client.CReady? || s.client.CDone? {
      LoadStaysOnIt(cmd, content, before, s, e);
    } else {
      OtherStaysOnIt(cmd, content, before, s, e);
    }
  }

  lemma StepStaysOnIt(cmd: Command, content: string, before: seq<Transfer>, s: State, e: Event)
    requires Live(s) && OnIt(cmd, content, before, s) && Untyped(e) && Enabled(s, e) && Admissible(s, e) && Opens(e)
    ensures OnIt(cmd, content, before, Apply(s, e))
  {
    StepsGetCloser(s, e);
    if ByServer(e) {
      ServerStaysOnIt(cmd, content, before, s, e);
    } else if e.ClientReads? {
      ReadStaysOnIt(cmd, content, before, s, e);
    }
  }

  lemma {:induction false} StepsStayOnIt(cmd: Command, content: string, before: seq<Transfer>,
                                         s: State, steps: seq<Event>, t: State)
    requires GoesOn(s, steps, t) && OnIt(cmd, content, before, s) && AllOpen(steps)
    ensures OnIt(cmd, content, before, t)
  {
    if steps != [] {
      var front := steps[..|steps| - 1];
      var now := Run(s, front).value;
      StepsStayOnIt(cmd, content, before, s, front, now);
      StaysLive(s, front, now);
      StepStaysOnIt(cmd, content, before, now, steps[|steps| - 1]);
    }
  }

  lemma TypingBegins(s: State, input: string)
    requires Live(s) && s.client.CInput? && Enabled(s, ClientTypes(input, true))
    requires Admissible(s, ClientTypes(input, true)) && !Classify(input).Quit?
    ensures var content := if Classify(input).Load? then s.locals[Classify(input).name] else "";
            OnIt(Classify(input), content, s.done, Apply(s, ClientTypes(input, true)))
    ensures Live(Apply(s, ClientTypes(input, true)))
  {
    StepKeepsInv(s, ClientTypes(input, true));
    assert "" + Framed(input) == Framed(input);
    assert Requested(Apply(s, ClientTypes(input, true)), Classify(input));
  }

  // ---- The theorems ---------------------------------------------------------------------------

  lemma {:induction false} RunsJoin(init: State, a: seq<Event>, b: seq<Event>)
    requires Run(init, a).Some?
    ensures Run(init, a + b) == Run(Run(init, a).value, b)
  {
    if b == [] {
      assert a + b == a;
    } else {
      RunsJoin(init, a, b[..|b| - 1]);
      assert (a + b)[..|a + b| - 1] == a + b[..|b| - 1];
    }
  }

  /** At the end of run es of a session the client waits for its user, who types this; then the two
      peers do these steps, in any order, until the client waits again, in state t. The server can
      open the file of an upload. */
  ghost predicate Plays(files: map<string, string>, locals: map<string, string>, es: seq<Event>, input: string,
                        steps: seq<Event>, t: State) {
    && Run(Start(files, locals), es).Some?
    && var s := Run(Start(files, locals), es).value;
    && s.client.CInput? && Enabled(s, ClientTypes(input, true)) && Admissible(s, ClientTypes(input, true))
    && AllOpen(steps) && GoesOn(Apply(s, ClientTypes(input, true)), steps, t) && t.client.CInput?
  }

  /** Before and after, files and history agree; the history says what the command did. */
  lemma {:induction false} CommandIsRecorded(files: map<string, string>, locals: map<string, string>, es: seq<Event>,
                                            input: string, steps: seq<Event>, t: State)
    requires Plays(files, locals, es, input, steps, t) && !Classify(input).Quit?
    ensures var s := Run(Start(files, locals), es).value;
            && Filed(s, files, locals) && Filed(t, files, locals)
            && s.files == Uploads(files, s.done) && t.files == Uploads(files, t.done)
            && Recorded(Classify(input), if Classify(input).Load? then s.locals[Classify(input).name] else "", s.done, t.done)
  {
    var init := Start(files, locals);
    var s := Run(init, es).value;
    var typed := ClientTypes(input, true);
    var content := if Classify(input).Load? then s.locals[Classify(input).name] else "";
    FilesFollowTransfers(files, locals, es);
    TypingBegins(s, input);
    StepsStayOnIt(Classify(input), content, s.done, Apply(s, typed), steps, t);
    assert (es + [typed])[..|es|] == es;
    RunsJoin(init, es + [typed], steps);
    FilesFollowTransfers(files, locals, es + [typed] + steps);
  }

  lemma OneMore(done: seq<Transfer>, after: seq<Transfer>)
    requires Grows(done, after)
    ensures after == done + [after[|done|]]
  {
  }

  /** get: the client has the server's file under downloaded_<name>, with at most a final newline
      added, and nothing else has changed on either side. */
  lemma {:induction false} GetDelivers(files: map<string, string>, locals: map<string, string>, es: seq<Event>,
                                      name: string, steps: seq<Event>, t: State)
    requires Plays(files, locals, es, "get " + name, steps, t)
    ensures var s := Run(Start(files, locals), es).value;
            && t.files == s.files && Stored(name) in s.files
            && t.locals == s.locals[Saved(name) := Download.Normalized(s.files[Stored(name)])]
  {
    var s := Run(Start(files, locals), es).value;
    CommandsAreSpelled("get " + name, name);
    CommandIsRecorded(files, locals, es, "get " + name, steps, t);
    OneMore(s.done, t.done);
    var last := t.done[|s.done|];
    UploadsAppend(files, s.done, last);
    UploadsAppend(locals, s.done, last);
    assert IsExact(last) && t.done[..|s.done|] == s.done;
  }

  /** load: the server has the client's file under its name, and nothing else has changed. */
  lemma {:induction false} LoadDelivers(files: map<string, string>, locals: map<string, string>, es: seq<Event>,
                                       name: string, steps: seq<Event>, t: State)
    requires Plays(files, locals, es, "load " + name, steps, t)
    ensures var s := Run(Start(files, locals), es).value;
            && t.locals == s.locals && name in s.locals
            && t.files == s.files[Stored(name) := s.locals[name]]
  {
    var s := Run(Start(files, locals), es).value;
    CommandsAreSpelled("load " + name, name);
    CommandIsRecorded(files, locals, es, "load " + name, steps, t);
    OneMore(s.done, t.done);
    UploadsAppend(files, s.done, t.done[|s.done|]);
    UploadsAppend(locals, s.done, t.done[|s.done|]);
  }

  /** Any other command changes no file. */
  lemma {:induction false} OthersChangeNothing(files: map<string, string>, locals: map<string, string>, es: seq<Event>,
                                              input: string, steps: seq<Event>, t: State)
    requires Plays(files, locals, es, input, steps, t) && input != "quit"
    requires !("get " <= input) && !("load " <= input)
    ensures var s := Run(Start(files, locals), es).value; t.files == s.files && t.locals == s.locals
  {
    CommandsAreSpelled(input, "");
    CommandIsRecorded(files, locals, es, input, steps, t);
  }

  /** What a user may type: one line of 1 to 4094 bytes; a get names a file that can be downloaded,
      a load a local file whose size is an int. */
  ghost predicate MayType(s: State, input: string) {
    && 1 <= |input| <= 4094 && '\n' !in input && '\0' !in input
    && ("get " <= input ==> Stored(input[4..]) in s.files && Download.Downloadable(s.files[Stored(input[4..])]))
    && ("load " <= input ==> input[5..] in s.locals && |s.locals[input[5..]]| <= 0x7fff_ffff)
  }

  lemma MayTypeIsAdmissible(s: State, input: string)
    requires s.client.CInput? && MayType(s, input)
    ensures Enabled(s, ClientTypes(input, true)) && Admissible(s, ClientTypes(input, true))
  {
    if "get " <= input {
      CommandsAreSpelled(input, input[4..]);
      PathsAreLiteral(input[4..]);
      assert input == "get " + input[4..];
    } else if "load " <= input {
      CommandsAreSpelled(input, input[5..]);
      assert input == "load " + input[5..];
    }
  }

  /** Whatever such a line the user types, the two peers can go on, and as long as they do not wait
      for the user they can always get to where the client waits again. */
  lemma {:induction false} EveryCommandEnds(files: map<string, string>, locals: map<string, string>, es: seq<Event>,
                                           input: string) returns (steps: seq<Event>, t: State)
    requires Run(Start(files, locals), es).Some? && Run(Start(files, locals), es).value.client.CInput?
    requires MayType(Run(Start(files, locals), es).value, input) && input != "quit"
    ensures Plays(files, locals, es, input, steps, t)
  {
    var s := Run(Start(files, locals), es).value;
    var typed := ClientTypes(input, true);
    RunsKeepInv(files, locals, es);
    MayTypeIsAdmissible(s, input);
    CommandsAreSpelled(input, "");
    assert (es + [typed])[..|es|] == es;
    TypingBegins(s, input);
    steps, t := SessionsComeBack(files, locals, es + [typed]);
  }
}
