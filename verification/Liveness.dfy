/** Every command of a file-server session comes to an end: from whatever point of an admissible
    session, in every interleaving, the client is back at its user after finitely many steps. */
module Liveness {
  import opened Sequences
  import opened Session
  import opened Lockstep
  import Upload

  /** A step nobody has to type for. */
  predicate Untyped(e: Event) {
    !e.ClientTypes?
  }

  /** A command that the server has yet to read. */
  function Pending(s: State): nat {
    if s.server.SLoop? && s.c2s != "" then 1 else 0
  }

  /** The file the client is uploading. */
  function Content(client: Client): string {
    if client.CReady? || client.CSize? || client.CData? || client.CDone? then client.content else ""
  }

  function ServerWork(s: State): int {
    match s.server
    case SSend(todo, next) => 2 * |todo| + if next.AwaitSize? then 6 + |Content(s.client)| else 0
    case SSize(_) => 6 + |Content(s.client)|
    case SData(_, size, received) => 5 + size - received
    case _ => 0
  }

  function ClientWork(s: State): int {
    match s.client
    case CReady(_, content) => 4 + |content|
    case CSize(_, content) => 3 + |content|
    case CData(_, content, sent) => 2 + |content| - sent
    case _ => 0
  }

  /** A bound on the steps until the client needs its user, once its command has been read. */
  function Work(s: State): int {
    ServerWork(s) + |s.down| + ClientWork(s)
  }

  ghost predicate Live(s: State) {
    Inv(s) && !s.client.CClosed?
  }

  lemma WorkIsNatural(s: State)
    requires Live(s)
    ensures Work(s) >= 0
  {
  }

  /** One step on: less is pending, or as much and less is left to do. */
  ghost predicate Closer(t: State, s: State) {
    && !t.client.CClosed?
    && (Pending(t) < Pending(s) || (Pending(t) == Pending(s) && Work(t) < Work(s)))
  }

  lemma SendsGetCloser(s: State, e: Event)
    requires Live(s) && e.ServerSends? && Enabled(s, e)
    ensures Closer(Apply(s, e), s)
  {
    SentLineIsComing(s, e);
  }

  lemma ServeLeavesWire(s: State, cmd: Command, dirOpens: bool, names: seq<string>, fileOpens: bool)
    ensures var t := Serve(s, cmd, dirOpens, names, fileOpens); t.client == s.client && t.c2s == s.c2s
  {
  }

  lemma ReadsGetCloser(s: State, e: Event)
    requires Live(s) && e.ServerReads? && Enabled(s, e)
    ensures Closer(Apply(s, e), s)
  {
    OnlyRequestsAreRead(s, e);
    var cmd := PendingCommand(s.client);
    ServesRequest(s, e, cmd);
    ServeLeavesWire(s.(c2s := ""), cmd, e.dirOpens, e.names, e.fileOpens);
    assert Pending(s) == 1;
  }

  lemma SizeIsCloser(s: State, t: State, content: string, sent: nat)
    requires s.server.SSize? && (s.client.CData? || s.client.CDone?) && s.client.content == content
    requires sent <= |content|
    requires t == s.(c2s := content[..sent],
                     server := if content == "" then SSend([Upload.FAILED, s.texts.commands], Loop)
                               else SData(s.server.path, |content|, 0))
    ensures Closer(t, s)
  {
  }

  lemma SizeGetsCloser(s: State, e: Event)
    requires Live(s) && e.ServerReadsSize? && Enabled(s, e)
    ensures Closer(Apply(s, e), s)
  {
    assert s.client.CData? || s.client.CDone?;
    var content := s.client.content;
    var sent := if s.client.CData? then s.client.sent else |content|;
    assert Uploading(s, s.client.name, content, sent);
    ServesSize(s, e, content, sent);
    SizeIsCloser(s, Apply(s, e), content, sent);
  }

  lemma DataGetsCloser(s: State, e: Event)
    requires Live(s) && e.ServerReceives? && Enabled(s, e)
    ensures Closer(Apply(s, e), s)
  {
    ServerReceivesKeeps(s, e);
  }

  /** One line is gone from the wire, and neither peer has more to do than before. */
  lemma PoppedIsCloser(s: State, t: State)
    requires s.down != [] && t.down == s.down[1..] && t.server == s.server && t.c2s == s.c2s
    requires !t.client.CClosed? && ClientWork(t) <= ClientWork(s)
    requires || Content(t.client) == Content(s.client)
             || (!s.server.SSize? && !(s.server.SSend? && s.server.next.AwaitSize?))
    ensures Closer(t, s)
  {
  }

  /** READY: the client goes on to send its file; otherwise it is done with the upload. */
  lemma ReadyShape(s: State, e: Event)
    requires Live(s) && e.ClientReads? && Enabled(s, e) && s.client.CReady?
    ensures s.down != []
    ensures Apply(s, e) == Popped(s).(client := if ReadyArrived(s, s.client.name)
                                                then CSize(s.client.name, s.client.content) else CPrompt)
    ensures !ReadyArrived(s, s.client.name) ==> Returning(s.server)
  {
    ClientReadsFirst(s, e);
    ReadyOrRefused(s, s.client.name);
    PoppedIsWired(s);
    if !ReadyArrived(s, s.client.name) {
      assert s.down[0] == Upload.FAILED;
    }
  }

  lemma ReadyGetsCloser(s: State, e: Event)
    requires Live(s) && e.ClientReads? && Enabled(s, e) && s.client.CReady?
    ensures Closer(Apply(s, e), s)
  {
    ReadyShape(s, e);
    PoppedIsCloser(s, Apply(s, e));
  }

  lemma VerdictGetsCloser(s: State, e: Event)
    requires Live(s) && e.ClientReads? && Enabled(s, e) && s.client.CDone?
    ensures Closer(Apply(s, e), s)
  {
    ClientReadsFirst(s, e);
    VerdictIsDue(s);
    PoppedIsCloser(s, Apply(s, e));
  }

  lemma PromptGetsCloser(s: State, e: Event)
    requires Live(s) && e.ClientReads? && Enabled(s, e) && s.client.CPrompt?
    ensures Closer(Apply(s, e), s)
  {
    ClientReadsFirst(s, e);
    PoppedIsWired(s);
    assert s.down[0] == s.texts.commands;
    PoppedIsCloser(s, Apply(s, e));
  }

  /** In these places a line changes only where the client is, and its files. */
  lemma TakesLine(s: State, buf: string)
    requires s.client.CList? || s.client.CGet? || s.client.COther?
    ensures var t := ClientTakes(s, buf);
            && t.down == s.down && t.server == s.server && t.c2s == s.c2s
            && (t.client.CList? || t.client.CGet? || t.client.CPrompt?)
  {
  }

  lemma TakenIsCloser(s: State, line: string)
    requires Wired(s) && s.down != [] && (s.client.CList? || s.client.CGet? || s.client.COther?)
    ensures Closer(ClientTakes(Popped(s), line), s)
  {
    TakesLine(Popped(s), line);
    PoppedIsCloser(s, ClientTakes(Popped(s), line));
  }

  lemma LineGetsCloser(s: State, e: Event)
    requires Live(s) && e.ClientReads? && Enabled(s, e) && (s.client.CList? || s.client.CGet? || s.client.COther?)
    ensures Closer(Apply(s, e), s)
  {
    ClientReadsFirst(s, e);
    TakenIsCloser(s, s.down[0]);
  }

  lemma UploadGetsCloser(s: State, e: Event)
    requires Live(s) && (e.ClientSendsSize? || e.ClientSendsChunk?) && Enabled(s, e)
    ensures Closer(Apply(s, e), s)
  {
  }

  /** Every step but the user's brings the session closer to the client's next prompt. */
  lemma StepsGetCloser(s: State, e: Event)
    requires Live(s) && Enabled(s, e) && Untyped(e)
    ensures Closer(Apply(s, e), s)
  {
    match e
    case ServerSends => SendsGetCloser(s, e);
    case ServerReads(_, _, _) => ReadsGetCloser(s, e);
    case ServerReadsSize => SizeGetsCloser(s, e);
    case ServerReceives(_) => DataGetsCloser(s, e);
    case ServerGivesUp => NeverGivesUp(s);
    case ClientReads =>
      if s.client.CReady? {
        ReadyGetsCloser(s, e);
      } else if s.client.CDone? {
        VerdictGetsCloser(s, e);
      } else if s.client.CPrompt? {
        PromptGetsCloser(s, e);
      } else {
        LineGetsCloser(s, e);
      }
    case ClientSendsSize => UploadGetsCloser(s, e);
    case ClientSendsChunk => UploadGetsCloser(s, e);
  }

  // ---- Whole sessions -----------------------------------------------------------------

  ghost predicate AllUntyped(steps: seq<Event>) {
    forall i :: 0 <= i < |steps| ==> Untyped(steps[i])
  }

  /** How often the server reads a command in these steps. */
  function CommandsRead(steps: seq<Event>): nat {
    if steps == [] then 0
    else CommandsRead(steps[..|steps| - 1]) + if steps[|steps| - 1].ServerReads? then 1 else 0
  }

  /** The session goes on from s with these steps to t. */
  ghost predicate GoesOn(s: State, steps: seq<Event>, t: State) {
    Live(s) && AllUntyped(steps) && Run(s, steps) == Some(t)
  }

  lemma {:induction false} StaysLive(s: State, steps: seq<Event>, t: State)
    requires GoesOn(s, steps, t)
    ensures Live(t)
  {
    if steps != [] {
      var front := steps[..|steps| - 1];
      var before := Run(s, front).value;
      StaysLive(s, front, before);
      StepKeepsInv(before, steps[|steps| - 1]);
      StepsGetCloser(before, steps[|steps| - 1]);
    }
  }

  lemma ReadsUsePending(s: State, e: Event)
    requires Live(s) && Enabled(s, e) && e.ServerReads?
    ensures Pending(s) == 1 && Pending(Apply(s, e)) == 0
  {
    OnlyRequestsAreRead(s, e);
    var cmd := PendingCommand(s.client);
    ServesRequest(s, e, cmd);
    ServeLeavesWire(s.(c2s := ""), cmd, e.dirOpens, e.names, e.fileOpens);
  }

  lemma ReadingUsesUpPending(s: State, e: Event)
    requires Live(s) && Enabled(s, e) && Untyped(e)
    ensures Pending(Apply(s, e)) + (if e.ServerReads? then 1 else 0) <= Pending(s)
  {
    StepsGetCloser(s, e);
    if e.ServerReads? {
      ReadsUsePending(s, e);
    }
  }

  /** Without the user at most one command is read. */
  lemma {:induction false} OneCommandIsRead(s: State, steps: seq<Event>, t: State)
    requires GoesOn(s, steps, t)
    ensures Pending(t) + CommandsRead(steps) <= Pending(s)
  {
    if steps != [] {
      var front := steps[..|steps| - 1];
      var before := Run(s, front).value;
      OneCommandIsRead(s, front, before);
      StaysLive(s, front, before);
      ReadingUsesUpPending(before, steps[|steps| - 1]);
    }
  }

  lemma OtherStepsUseUpWork(s: State, e: Event)
    requires Live(s) && Enabled(s, e) && Untyped(e) && !e.ServerReads?
    ensures Pending(Apply(s, e)) == Pending(s) ==> 1 + Work(Apply(s, e)) <= Work(s)
  {
    StepsGetCloser(s, e);
  }

  /** Between two moments with as much pending, so without a command read in between, at most
      Work(s) steps are taken, in every interleaving. */
  lemma {:induction false} QuietStretchIsShort(s: State, steps: seq<Event>, t: State)
    requires GoesOn(s, steps, t) && Pending(t) == Pending(s)
    ensures |steps| + Work(t) <= Work(s) && Work(t) >= 0
  {
    StaysLive(s, steps, t);
    WorkIsNatural(t);
    if steps != [] {
      var front := steps[..|steps| - 1];
      var before := Run(s, front).value;
      StaysLive(s, front, before);
      OneCommandIsRead(s, front, before);
      ReadingUsesUpPending(before, steps[|steps| - 1]);
      QuietStretchIsShort(s, front, before);
      OtherStepsUseUpWork(before, steps[|steps| - 1]);
    }
  }

  /** The server can open the file of an upload. */
  predicate Opens(e: Event) {
    e.ServerReads? ==> e.fileOpens
  }

  ghost predicate AllOpen(steps: seq<Event>) {
    forall i :: 0 <= i < |steps| ==> Opens(steps[i])
  }

  /** Until the client waits for its user there is a next step. */
  lemma {:induction false} OneStepOn(s: State, steps: seq<Event>, now: State) returns (e: Event, next: State)
    requires GoesOn(s, steps, now) && AllOpen(steps) && !now.client.CInput?
    ensures GoesOn(s, steps + [e], next) && AllOpen(steps + [e])
    ensures Pending(next) < Pending(now) || (Pending(next) == Pending(now) && 0 <= Work(next) < Work(now))
  {
    StaysLive(s, steps, now);
    e := SomeoneCanStep(now);
    next := Apply(now, e);
    assert (steps + [e])[..|steps|] == steps;
    StepKeepsInv(now, e);
    StepsGetCloser(now, e);
    WorkIsNatural(next);
  }

  /** From anywhere in a session the client gets back to its user. By StepsGetCloser no schedule
      can put that off for ever. */
  lemma {:induction false} ClientComesBack(s: State, steps: seq<Event>, now: State) returns (more: seq<Event>, t: State)
    requires GoesOn(s, steps, now) && AllOpen(steps)
    ensures GoesOn(s, more, t) && t.client.CInput? && AllOpen(more)
    decreases Pending(now), Work(now)
  {
    more, t := steps, now;
    if !now.client.CInput? {
      var e, next := OneStepOn(s, steps, now);
      more, t := ClientComesBack(s, steps + [e], next);
    }
  }

  /** The same for whole sessions. */
  lemma {:induction false} SessionsComeBack(files: map<string, string>, locals: map<string, string>, es: seq<Event>)
    returns (more: seq<Event>, t: State)
    requires Run(Start(files, locals), es).Some? && !Run(Start(files, locals), es).value.client.CClosed?
    ensures GoesOn(Run(Start(files, locals), es).value, more, t) && t.client.CInput? && AllOpen(more)
  {
    RunsKeepInv(files, locals, es);
    var s := Run(Start(files, locals), es).value;
    more, t := ClientComesBack(s, [], s);
  }
}
