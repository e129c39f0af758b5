/** The chat server's threads never get stuck, and everything clients do is over after a bounded
    number of steps (week7/server.c). */
module ChatProgress {
  import opened Sequences
  import opened ChatTable
  import opened ChatProtocol

  predicate HandlerBusy(stage: Stage) {
    !stage.Unstarted? && !stage.Reading? && !stage.Gone?
  }

  /** The one thing handler c can do next when it is busy. */
  function NextOf(s: State, c: nat): Event
    requires c < |s.clients|
  {
    match s.clients[c].stage
    case WantSend(_) => Locks(c)
    case WantLeave => Locks(c)
    case Sending(_, k) => if k < |s.socks| then Writes(c) else EndsSend(c)
    case Leaving => Leaves(c)
    case _ => Closes(c)
  }

  /** And the accept thread, when it has a connection to see to. */
  function NextOfMain(s: State): Event {
    match s.main
    case Adding(_) => MainAdds
    case Refusing(_) => MainClosesRefused
    case Starting(_) => MainStarts(true)
    case Aborting(_) => MainClosesAborted
    case Undoing(_) => MainUndoes
    case _ => MainLocks
  }

  lemma MutexHolderCanStep(s: State)
    requires Inv(s) && !s.mutex.Free?
    ensures if s.mutex.HeldByMain? then Enabled(s, NextOfMain(s))
            else s.mutex.c < |s.clients| && Enabled(s, NextOf(s, s.mutex.c))
  {
    if s.mutex.HeldBy? {
      assert ClientOk(s, s.mutex.c);
    }
  }

  /** Nobody waits on anything but the mutex, and whoever has the mutex can step. */
  lemma OnlyTheMutexBlocks(es: seq<Event>, c: nat)
    requires Run(es).Some? && c < |Run(es).value.clients|
    requires HandlerBusy(Run(es).value.clients[c].stage)
    ensures var s := Run(es).value;
            || Enabled(s, NextOf(s, c))
            || (s.mutex.HeldBy? && s.mutex.c < |s.clients| && Enabled(s, NextOf(s, s.mutex.c)))
            || (s.mutex.HeldByMain? && Enabled(s, NextOfMain(s)))
  {
    RunsKeepInv(es);
    if !Run(es).value.mutex.Free? {
      MutexHolderCanStep(Run(es).value);
    }
  }

  /** A step that nobody outside causes: no connection, no message and no hang-up. */
  predicate Internal(e: Event) {
    !e.Accept? && !e.Read? && !e.Hangup?
  }

  predicate Idle(s: State) {
    s.main.Accepting? && forall c :: 0 <= c < |s.clients| ==> !HandlerBusy(s.clients[c].stage)
  }

  /** In every state any clients can bring about: unless every thread waits for a client, some
      thread can step. */
  lemma NoDeadlock(es: seq<Event>) returns (e: Event)
    requires Run(es).Some? && !Idle(Run(es).value)
    ensures Internal(e) && Enabled(Run(es).value, e)
  {
    RunsKeepInv(es);
    var s := Run(es).value;
    if !s.mutex.Free? {
      MutexHolderCanStep(s);
      e := if s.mutex.HeldByMain? then NextOfMain(s) else NextOf(s, s.mutex.c);
    } else if !s.main.Accepting? {
      e := NextOfMain(s);
    } else {
      var c: nat :| c < |s.clients| && HandlerBusy(s.clients[c].stage);
      e := NextOf(s, c);
    }
  }

  // ---- How much is left to do ------------------------------------------------------------

  /** How many steps a handler takes at most before it waits for its client again. */
  function Rank(stage: Stage): int {
    match stage
    case WantSend(_) => 2 + MAX_CLIENT
    case Sending(_, k) => 1 + MAX_CLIENT - k
    case WantLeave => 3
    case Leaving => 2
    case Left => 1
    case _ => 0
  }

  /** How many the accept thread takes at most before it accepts again. */
  function MainRank(main: MainStage): int {
    match main
    case Accepting => 0
    case WantAdd(_) => 6
    case Adding(_) => 5
    case Starting(_) => 4
    case Aborting(_) => 3
    case WantUndo(_) => 2
    case Undoing(_) => 1
    case Refusing(_) => 1
  }

  function ClientRank(): Client -> int {
    (client: Client) => Rank(client.stage)
  }

  function Work(s: State): int {
    Sum(s.clients, ClientRank()) + MainRank(s.main)
  }

  lemma WorkIsNatural(s: State)
    requires Inv(s)
    ensures Work(s) >= 0
  {
    forall c | 0 <= c < |s.clients| ensures ClientRank()(s.clients[c]) >= 0 {
      assert ClientOk(s, c);
    }
    SumNatural(s.clients, ClientRank());
  }

  /** What an event adds to the work: a connection, a message and a hang-up bring some, and every
      other step uses some up. */
  function Cost(e: Event): int {
    match e
    case Accept(_) => 6
    case Read(_, _) => 2 + MAX_CLIENT
    case Hangup(_) => 3
    case _ => -1
  }

  lemma MainUsesUpWork(s: State, e: Event)
    requires Inv(s) && Enabled(s, e) && ByMain(e) && !e.Accept?
    ensures Work(Apply(s, e)) <= Work(s) - 1
  {
    SameSum(s.clients, Apply(s, e).clients, ClientRank());
  }

  lemma HandlerMoves(s: State, e: Event)
    requires Inv(s) && Enabled(s, e) && !ByMain(e)
    ensures var t := Apply(s, e);
            && |t.clients| == |s.clients| && t.main == s.main
            && forall d :: 0 <= d < |s.clients| && d != e.c ==> t.clients[d].stage == s.clients[d].stage
    ensures Rank(Apply(s, e).clients[e.c].stage) <= Rank(s.clients[e.c].stage) + Cost(e)
  {
    assert ClientOk(s, e.c);
  }

  lemma StepUsesUpWork(s: State, e: Event)
    requires Inv(s) && Enabled(s, e)
    ensures Work(Apply(s, e)) <= Work(s) + Cost(e)
  {
    if e.Accept? {
      SumAppend(s.clients, Client(e.fd, Unstarted, [], [], 0, 0), ClientRank());
    } else if ByMain(e) {
      MainUsesUpWork(s, e);
    } else {
      HandlerMoves(s, e);
      SumChange(s.clients, Apply(s, e).clients, e.c, ClientRank());
    }
  }

  /** What the clients of a run have asked for. */
  function Asked(es: seq<Event>): nat {
    if es == [] then 0
    else
      var e := es[|es| - 1];
      Asked(es[..|es| - 1]) + if Internal(e) then 0 else Cost(e)
  }

  function InternalSteps(es: seq<Event>): nat {
    if es == [] then 0 else InternalSteps(es[..|es| - 1]) + if Internal(es[|es| - 1]) then 1 else 0
  }

  lemma {:induction false} WorkAccounts(es: seq<Event>)
    requires Run(es).Some?
    ensures Work(Run(es).value) + InternalSteps(es) <= Asked(es)
  {
    if es != [] {
      WorkAccounts(es[..|es| - 1]);
      RunsKeepInv(es[..|es| - 1]);
      StepUsesUpWork(Run(es[..|es| - 1]).value, es[|es| - 1]);
    } else {
      assert Sum([], ClientRank()) == 0;
    }
  }

  /** In every interleaving the threads take at most 6 steps for a connection, MAX_CLIENT + 2 for
      a message and 3 for a hang-up, whoever waits for whom. */
  lemma {:induction false} StepsArePaidFor(es: seq<Event>)
    requires Run(es).Some?
    ensures InternalSteps(es) <= Asked(es)
  {
    WorkAccounts(es);
    RunsKeepInv(es);
    WorkIsNatural(Run(es).value);
  }

  lemma {:induction false} SilenceUsesUpWork(es: seq<Event>, k: nat, n: nat)
    requires k <= n <= |es| && Run(es[..n]).Some? && forall i :: k <= i < n ==> Internal(es[i])
    ensures Run(es[..k]).Some? && n - k + Work(Run(es[..n]).value) <= Work(Run(es[..k]).value)
  {
    if k < n {
      assert es[..n][..n - 1] == es[..n - 1];
      SilenceUsesUpWork(es, k, n - 1);
      RunsKeepInv(es[..n - 1]);
      StepUsesUpWork(Run(es[..n - 1]).value, es[n - 1]);
    }
  }

  /** Once the clients fall silent the server takes at most the work that is left, under any
      scheduling; with NoDeadlock, it always gets to where every thread waits for a client. */
  lemma {:induction false} SilenceLeadsToIdle(es: seq<Event>, steps: seq<Event>)
    requires Run(es + steps).Some? && forall i :: 0 <= i < |steps| ==> Internal(steps[i])
    ensures Run(es).Some? && |steps| <= Work(Run(es).value)
  {
    var all := es + steps;
    assert all[..|es|] == es && all[..|all|] == all;
    RunsKeepInv(all);
    WorkIsNatural(Run(all).value);
    SilenceUsesUpWork(all, |es|, |all|);
  }
}
