/** Who the chat server lets in, and that what clients say gets through to everyone let in; and
    that the critical sections of ChatTable are the machine's steps (week7/server.c). */
module ChatDelivery {
  import opened Sequences
  import opened ChatTable
  import opened ChatProtocol
  import opened ChatProgress

  // ---- The critical sections are the machine's steps --------------------------------------

  /** The accept thread lets a connection in, as the table's new last entry, if and only if there
      are fewer than 100; with 100 it turns the connection away and leaves the table alone. */
  ghost predicate LetsInOrTurnsAway(s: State)
    requires s.main.Adding? && s.main.c < |s.clients|
  {
    var (t, c) := (Apply(s, MainAdds), s.main.c);
    && t.mutex.Free?
    && (t.main == Starting(c) <==> |s.socks| < 100)
    && (t.main == Refusing(c) <==> |s.socks| == 100)
    && t.socks == if |s.socks| < 100 then s.socks + [s.clients[c].fd] else s.socks
  }

  lemma {:induction false} AdmitsUpToTheLimit(es: seq<Event>)
    requires Run(es).Some? && Run(es).value.main.Adding?
    ensures var s := Run(es).value; s.main.c < |s.clients| && LetsInOrTurnsAway(s)
  {
    RunsKeepInv(es);
  }

  /** The code that runs under the mutex, on a table with the machine's entries. */
  method AddStep(table: SocketTable, ghost es: seq<Event>, fd: int) returns (ok: bool)
    requires table.Valid() && Run(es).Some? && Run(es).value.main.Adding?
    requires var s := Run(es).value;
             table.Socks() == s.socks && s.main.c < |s.clients| && fd == s.clients[s.main.c].fd
    modifies table`clientCount, table.clientSocks
    ensures var t := Apply(Run(es).value, MainAdds);
            table.Valid() && table.Socks() == t.socks && (ok <==> t.main.Starting?) && (!ok <==> t.main.Refusing?)
  {
    AdmitsUpToTheLimit(es);
    ok := table.Register(fd);
  }

  method UndoStep(table: SocketTable, ghost es: seq<Event>)
    requires table.Valid() && Run(es).Some? && Run(es).value.main.Undoing?
    requires table.Socks() == Run(es).value.socks
    modifies table`clientCount
    ensures Enabled(Run(es).value, MainUndoes)
    ensures table.Valid() && table.Socks() == Apply(Run(es).value, MainUndoes).socks
  {
    RunsKeepInv(es);
    UndoDropsItsOwn(Run(es).value);
    table.Rollback();
  }

  method LeaveStep(table: SocketTable, ghost es: seq<Event>, ghost c: nat, fd: int)
    requires table.Valid() && Run(es).Some? && Enabled(Run(es).value, Leaves(c))
    requires table.Socks() == Run(es).value.socks && fd == Run(es).value.clients[c].fd
    modifies table`clientCount, table.clientSocks
    ensures table.Valid() && table.Socks() == Apply(Run(es).value, Leaves(c)).socks
  {
    table.Unregister(fd);
  }

  // ---- The table fills up -------------------------------------------------------------------

  /** n connections, on descriptors 0 to n - 1, are registered and their handlers read. */
  ghost predicate AllReading(s: State, n: nat) {
    && s.main.Accepting? && s.mutex.Free? && |s.clients| == |s.socks| == n
    && (forall c :: 0 <= c < n ==> s.clients[c].stage.Reading? && s.clients[c].fd == s.socks[c] == c)
    && (forall fd :: fd in s.open ==> fd < n)
  }

  lemma RunStep(es: seq<Event>, e: Event)
    requires Run(es).Some? && Enabled(Run(es).value, e)
    ensures Run(es + [e]) == Some(Apply(Run(es).value, e))
  {
    assert (es + [e])[..|es|] == es;
  }

  lemma OneMoreReads(es: seq<Event>, n: nat) returns (more: seq<Event>)
    requires Run(es).Some? && AllReading(Run(es).value, n) && n < 100
    ensures Run(more).Some? && AllReading(Run(more).value, n + 1)
  {
    RunStep(es, Accept(n));
    more := es + [Accept(n)];
    RunStep(more, MainLocks);
    more := more + [MainLocks];
    RunStep(more, MainAdds);
    more := more + [MainAdds];
    RunStep(more, MainStarts(true));
    more := more + [MainStarts(true)];
  }

  /** Any number of clients up to 100 can be connected at the same time. */
  lemma {:induction false} TableFills(n: nat) returns (es: seq<Event>)
    requires n <= 100
    ensures Run(es).Some? && AllReading(Run(es).value, n)
    decreases n
  {
    es := [];
    if n > 0 {
      es := TableFills(n - 1);
      es := OneMoreReads(es, n - 1);
    }
  }

  /** And the hundred and first is turned away. */
  lemma {:induction false} FullTableTurnsAway() returns (es: seq<Event>)
    ensures Run(es).Some? && |Run(es).value.socks| == 100 && Run(es).value.main == Refusing(100)
  {
    es := TableFills(100);
    RunStep(es, Accept(100));
    es := es + [Accept(100)];
    RunStep(es, MainLocks);
    es := es + [MainLocks];
    RunStep(es, MainAdds);
    es := es + [MainAdds];
  }

  // ---- Everything read is delivered -----------------------------------------------------------

  /** Once every thread waits for a client, each connection that is still being read has been sent
      the whole log from its registration on, and all its own messages are in the log. */
  lemma {:induction false} IdleMeansDelivered(es: seq<Event>, c: nat)
    requires Run(es).Some? && Idle(Run(es).value)
    requires c < |Run(es).value.clients| && Run(es).value.clients[c].stage.Reading?
    ensures var (s, client) := (Run(es).value, Run(es).value.clients[c]);
            && client.joined <= |s.log| && client.got == s.log[client.joined..]
            && client.read == SentBy(s.log, c)
  {
    EveryoneHearsOneSegment(es, c);
    SendersKeepTheirOrder(es, c);
  }

  /** Unless every thread waits for a client, some thread takes a step, and less is left to do. */
  lemma {:induction false} SomeoneSteps(es: seq<Event>) returns (e: Event)
    requires Run(es).Some? && !Idle(Run(es).value)
    ensures Internal(e) && Run(es + [e]).Some?
    ensures 0 <= Work(Run(es + [e]).value) < Work(Run(es).value)
  {
    e := NoDeadlock(es);
    RunsKeepInv(es);
    RunStep(es, e);
    RunsKeepInv(es + [e]);
    StepUsesUpWork(Run(es).value, e);
    WorkIsNatural(Run(es + [e]).value);
  }

  ghost predicate AllInternal(steps: seq<Event>) {
    forall i :: 0 <= i < |steps| ==> Internal(steps[i])
  }

  /** These steps bring every thread to where it waits for a client. */
  ghost predicate Finishes(es: seq<Event>, steps: seq<Event>) {
    Run(es + steps).Some? && Idle(Run(es + steps).value) && AllInternal(steps)
  }

  lemma FinishesLater(es: seq<Event>, e: Event, later: seq<Event>)
    requires Internal(e) && Finishes(es + [e], later)
    ensures Finishes(es, [e] + later)
  {
    assert es + ([e] + later) == es + [e] + later;
  }

  /** Whatever the state, the threads can finish what they are at without any client's help. */
  lemma {:induction false} CanFinish(es: seq<Event>, left: nat) returns (steps: seq<Event>)
    requires Run(es).Some? && Work(Run(es).value) <= left
    ensures Finishes(es, steps)
    decreases left
  {
    if Idle(Run(es).value) {
      steps := [];
      assert es + [] == es;
    } else {
      var e := SomeoneSteps(es);
      var later := CanFinish(es + [e], left - 1);
      steps := [e] + later;
      FinishesLater(es, e, later);
    }
  }

  /** The log only grows, and what a connection has said and when it joined stay. */
  ghost predicate Carried(s: State, t: State, d: nat) {
    && d < |s.clients| <= |t.clients| && s.log <= t.log
    && t.clients[d].joined == s.clients[d].joined && t.clients[d].read == s.clients[d].read
    && Started(t.clients[d].stage)
    && (s.clients[d].stage.Reading? ==> t.clients[d].stage.Reading?)
  }

  /** Where a handler that reads, or has just read, can be while its client does nothing more. */
  predicate Serving(stage: Stage) {
    stage.Reading? || stage.WantSend? || stage.Sending?
  }

  lemma MainStepCarries(s: State, e: Event, d: nat)
    requires Inv(s) && Enabled(s, e) && Internal(e) && ByMain(e)
    requires d < |s.clients| && Serving(s.clients[d].stage)
    ensures Carried(s, Apply(s, e), d) && Serving(Apply(s, e).clients[d].stage)
  {
    if !s.main.Accepting? {
      assert !Started(s.clients[s.main.c].stage);
    }
  }

  lemma HandlerStepCarries(s: State, e: Event, d: nat)
    requires Enabled(s, e) && Internal(e) && !ByMain(e)
    requires d < |s.clients| && Serving(s.clients[d].stage)
    ensures Carried(s, Apply(s, e), d) && Serving(Apply(s, e).clients[d].stage)
  {
  }

  lemma StepCarries(s: State, e: Event, d: nat)
    requires Inv(s) && Enabled(s, e) && Internal(e) && d < |s.clients| && Serving(s.clients[d].stage)
    ensures Carried(s, Apply(s, e), d) && Serving(Apply(s, e).clients[d].stage)
  {
    if ByMain(e) {
      MainStepCarries(s, e, d);
    } else {
      HandlerStepCarries(s, e, d);
    }
  }

  lemma {:induction false} StepsCarry(es: seq<Event>, steps: seq<Event>, d: nat)
    requires Run(es + steps).Some? && AllInternal(steps) && Run(es).Some?
    requires d < |Run(es).value.clients| && Serving(Run(es).value.clients[d].stage)
    ensures Carried(Run(es).value, Run(es + steps).value, d) && Serving(Run(es + steps).value.clients[d].stage)
  {
    if steps == [] {
      assert es + steps == es;
    } else {
      var front := steps[..|steps| - 1];
      assert (es + steps)[..|es + steps| - 1] == es + front;
      StepsCarry(es, front, d);
      RunsKeepInv(es + front);
      StepCarries(Run(es + front).value, steps[|steps| - 1], d);
    }
  }

  lemma {:induction false} SentByAppend(log: seq<Entry>, more: seq<Entry>, c: nat)
    ensures SentBy(log + more, c) == SentBy(log, c) + SentBy(more, c)
  {
    if more == [] {
      assert log + more == log;
    } else {
      SentByAppend(log, more[..|more| - 1], c);
      assert (log + more)[..|log + more| - 1] == log + more[..|more| - 1];
    }
  }

  lemma {:induction false} SentIsLogged(log: seq<Entry>, c: nat, msg: Message)
    requires msg in SentBy(log, c)
    ensures exists p :: 0 <= p < |log| && log[p] == Entry(c, msg)
  {
    var last := log[|log| - 1];
    if last == Entry(c, msg) {
      assert log[|log| - 1] == Entry(c, msg);
    } else {
      SentIsLogged(log[..|log| - 1], c, msg);
      var p :| 0 <= p < |log| - 1 && log[..|log| - 1][p] == Entry(c, msg);
      assert log[p] == Entry(c, msg);
    }
  }

  /** c's message is in the log, behind all that was there, and d has been sent the log from its
      registration on, that message with it. */
  ghost predicate Delivered(before: State, after: State, c: nat, msg: Message, d: nat) {
    && d < |after.clients|
    && var client := after.clients[d];
    && client.joined <= |before.log| <= |after.log|
    && client.got == after.log[client.joined..]
    && exists p :: |before.log| <= p < |after.log| && after.log[p] == Entry(c, msg)
  }

  lemma MessageIsLogged(before: State, after: State, c: nat, msg: Message)
    requires before.log <= after.log && SentBy(after.log, c) == SentBy(before.log, c) + [msg]
    ensures exists p :: |before.log| <= p < |after.log| && after.log[p] == Entry(c, msg)
  {
    var more := after.log[|before.log|..];
    assert after.log == before.log + more;
    SentByAppend(before.log, more, c);
    assert SentBy(more, c) == SentBy(after.log, c)[|SentBy(before.log, c)|..] == [msg];
    SentIsLogged(more, c, msg);
    var p :| 0 <= p < |more| && more[p] == Entry(c, msg);
    assert after.log[|before.log| + p] == Entry(c, msg);
  }

  lemma {:induction false} JoinedBefore(es: seq<Event>, d: nat)
    requires Run(es).Some? && d < |Run(es).value.clients| && Run(es).value.clients[d].stage.Reading?
    ensures Run(es).value.clients[d].joined <= |Run(es).value.log|
  {
    EveryoneHearsOneSegment(es, d);
  }

  lemma {:induction false} DeliveredTo(es: seq<Event>, c: nat, msg: Message, steps: seq<Event>, d: nat)
    requires Run(es).Some? && Enabled(Run(es).value, Read(c, msg)) && Finishes(es + [Read(c, msg)], steps)
    requires d < |Run(es).value.clients| && Run(es).value.clients[d].stage.Reading?
    ensures Delivered(Run(es).value, Run(es + [Read(c, msg)] + steps).value, c, msg, d)
  {
    var heard := es + [Read(c, msg)];
    var (before, after) := (Run(es).value, Run(heard + steps).value);
    RunStep(es, Read(c, msg));
    StepsCarry(heard, steps, c);
    StepsCarry(heard, steps, d);
    SendersKeepTheirOrder(es, c);
    IdleMeansDelivered(heard + steps, c);
    IdleMeansDelivered(heard + steps, d);
    MessageIsLogged(before, after, c, msg);
    JoinedBefore(es, d);
  }

  /** From any state, any message of 1 to 1024 bytes of any connection that is being read: the
      threads can go on, by themselves, to where each of them waits for a client, and then every
      connection that was being read has been sent it. */
  lemma {:induction false} EveryMessageIsDelivered(es: seq<Event>, c: nat, msg: Message) returns (steps: seq<Event>)
    requires Run(es).Some? && c < |Run(es).value.clients| && Run(es).value.clients[c].stage.Reading?
    requires 1 <= |msg| <= 1024
    ensures Finishes(es + [Read(c, msg)], steps)
    ensures forall d: nat :: d < |Run(es).value.clients| && Run(es).value.clients[d].stage.Reading? ==>
              Delivered(Run(es).value, Run(es + [Read(c, msg)] + steps).value, c, msg, d)
  {
    var heard := es + [Read(c, msg)];
    RunStep(es, Read(c, msg));
    RunsKeepInv(heard);
    WorkIsNatural(Run(heard).value);
    steps := CanFinish(heard, Work(Run(heard).value));
    forall d: nat | d < |Run(es).value.clients| && Run(es).value.clients[d].stage.Reading?
      ensures Delivered(Run(es).value, Run(heard + steps).value, c, msg, d)
    {
      DeliveredTo(es, c, msg, steps, d);
    }
  }

  // ---- Every hang-up is cleaned up --------------------------------------------------------------

  predicate Departing(stage: Stage) {
    stage.WantLeave? || stage.Leaving? || stage.Left? || stage.Gone?
  }

  lemma StepDeparts(s: State, e: Event, c: nat)
    requires Inv(s) && Enabled(s, e) && Internal(e) && c < |s.clients| && Departing(s.clients[c].stage)
    ensures c < |Apply(s, e).clients| && Departing(Apply(s, e).clients[c].stage)
  {
    if !s.main.Accepting? {
      assert !Started(s.clients[s.main.c].stage);
    }
  }

  lemma {:induction false} StepsDepart(es: seq<Event>, steps: seq<Event>, c: nat)
    requires Run(es + steps).Some? && AllInternal(steps) && Run(es).Some?
    requires c < |Run(es).value.clients| && Departing(Run(es).value.clients[c].stage)
    ensures c < |Run(es + steps).value.clients| && Departing(Run(es + steps).value.clients[c].stage)
  {
    if steps == [] {
      assert es + steps == es;
    } else {
      var front := steps[..|steps| - 1];
      assert (es + steps)[..|es + steps| - 1] == es + front;
      StepsDepart(es, front, c);
      RunsKeepInv(es + front);
      StepDeparts(Run(es + front).value, steps[|steps| - 1], c);
    }
  }

  /** Any connection that is being read can hang up at any time; the threads can then go on, by
      themselves, to where each waits for a client, and the connection is out of the table and its
      descriptor closed. */
  lemma {:induction false} EveryHangupIsCleanedUp(es: seq<Event>, c: nat) returns (steps: seq<Event>)
    requires Run(es).Some? && c < |Run(es).value.clients| && Run(es).value.clients[c].stage.Reading?
    ensures Finishes(es + [Hangup(c)], steps)
    ensures var t := Run(es + [Hangup(c)] + steps).value;
            && c < |t.clients| && t.clients[c].stage.Gone? && c !in t.owners
            && (t.clients[c].fd in t.open ==> t.open[t.clients[c].fd] != c)
  {
    var hungUp := es + [Hangup(c)];
    RunStep(es, Hangup(c));
    RunsKeepInv(hungUp);
    WorkIsNatural(Run(hungUp).value);
    steps := CanFinish(hungUp, Work(Run(hungUp).value));
    StepsDepart(hungUp, steps, c);
    RunsKeepInv(hungUp + steps);
    assert ClientOk(Run(hungUp + steps).value, c);
  }
}
