/** Serial runs of the Rust game server: one event at a time, each handled to its end before the
    next arrives. They are runs of RsThreads, and they do what Simulation's RsWorld does; so the
    C server's partner in the simulation is the threaded server itself. */
module RsSerial {
  import opened Sequences
  import opened GameTable
  import opened RsServer
  import opened RsThreads
  import opened RsSequential
  import Sim = Simulation

  // ---- Steps of one thread are a run ----------------------------------------------------

  /** What an event sends. */
  function Sends(s: State, e: Event): seq<Send<Link>> {
    if e.Step? && e.c < |s.threads| then SentBy(s, e.c)
    else if e.UdpStep? then UdpSentBy(s)
    else []
  }

  /** Everything sent in a run. */
  function SentIn(slots: nat, es: seq<Event>): seq<Send<Link>> {
    if es == [] then []
    else
      var before := Run(slots, es[..|es| - 1]);
      SentIn(slots, es[..|es| - 1]) + if before.Some? then Sends(before.value, es[|es| - 1]) else []
  }

  ghost predicate GetsTo(slots: nat, es: seq<Event>, s: State, sends: seq<Send<Link>>) {
    Run(slots, es) == Some(s) && SentIn(slots, es) == sends
  }

  /** Some run ends in s and has sent this. */
  ghost predicate Attains(slots: nat, s: State, sends: seq<Send<Link>>) {
    exists es :: GetsTo(slots, es, s, sends)
  }

  lemma AttainsStart(slots: nat)
    ensures Attains(slots, Start(slots), [])
  {
    assert GetsTo(slots, [], Start(slots), []);
  }

  lemma OneMoreEvent(slots: nat, s: State, sends: seq<Send<Link>>, e: Event)
    requires Attains(slots, s, sends) && Enabled(s, e)
    ensures Attains(slots, Apply(s, e), sends + Sends(s, e))
  {
    var es :| GetsTo(slots, es, s, sends);
    assert (es + [e])[..|es|] == es;
    assert GetsTo(slots, es + [e], Apply(s, e), sends + Sends(s, e));
  }

  lemma OneMoreSilentEvent(slots: nat, s: State, sends: seq<Send<Link>>, e: Event)
    requires Attains(slots, s, sends) && Enabled(s, e) && Sends(s, e) == []
    ensures Attains(slots, Apply(s, e), sends)
  {
    OneMoreEvent(slots, s, sends, e);
    assert sends + [] == sends;
  }

  lemma AttainedLocks(slots: nat, s: State, sends: seq<Send<Link>>)
    requires Attains(slots, s, sends)
    ensures Locks(s) && |s.slots| == slots
  {
    var es :| GetsTo(slots, es, s, sends);
    RunsKeepLocks(slots, es);
  }

  /** What one step of a thread keeps, n steps of it keep. */
  ghost predicate KeptBy(keeps: (State, seq<Send<Link>>) -> bool, e: Event) {
    forall s, sends :: keeps(s, sends) && Enabled(s, e) ==> keeps(Apply(s, e), sends + Sends(s, e))
  }

  lemma {:induction false} StepsKeep(keeps: (State, seq<Send<Link>>) -> bool,
                                     s: State, sends: seq<Send<Link>>, c: nat, n: nat)
    requires KeptBy(keeps, Step(c)) && keeps(s, sends) && Steps(s, c, n).Some?
    ensures keeps(Steps(s, c, n).value.state, sends + Steps(s, c, n).value.sends)
    decreases n
  {
    if n == 0 {
      assert sends + [] == sends;
    } else {
      assert keeps(Apply(s, Step(c)), sends + Sends(s, Step(c)));
      StepsKeep(keeps, StepTcp(s, c), sends + SentBy(s, c), c, n - 1);
      Associative(sends, SentBy(s, c), Steps(StepTcp(s, c), c, n - 1).value.sends);
    }
  }

  lemma {:induction false} UdpStepsKeep(keeps: (State, seq<Send<Link>>) -> bool,
                                        s: State, sends: seq<Send<Link>>, n: nat)
    requires KeptBy(keeps, UdpStep) && keeps(s, sends) && UdpSteps(s, n).Some?
    ensures keeps(UdpSteps(s, n).value.state, sends + UdpSteps(s, n).value.sends)
    decreases n
  {
    if n == 0 {
      assert sends + [] == sends;
    } else {
      assert keeps(Apply(s, UdpStep), sends + Sends(s, UdpStep));
      UdpStepsKeep(keeps, StepUdp(s), sends + UdpSentBy(s), n - 1);
      Associative(sends, UdpSentBy(s), UdpSteps(StepUdp(s), n - 1).value.sends);
    }
  }

  lemma EventsKeepAttains(slots: nat, e: Event)
    ensures KeptBy((s, sends) => Attains(slots, s, sends), e)
  {
    forall s, sends | Attains(slots, s, sends) && Enabled(s, e)
      ensures Attains(slots, Apply(s, e), sends + Sends(s, e))
    {
      OneMoreEvent(slots, s, sends, e);
    }
  }

  lemma AloneIsARun(slots: nat, s: State, sends: seq<Send<Link>>, c: nat, n: nat)
    requires Attains(slots, s, sends) && Steps(s, c, n).Some?
    ensures Attains(slots, Steps(s, c, n).value.state, sends + Steps(s, c, n).value.sends)
  {
    EventsKeepAttains(slots, Step(c));
    StepsKeep((t, all) => Attains(slots, t, all), s, sends, c, n);
  }

  lemma UdpAloneIsARun(slots: nat, s: State, sends: seq<Send<Link>>, n: nat)
    requires Attains(slots, s, sends) && UdpSteps(s, n).Some?
    ensures Attains(slots, UdpSteps(s, n).value.state, sends + UdpSteps(s, n).value.sends)
  {
    EventsKeepAttains(slots, UdpStep);
    UdpStepsKeep((t, all) => Attains(slots, t, all), s, sends, n);
  }

  // ---- Serial runs ----------------------------------------------------------------------

  /** Nobody is in the middle of anything. */
  ghost predicate Calm(s: State) {
    && s.stateLock.NoOne? && s.udp.UdpIdle? && |s.threads| == |s.writeLocks|
    && (forall w: nat :: w < |s.writeLocks| ==> s.writeLocks[w].NoOne?)
    && (forall c: nat :: c < |s.threads| ==> s.threads[c].pc.Reading? || s.threads[c].pc.Done?)
  }

  lemma CalmIsQuiet(slots: nat, s: State, sends: seq<Send<Link>>, c: nat)
    requires Attains(slots, s, sends) && Calm(s) && c < |s.threads|
    ensures Quiet(s, c)
  {
    AttainedLocks(slots, s, sends);
  }

  /** A packet, up to where the thread reads again or has left its loop. */
  lemma PacketRuns(slots: nat, s: State, sends: seq<Send<Link>>, c: nat, pkt: Packet) returns (r: Alone)
    requires Attains(slots, s, sends) && Calm(s) && c < |s.threads| && s.threads[c].pc.Reading?
    ensures Attains(slots, r.state, sends + r.sends) && HandledAs(s, r, c, pkt)
  {
    CalmIsQuiet(slots, s, sends, c);
    OneMoreSilentEvent(slots, s, sends, Recv(c, pkt));
    var n := UninterruptedIsOnTcp(s, c, pkt);
    r := Steps(Apply(s, Recv(c, pkt)), c, n).value;
    AloneIsARun(slots, Apply(s, Recv(c, pkt)), sends, c, n);
  }

  /** The end of thread c, from the moment it has left its loop. */
  lemma EndRuns(slots: nat, s: State, sends: seq<Send<Link>>, c: nat) returns (r: Alone)
    requires Attains(slots, s, sends) && s.stateLock.NoOne? && c < |s.threads| && s.threads[c].pc.Ending?
    ensures Attains(slots, r.state, sends) && EndedAs(s, r, c)
  {
    AttainedLocks(slots, s, sends);
    assert ThreadLocks(s, c);
    var n := EndGivesSlotBack(s, c);
    r := Steps(s, c, n).value;
    AloneIsARun(slots, s, sends, c, n);
    assert sends + [] == sends;
  }

  lemma HangupRuns(slots: nat, s: State, sends: seq<Send<Link>>, c: nat) returns (r: Alone)
    requires Attains(slots, s, sends) && Calm(s) && c < |s.threads| && s.threads[c].pc.Reading?
    ensures Attains(slots, r.state, sends) && EndedAs(SetPc(s, c, Ending), r, c)
  {
    OneMoreSilentEvent(slots, s, sends, Fail(c));
    r := EndRuns(slots, SetPc(s, c, Ending), sends, c);
  }

  lemma DatagramRuns(slots: nat, s: State, sends: seq<Send<Link>>, pkt: Packet, src: Address)
    requires Attains(slots, s, sends) && Calm(s)
    ensures var effect := OnUdpUsize(s.slots, pkt, src);
            Attains(slots, s.(slots := effect.players), sends + effect.sends)
  {
    OneMoreSilentEvent(slots, s, sends, UdpRecv(pkt, src));
    var n := UninterruptedIsOnUdp(s, pkt, src);
    UdpAloneIsARun(slots, Apply(s, UdpRecv(pkt, src)), sends, n);
  }

  // ---- The simulation's Rust side is the threads, serially --------------------------------

  /** The thread machine and the sequential world hold the same players and the same handlers. */
  ghost predicate SameHandlers(s: State, w: Sim.RsWorld) {
    && Calm(s) && s.slots == w.players && |s.threads| == |w.threads|
    && forall c: nat :: c < |w.threads| ==>
         && (w.threads[c].alive <==> s.threads[c].pc.Reading?)
         && (w.threads[c].alive ==> w.threads[c].myId == s.threads[c].myId)
  }

  /** A serial run has got to where the sequential world is, and has sent the same. */
  ghost predicate Serves(slots: nat, s: State, sends: seq<Send<Link>>, w: Sim.RsWorld) {
    Attains(slots, s, sends) && SameHandlers(s, w) && w.sent == Sim.ByConnection(sends)
  }

  predicate Knows(w: Sim.RsWorld, e: Sim.Event) {
    e.Sends? || e.HangsUp? ==> e.conn < |w.threads|
  }

  lemma ConnectKeeps(s: State, w: Sim.RsWorld, fd: int)
    requires SameHandlers(s, w)
    ensures SameHandlers(Apply(s, Connect), Sim.RsStep(w, Sim.Connects(fd)))
    ensures Sim.RsStep(w, Sim.Connects(fd)).sent == w.sent
  {
  }

  lemma ServesDatagram(slots: nat, s: State, sends: seq<Send<Link>>, w: Sim.RsWorld, pkt: Packet, src: Address)
    requires Serves(slots, s, sends, w)
    ensures var effect := OnUdpUsize(s.slots, pkt, src);
            Serves(slots, s.(slots := effect.players), sends + effect.sends,
                   Sim.RsStep(w, Sim.SendsDatagram(pkt, src)))
  {
    DatagramRuns(slots, s, sends, pkt, src);
    Sim.ByConnectionAppend(sends, OnUdpUsize(s.slots, pkt, src).sends);
  }

  lemma HangupKeeps(s: State, w: Sim.RsWorld, c: nat, r: Alone)
    requires SameHandlers(s, w) && c < |w.threads| && w.threads[c].alive
    requires EndedAs(SetPc(s, c, Ending), r, c)
    ensures SameHandlers(r.state, Sim.RsStep(w, Sim.HangsUp(c))) && Sim.RsStep(w, Sim.HangsUp(c)).sent == w.sent
  {
  }

  lemma PacketKeeps(s: State, w: Sim.RsWorld, c: nat, pkt: Packet, r: Alone)
    requires SameHandlers(s, w) && c < |w.threads| && w.threads[c].alive
    requires HandledAs(s, r, c, pkt) && OnTcp(w.players, pkt, c, w.threads[c].myId).goOn
    ensures SameHandlers(r.state, Sim.RsStep(w, Sim.Sends(c, pkt)))
    ensures Sim.RsStep(w, Sim.Sends(c, pkt)).sent == w.sent + Sim.ByConnection(r.sends)
  {
  }

  lemma LastPacketKeeps(s: State, w: Sim.RsWorld, c: nat, pkt: Packet, r: Alone, end: Alone)
    requires SameHandlers(s, w) && c < |w.threads| && w.threads[c].alive
    requires HandledAs(s, r, c, pkt) && !OnTcp(w.players, pkt, c, w.threads[c].myId).goOn
    requires EndedAs(r.state, end, c)
    ensures SameHandlers(end.state, Sim.RsStep(w, Sim.Sends(c, pkt)))
    ensures Sim.RsStep(w, Sim.Sends(c, pkt)).sent == w.sent + Sim.ByConnection(r.sends)
  {
  }

  lemma ServesPacket(slots: nat, s: State, sends: seq<Send<Link>>, w: Sim.RsWorld, c: nat, pkt: Packet)
    returns (t: State, all: seq<Send<Link>>)
    requires Serves(slots, s, sends, w) && c < |w.threads| && w.threads[c].alive
    ensures Serves(slots, t, all, Sim.RsStep(w, Sim.Sends(c, pkt)))
  {
    var r := PacketRuns(slots, s, sends, c, pkt);
    all := sends + r.sends;
    Sim.ByConnectionAppend(sends, r.sends);
    if OnTcp(w.players, pkt, c, w.threads[c].myId).goOn {
      PacketKeeps(s, w, c, pkt, r);
      t := r.state;
    } else {
      var end := EndRuns(slots, r.state, all, c);
      LastPacketKeeps(s, w, c, pkt, r, end);
      t := end.state;
    }
  }

  lemma ServesEvent(slots: nat, s: State, sends: seq<Send<Link>>, w: Sim.RsWorld, e: Sim.Event)
    returns (t: State, all: seq<Send<Link>>)
    requires Serves(slots, s, sends, w) && Knows(w, e)
    ensures Serves(slots, t, all, Sim.RsStep(w, e))
  {
    t, all := s, sends;
    if e.Connects? {
      OneMoreSilentEvent(slots, s, sends, Connect);
      ConnectKeeps(s, w, e.fd);
      t := Apply(s, Connect);
    } else if e.SendsDatagram? {
      ServesDatagram(slots, s, sends, w, e.pkt, e.src);
      var effect := OnUdpUsize(s.slots, e.pkt, e.src);
      t, all := s.(slots := effect.players), sends + effect.sends;
    } else if w.threads[e.conn].alive {
      if e.Sends? {
        t, all := ServesPacket(slots, s, sends, w, e.conn, e.pkt);
      } else {
        var r := HangupRuns(slots, s, sends, e.conn);
        HangupKeeps(s, w, e.conn, r);
        t := r.state;
      }
    }
  }

  /** Every run of the simulation's Rust side is a serial run of the threads. */
  lemma {:induction false} WorldIsASerialRun(slots: nat, es: seq<Sim.Event>)
    returns (s: State, sends: seq<Send<Link>>)
    requires Sim.Run(slots, es).Some?
    ensures Serves(slots, s, sends, Sim.Run(slots, es).value.rs)
  {
    if es == [] {
      AttainsStart(slots);
      s, sends := Start(slots), [];
    } else {
      s, sends := WorldIsASerialRun(slots, es[..|es| - 1]);
      s, sends := ServesEvent(slots, s, sends, Sim.Run(slots, es[..|es| - 1]).value.rs, es[|es| - 1]);
    }
  }

  /** The C server against the threaded Rust server: unless an event comes on which the servers
      part, some run of the threads ends with the same table, slot by slot, and has sent the same
      packets to the same connections in the same order. */
  lemma {:induction false} ThreadedServerAgreesWithC(slots: nat, es: seq<Sim.Event>) returns (run: seq<Event>)
    requires slots <= 0x8000_0000 && Sim.Run(slots, es).Some? && Sim.NeverParts(slots, es)
    ensures var c := Sim.Run(slots, es).value.c;
            && Run(slots, run).Some? && Calm(Run(slots, run).value)
            && Sim.SameTable(c.players, Run(slots, run).value.slots, c.open)
            && c.sent == Sim.ByConnection(SentIn(slots, run))
  {
    Sim.RunsAgreeIff(slots, es);
    var s, sends := WorldIsASerialRun(slots, es);
    run :| GetsTo(slots, run, s, sends);
  }

  // ---- Runs of clients that are not polite ----------------------------------------------

  lemma OneClient() returns (s: State)
    ensures Attains(2, s, []) && Calm(s) && s.slots == [EMPTY, EMPTY]
    ensures s.threads == [Thread(None, Reading, 0, [])]
  {
    AttainsStart(2);
    OneMoreSilentEvent(2, Start(2), [], Connect);
    s := Apply(Start(2), Connect);
    assert s.slots == [EMPTY, EMPTY];
  }

  /** A second granted login makes the thread forget its first slot: it ends having been granted
      two slots and having freed one, and the other stays active and linked to it. */
  lemma SecondLoginLosesASlot(login: Packet) returns (run: seq<Event>)
    requires login.kind == LOGIN
    ensures Run(2, run).Some? && |Run(2, run).value.threads| == 1 && |Run(2, run).value.slots| == 2
    ensures var s := Run(2, run).value;
            && s.threads[0].pc.Done? && s.threads[0].granted == 2 && s.threads[0].freedBy == [0]
            && s.slots[0].isActive && s.slots[0].link == Some(0)
  {
    var s := OneClient();
    assert LowestFree(s.slots) == 0;
    var a := PacketRuns(2, s, [], 0, login);
    assert LowestFree(a.state.slots) == 1;
    var b := PacketRuns(2, a.state, [] + a.sends, 0, login);
    var end := HangupRuns(2, b.state, [] + a.sends + b.sends, 0);
    assert [] + [0] == [0];
    run :| GetsTo(2, run, end.state, [] + a.sends + b.sends);
  }

  /** A logout with another player's id frees that player's slot, while its connection is still
      reading and remembers the slot as its own. */
  lemma StrangersLogoutIsReal(login: Packet, logout: Packet) returns (run: seq<Event>)
    requires login.kind == LOGIN && logout.kind == LOGOUT && logout.playerId == 0
    ensures Run(2, run).Some? && |Run(2, run).value.threads| == 2 && |Run(2, run).value.slots| == 2
    ensures var s := Run(2, run).value;
            && s.threads[0].pc.Reading? && s.threads[0].myId == Some(0) && !s.slots[0].isActive
  {
    var s := OneClient();
    OneMoreSilentEvent(2, s, [], Connect);
    var t := Apply(s, Connect);
    assert LowestFree(t.slots) == 0;
    var a := PacketRuns(2, t, [], 0, login);
    var b := PacketRuns(2, a.state, [] + a.sends, 1, logout);
    run :| GetsTo(2, run, b.state, [] + a.sends + b.sends);
  }
}
