/** Every interleaving of the Rust game server's threads (week13/server.rs).

    One thread per TCP connection and one UDP thread share the player vector behind the state
    lock; each connection's write half has a lock of its own. A step takes or gives back one
    lock, or does what a thread does between two lock operations. A thread that wants a lock
    can step only while that lock is free. */
module RsThreads {
  import opened Sequences
  import opened GameTable
  import opened RsServer

  /** Where a connection's thread is. `out` marks the broadcast of its own logout, after which
      it forgets its id and ends. */
  datatype Pc =
    | Reading
    | WantAlloc(pkt: Packet) | Alloc(pkt: Packet)
    | WantReply(pkt: Packet) | Reply(pkt: Packet)
    | WantCast(pkt: Packet, out: bool)
    | Cast(pkt: Packet, i: nat, out: bool)
    | WantWrite(pkt: Packet, i: nat, w: nat, out: bool)
    | Writing(pkt: Packet, i: nat, w: nat, out: bool)
    | WantFree(pid: nat, pkt: Packet) | Free(pid: nat, pkt: Packet)
    | Ending
    | WantFinal(pid: nat) | Final(pid: nat)
    | Done

  datatype Thread = Thread(
    myId: Option<nat>,
    pc: Pc,
    granted: nat,         // history: how often it was given a slot
    freedBy: seq<nat>)    // history: which threads freed a slot while it was this thread's

  datatype UdpPc =
    | UdpIdle
    | WantMove(pkt: Packet, src: Address) | Move(pkt: Packet, src: Address)
    | WantUdpCast(pkt: Packet)
    | UdpCasting(pkt: Packet, i: nat)

  datatype Owner = NoOne | UdpThread | TcpThread(c: nat)

  datatype State = State(
    slots: seq<Player<Link>>,
    stateLock: Owner,
    writeLocks: seq<Owner>,   // one per connection
    threads: seq<Thread>,
    udp: UdpPc)

  datatype Event =
    | Connect
    | Recv(c: nat, pkt: Packet)
    | Fail(c: nat)                          // read_exact returns an error
    | Step(c: nat)
    | UdpRecv(pkt: Packet, src: Address)
    | UdpStep

  predicate WaitsForState(pc: Pc) {
    pc.WantAlloc? || pc.WantCast? || pc.WantFree? || pc.WantFinal?
  }

  predicate Enabled(s: State, e: Event) {
    match e
    case Connect => true
    case Recv(c, _) => c < |s.threads| && s.threads[c].pc.Reading?
    case Fail(c) => c < |s.threads| && s.threads[c].pc.Reading?
    case Step(c) =>
      && c < |s.threads| == |s.writeLocks|
      && var pc := s.threads[c].pc;
      && !pc.Reading? && !pc.Done?
      && (WaitsForState(pc) ==> s.stateLock.NoOne?)
      && (pc.WantReply? ==> s.writeLocks[c].NoOne?)
      && (pc.WantWrite? ==> pc.w < |s.writeLocks| && s.writeLocks[pc.w].NoOne?)
      && (pc.Writing? ==> pc.w < |s.writeLocks|)
      && (pc.Free? || pc.Final? ==> pc.pid < |s.slots|)
    case UdpRecv(_, _) => s.udp.UdpIdle?
    case UdpStep =>
      && !s.udp.UdpIdle?
      && (s.udp.WantMove? || s.udp.WantUdpCast? ==> s.stateLock.NoOne?)
      && (s.udp.Move? ==> 0 <= AsUsize(s.udp.pkt.playerId) < |s.slots|)
  }

  function SetPc(s: State, c: nat, pc: Pc): State
    requires c < |s.threads|
  {
    s.(threads := s.threads[c := s.threads[c].(pc := pc)])
  }

  /** free_player by thread c, on slot pid: the tenant, if any, loses the slot. */
  function FreeSlot(s: State, c: nat, pid: nat): State
    requires pid < |s.slots|
  {
    var tenant := s.slots[pid].link;
    s.(slots := s.slots[pid := Vacated(s.slots[pid], None)],
       threads := if tenant.Some? && tenant.value < |s.threads| then
                    var t := s.threads[tenant.value];
                    s.threads[tenant.value := t.(freedBy := t.freedBy + [c])]
                  else s.threads)
  }

  /** on_tcp picks the branch; nothing shared is touched yet. */
  function Dispatch(s: State, pkt: Packet): Pc {
    var pid := AsUsize(pkt.playerId);
    if pkt.kind == LOGIN then WantAlloc(pkt)
    else if pkt.kind == LOGOUT then
      if 0 <= pid < |s.slots| then WantFree(pid, pkt) else Ending
    else if pkt.kind == ATTACK || pkt.kind == ITEM then WantCast(pkt, false)
    else Reading
  }

  function StepTcp(s: State, c: nat): State
    requires Enabled(s, Step(c))
  {
    var t := s.threads[c];
    match t.pc
    case WantAlloc(pkt) => SetPc(s, c, Alloc(pkt)).(stateLock := TcpThread(c))
    case Alloc(pkt) =>
      var id := LowestFree(s.slots);
      if id == |s.slots| then SetPc(s, c, Reading).(stateLock := NoOne)
      else
        s.(slots := s.slots[id := Seated(s.slots[id], Some(c), pkt.username)],
           threads := s.threads[c := Thread(Some(id), WantReply(pkt.(playerId := id)), t.granted + 1, t.freedBy)],
           stateLock := NoOne)
    case WantReply(pkt) => SetPc(s, c, Reply(pkt)).(writeLocks := s.writeLocks[c := TcpThread(c)])
    case Reply(pkt) => SetPc(s, c, WantCast(pkt, false)).(writeLocks := s.writeLocks[c := NoOne])
    case WantCast(pkt, out) => SetPc(s, c, Cast(pkt, 0, out)).(stateLock := TcpThread(c))
    case Cast(pkt, i, out) =>
      if i >= |s.slots| then
        if out then s.(threads := s.threads[c := t.(myId := None, pc := Ending)], stateLock := NoOne)
        else SetPc(s, c, Reading).(stateLock := NoOne)
      else if s.slots[i].isActive && s.slots[i].link.Some? then
        SetPc(s, c, WantWrite(pkt, i, s.slots[i].link.value, out))
      else SetPc(s, c, Cast(pkt, i + 1, out))
    case WantWrite(pkt, i, w, out) =>
      SetPc(s, c, Writing(pkt, i, w, out)).(writeLocks := s.writeLocks[w := TcpThread(c)])
    case Writing(pkt, i, w, out) =>
      SetPc(s, c, Cast(pkt, i + 1, out)).(writeLocks := s.writeLocks[w := NoOne])
    case WantFree(pid, pkt) => SetPc(s, c, Free(pid, pkt)).(stateLock := TcpThread(c))
    case Free(pid, pkt) => SetPc(FreeSlot(s, c, pid), c, WantCast(pkt, true)).(stateLock := NoOne)
    case Ending => SetPc(s, c, if t.myId.Some? then WantFinal(t.myId.value) else Done)
    case WantFinal(pid) => SetPc(s, c, Final(pid)).(stateLock := TcpThread(c))
    case Final(pid) => SetPc(FreeSlot(s, c, pid), c, Done).(stateLock := NoOne)
  }

  function StepUdp(s: State): State
    requires Enabled(s, UdpStep)
  {
    match s.udp
    case WantMove(pkt, src) => s.(udp := Move(pkt, src), stateLock := UdpThread)
    case Move(pkt, src) =>
      var pid := AsUsize(pkt.playerId);
      if s.slots[pid].isActive then
        s.(udp := WantUdpCast(pkt), stateLock := NoOne,
           slots := s.slots[pid := s.slots[pid].(x := pkt.x, y := pkt.y, udpAddr := Some(src))])
      else s.(udp := UdpIdle, stateLock := NoOne)
    case WantUdpCast(pkt) => s.(udp := UdpCasting(pkt, 0), stateLock := UdpThread)
    case UdpCasting(pkt, i) =>
      if i >= |s.slots| then s.(udp := UdpIdle, stateLock := NoOne)
      else s.(udp := UdpCasting(pkt, i + 1))
  }

  function Apply(s: State, e: Event): State
    requires Enabled(s, e)
  {
    match e
    case Connect =>
      s.(threads := s.threads + [Thread(None, Reading, 0, [])], writeLocks := s.writeLocks + [NoOne])
    case Recv(c, pkt) => SetPc(s, c, Dispatch(s, pkt))
    case Fail(c) => SetPc(s, c, Ending)
    case Step(c) => StepTcp(s, c)
    case UdpRecv(pkt, src) =>
      if 0 <= AsUsize(pkt.playerId) < |s.slots| then s.(udp := WantMove(pkt, src)) else s
    case UdpStep => StepUdp(s)
  }

  function Start(slots: nat): State {
    State(seq(slots, _ => EMPTY), NoOne, [], [], UdpIdle)
  }

  /** The state after a run, or None when some event was not possible where it stands. */
  function Run(slots: nat, es: seq<Event>): Option<State> {
    if es == [] then Some(Start(slots))
    else
      var before := Run(slots, es[..|es| - 1]);
      var e := es[|es| - 1];
      if before.Some? && Enabled(before.value, e) then Some(Apply(before.value, e)) else None
  }

  // ---- Who holds which lock, whatever the clients send --------------------------------

  predicate HoldsState(pc: Pc) {
    pc.Alloc? || pc.Cast? || pc.WantWrite? || pc.Writing? || pc.Free? || pc.Final?
  }

  predicate HoldsWrite(pc: Pc, c: nat, w: nat) {
    (pc.Reply? && w == c) || (pc.Writing? && w == pc.w)
  }

  predicate InRange(pc: Pc, threads: nat, slots: nat) {
    && (pc.WantFree? || pc.Free? || pc.WantFinal? || pc.Final? ==> pc.pid < slots)
    && (pc.Cast? ==> pc.i <= slots)
    && (pc.WantWrite? || pc.Writing? ==> pc.i < slots && pc.w < threads)
  }

  /** Thread c holds the state lock exactly where the code says so, and the write locks it
      should; when it ends it frees the slot it remembers. */
  ghost predicate ThreadLocks(s: State, c: nat)
    requires c < |s.threads| == |s.writeLocks|
  {
    var t := s.threads[c];
    && (s.stateLock == TcpThread(c) <==> HoldsState(t.pc))
    && InRange(t.pc, |s.threads|, |s.slots|)
    && (t.myId.Some? ==> t.myId.value < |s.slots|)
    && (t.pc.WantFinal? || t.pc.Final? ==> t.myId == Some(t.pc.pid))
    && (t.pc.Reply? ==> s.writeLocks[c] == TcpThread(c))
    && (t.pc.Writing? ==> s.writeLocks[t.pc.w] == TcpThread(c))
  }

  ghost predicate WriteLock(s: State, w: nat)
    requires w < |s.threads| == |s.writeLocks|
  {
    var owner := s.writeLocks[w];
    && !owner.UdpThread?
    && (owner.TcpThread? ==> owner.c < |s.threads| && HoldsWrite(s.threads[owner.c].pc, owner.c, w))
  }

  ghost predicate SlotLink(s: State, i: nat)
    requires i < |s.slots|
  {
    s.slots[i].link.Some? ==> s.slots[i].link.value < |s.threads|
  }

  ghost predicate Locks(s: State) {
    && |s.threads| == |s.writeLocks|
    && (s.stateLock.TcpThread? ==> s.stateLock.c < |s.threads|)
    && (s.stateLock.UdpThread? <==> s.udp.Move? || s.udp.UdpCasting?)
    && (s.udp.WantMove? || s.udp.Move? ==> 0 <= AsUsize(s.udp.pkt.playerId) < |s.slots|)
    && (s.udp.UdpCasting? ==> s.udp.i <= |s.slots|)
    && (forall c: nat :: c < |s.threads| ==> ThreadLocks(s, c))
    && (forall w: nat :: w < |s.threads| ==> WriteLock(s, w))
    && (forall i: nat :: i < |s.slots| ==> SlotLink(s, i))
  }

  predicate ActsFor(e: Event, c: nat) {
    (e.Recv? || e.Fail? || e.Step?) && e.c == c
  }

  predicate Frees(s: State, e: Event) {
    e.Step? && e.c < |s.threads| && (s.threads[e.c].pc.Free? || s.threads[e.c].pc.Final?)
  }

  lemma FreeingMovesNobody(s: State, who: nat, pid: nat, c: nat)
    requires pid < |s.slots| && c < |s.threads|
    ensures var t := FreeSlot(s, who, pid);
            && |t.threads| == |s.threads| && |t.slots| == |s.slots|
            && t.threads[c].pc == s.threads[c].pc && t.threads[c].myId == s.threads[c].myId
            && t.threads[c].granted == s.threads[c].granted
  {
  }

  lemma OthersAreTheSame(s: State, e: Event, c: nat)
    requires Enabled(s, e) && c < |s.threads| && !ActsFor(e, c) && !Frees(s, e)
    ensures |s.threads| <= |Apply(s, e).threads| && |s.slots| == |Apply(s, e).slots|
    ensures Apply(s, e).threads[c] == s.threads[c]
  {
  }

  lemma OthersStandStill(s: State, e: Event, c: nat)
    requires Enabled(s, e) && c < |s.threads| && !ActsFor(e, c)
    ensures |s.threads| <= |Apply(s, e).threads| && |s.slots| == |Apply(s, e).slots|
    ensures var (was, now) := (s.threads[c], Apply(s, e).threads[c]);
            now.pc == was.pc && now.myId == was.myId && now.granted == was.granted
  {
    if Frees(s, e) {
      FreeingMovesNobody(s, e.c, s.threads[e.c].pc.pid, c);
    } else {
      OthersAreTheSame(s, e, c);
    }
  }

  /** What an event does to the state lock. */
  lemma StateLockMoves(s: State, e: Event)
    requires Locks(s) && Enabled(s, e)
    ensures var (was, now) := (s.stateLock, Apply(s, e).stateLock);
            || now == was
            || (e.Step? && was == NoOne && now == TcpThread(e.c))
            || (e.Step? && was == TcpThread(e.c) && now == NoOne)
            || (e.UdpStep? && was == NoOne && now == UdpThread)
            || (e.UdpStep? && was == UdpThread && now == NoOne)
  {
    if e.Step? { assert ThreadLocks(s, e.c); }
  }

  /** What an event does to a write lock. */
  lemma WriteLockMoves(s: State, e: Event, w: nat)
    requires Locks(s) && Enabled(s, e) && w < |s.threads|
    ensures |s.writeLocks| <= |Apply(s, e).writeLocks|
    ensures var (was, now) := (s.writeLocks[w], Apply(s, e).writeLocks[w]);
            || now == was
            || (e.Step? && was == NoOne && now == TcpThread(e.c))
            || (e.Step? && was == TcpThread(e.c) && now == NoOne)
  {
    if e.Step? { assert ThreadLocks(s, e.c); }
  }

  lemma ThreadLocksStay(s: State, e: Event, c: nat)
    requires Locks(s) && Enabled(s, e) && c < |s.threads| && !ActsFor(e, c)
    ensures |Apply(s, e).threads| == |Apply(s, e).writeLocks| >= |s.threads|
    ensures ThreadLocks(Apply(s, e), c)
  {
    assert ThreadLocks(s, c);
    OthersStandStill(s, e, c);
    StateLockMoves(s, e);
    WriteLockMoves(s, e, c);
    if s.threads[c].pc.Writing? {
      WriteLockMoves(s, e, s.threads[c].pc.w);
    }
  }

  lemma OwnLocksStayInCast(s: State, c: nat)
    requires Locks(s) && Enabled(s, Step(c)) && s.threads[c].pc.Cast?
    ensures ThreadLocks(StepTcp(s, c), c)
  {
    assert ThreadLocks(s, c);
    if s.threads[c].pc.i < |s.slots| {
      assert SlotLink(s, s.threads[c].pc.i);
    }
  }

  lemma OwnLocksStayInStep(s: State, c: nat)
    requires Locks(s) && Enabled(s, Step(c)) && !Frees(s, Step(c)) && !s.threads[c].pc.Cast?
    ensures ThreadLocks(StepTcp(s, c), c)
  {
    assert ThreadLocks(s, c);
  }

  lemma OwnLocksStay(s: State, e: Event, c: nat)
    requires Locks(s) && Enabled(s, e) && ActsFor(e, c)
    ensures ThreadLocks(Apply(s, e), c)
  {
    assert ThreadLocks(s, c);
    if !e.Step? {
    } else if Frees(s, e) {
      FreeingMovesNobody(s, c, s.threads[c].pc.pid, c);
    } else if s.threads[c].pc.Cast? {
      OwnLocksStayInCast(s, c);
    } else {
      OwnLocksStayInStep(s, c);
    }
  }

  lemma OwnWriteLockStays(s: State, e: Event, w: nat)
    requires Locks(s) && Enabled(s, e) && w < |s.threads| && s.writeLocks[w].TcpThread? && ActsFor(e, s.writeLocks[w].c)
    ensures |Apply(s, e).threads| == |Apply(s, e).writeLocks| >= |s.threads| && WriteLock(Apply(s, e), w)
  {
    assert WriteLock(s, w) && ThreadLocks(s, e.c);
  }

  lemma OthersWriteLockStays(s: State, e: Event, w: nat)
    requires Locks(s) && Enabled(s, e) && w < |s.threads|
    requires s.writeLocks[w].TcpThread? ==> !ActsFor(e, s.writeLocks[w].c)
    requires |Apply(s, e).threads| == |Apply(s, e).writeLocks| >= |s.threads|
    ensures WriteLock(Apply(s, e), w)
  {
    assert WriteLock(s, w);
    if s.writeLocks[w].TcpThread? {
      OthersStandStill(s, e, s.writeLocks[w].c);
    }
    if e.Step? || e.Recv? || e.Fail? { assert ThreadLocks(s, e.c); }
  }

  lemma WriteLockStays(s: State, e: Event, w: nat)
    requires Locks(s) && Enabled(s, e) && w < |Apply(s, e).threads| == |Apply(s, e).writeLocks|
    ensures WriteLock(Apply(s, e), w)
  {
    if w >= |s.threads| {
      assert e.Connect?;
    } else if s.writeLocks[w].TcpThread? && ActsFor(e, s.writeLocks[w].c) {
      OwnWriteLockStays(s, e, w);
    } else {
      OthersWriteLockStays(s, e, w);
    }
  }

  lemma SlotsUntouched(s: State, c: nat)
    requires Enabled(s, Step(c)) && !Frees(s, Step(c)) && !s.threads[c].pc.Alloc?
    ensures StepTcp(s, c).slots == s.slots
  {
  }

  lemma LinkComesFromAThread(s: State, c: nat, i: nat)
    requires Enabled(s, Step(c)) && i < |s.slots| == |StepTcp(s, c).slots|
    ensures var link := StepTcp(s, c).slots[i].link; link.None? || link == Some(c) || link == s.slots[i].link
  {
    if !Frees(s, Step(c)) && !s.threads[c].pc.Alloc? {
      SlotsUntouched(s, c);
    }
  }

  lemma LinksStay(s: State, e: Event, i: nat)
    requires Enabled(s, e) && !e.Step? && i < |s.slots| == |Apply(s, e).slots|
    ensures Apply(s, e).slots[i].link == s.slots[i].link && |Apply(s, e).threads| >= |s.threads|
  {
  }

  lemma TcpStepsLeaveUdp(s: State, c: nat)
    requires Enabled(s, Step(c))
    ensures StepTcp(s, c).udp == s.udp && |StepTcp(s, c).threads| == |s.threads|
    ensures |StepTcp(s, c).writeLocks| == |s.writeLocks|
  {
  }

  lemma SlotsStay(s: State, e: Event)
    requires Enabled(s, e)
    ensures |Apply(s, e).slots| == |s.slots|
  {
  }

  lemma SlotLinkStays(s: State, e: Event, i: nat)
    requires Locks(s) && Enabled(s, e) && i < |Apply(s, e).slots|
    ensures SlotLink(Apply(s, e), i)
  {
    SlotsStay(s, e);
    assert SlotLink(s, i);
    if e.Step? {
      TcpStepsLeaveUdp(s, e.c);
      LinkComesFromAThread(s, e.c, i);
    } else {
      LinksStay(s, e, i);
    }
  }

  lemma UdpLocksStay(s: State, e: Event)
    requires Locks(s) && Enabled(s, e)
    ensures var t := Apply(s, e);
            && |t.threads| == |t.writeLocks|
            && (t.stateLock.TcpThread? ==> t.stateLock.c < |t.threads|)
            && (t.stateLock.UdpThread? <==> t.udp.Move? || t.udp.UdpCasting?)
            && (t.udp.WantMove? || t.udp.Move? ==> 0 <= AsUsize(t.udp.pkt.playerId) < |t.slots|)
            && (t.udp.UdpCasting? ==> t.udp.i <= |t.slots|)
  {
    SlotsStay(s, e);
    StateLockMoves(s, e);
    if e.Step? {
      TcpStepsLeaveUdp(s, e.c);
    }
  }

  lemma StepKeepsLocks(s: State, e: Event)
    requires Locks(s) && Enabled(s, e)
    ensures Locks(Apply(s, e))
  {
    var t := Apply(s, e);
    UdpLocksStay(s, e);
    forall c: nat | c < |t.threads| ensures ThreadLocks(t, c) {
      if c >= |s.threads| {
        assert e.Connect?;
      } else if ActsFor(e, c) {
        OwnLocksStay(s, e, c);
      } else {
        ThreadLocksStay(s, e, c);
      }
    }
    forall w: nat | w < |t.threads| ensures WriteLock(t, w) { WriteLockStays(s, e, w); }
    forall i: nat | i < |t.slots| ensures SlotLink(t, i) { SlotLinkStays(s, e, i); }
  }

  lemma {:induction false} RunsKeepLocks(slots: nat, es: seq<Event>)
    requires Run(slots, es).Some?
    ensures Locks(Run(slots, es).value) && |Run(slots, es).value.slots| == slots
  {
    if es != [] {
      var s := Run(slots, es[..|es| - 1]).value;
      RunsKeepLocks(slots, es[..|es| - 1]);
      StepKeepsLocks(s, es[|es| - 1]);
      SlotsStay(s, es[|es| - 1]);
    }
  }

  // ---- No deadlock, and every packet gets finished ------------------------------------

  /** A step that no client has to cause. */
  predicate Internal(e: Event) {
    e.Step? || e.UdpStep?
  }

  predicate Idle(s: State) {
    && s.udp.UdpIdle?
    && forall c :: 0 <= c < |s.threads| ==> s.threads[c].pc.Reading? || s.threads[c].pc.Done?
  }

  /** A thread that waits for a write lock is let through by the lock's owner, which can step. */
  lemma WriteLockOwnerCanStep(s: State, w: nat)
    requires Locks(s) && w < |s.threads| && s.writeLocks[w].TcpThread?
    ensures Enabled(s, Step(s.writeLocks[w].c))
  {
    assert WriteLock(s, w);
    assert ThreadLocks(s, s.writeLocks[w].c);
  }

  lemma StateLockOwnerLetsOneStep(s: State) returns (e: Event)
    requires Locks(s) && !s.stateLock.NoOne?
    ensures Internal(e) && Enabled(s, e)
  {
    if s.stateLock.UdpThread? {
      e := UdpStep;
    } else {
      var c := s.stateLock.c;
      assert ThreadLocks(s, c);
      var pc := s.threads[c].pc;
      if pc.WantWrite? && !s.writeLocks[pc.w].NoOne? {
        assert WriteLock(s, pc.w);
        WriteLockOwnerCanStep(s, pc.w);
        e := Step(s.writeLocks[pc.w].c);
      } else {
        e := Step(c);
      }
    }
  }

  /** The two levels of locks never deadlock: in every state any clients can bring about, if
      some thread is not just waiting for a packet, some thread can step. */
  lemma NoDeadlock(slots: nat, es: seq<Event>) returns (e: Event)
    requires Run(slots, es).Some? && !Idle(Run(slots, es).value)
    ensures Internal(e) && Enabled(Run(slots, es).value, e)
  {
    RunsKeepLocks(slots, es);
    var s := Run(slots, es).value;
    if !s.stateLock.NoOne? {
      e := StateLockOwnerLetsOneStep(s);
    } else if !s.udp.UdpIdle? {
      e := UdpStep;
    } else {
      var c: nat :| c < |s.threads| && !s.threads[c].pc.Reading? && !s.threads[c].pc.Done?;
      assert ThreadLocks(s, c);
      if s.threads[c].pc.WantReply? && !s.writeLocks[c].NoOne? {
        assert WriteLock(s, c);
        WriteLockOwnerCanStep(s, c);
        e := Step(s.writeLocks[c].c);
      } else {
        e := Step(c);
      }
    }
  }

  /** An upper bound on the steps a thread still takes before it waits for a packet again. */
  function Rank(pc: Pc, slots: nat): int {
    match pc
    case Reading => 0
    case Done => 0
    case Final(_) => 1
    case WantFinal(_) => 2
    case Ending => 3
    case Cast(_, i, _) => 4 + 3 * (slots - i)
    case WantWrite(_, i, _, _) => 3 + 3 * (slots - i)
    case Writing(_, i, _, _) => 2 + 3 * (slots - i)
    case WantCast(_, _) => 5 + 3 * slots
    case Reply(_) => 6 + 3 * slots
    case WantReply(_) => 7 + 3 * slots
    case Alloc(_) => 8 + 3 * slots
    case WantAlloc(_) => 9 + 3 * slots
    case Free(_, _) => 6 + 3 * slots
    case WantFree(_, _) => 7 + 3 * slots
  }

  function UdpRank(pc: UdpPc, slots: nat): int {
    match pc
    case UdpIdle => 0
    case UdpCasting(_, i) => 1 + slots - i
    case WantUdpCast(_) => 2 + slots
    case Move(_, _) => 3 + slots
    case WantMove(_, _) => 4 + slots
  }

  function RankOf(slots: nat): Thread -> int {
    (t: Thread) => Rank(t.pc, slots)
  }

  function Work(s: State): int {
    Sum(s.threads, RankOf(|s.slots|)) + UdpRank(s.udp, |s.slots|)
  }

  lemma OwnRankFalls(s: State, c: nat)
    requires Locks(s) && Enabled(s, Step(c))
    ensures Rank(StepTcp(s, c).threads[c].pc, |s.slots|) < Rank(s.threads[c].pc, |s.slots|)
  {
    assert ThreadLocks(s, c);
  }

  lemma TcpStepsUseUpWork(s: State, c: nat)
    requires Locks(s) && Enabled(s, Step(c))
    ensures |StepTcp(s, c).slots| == |s.slots| && Work(StepTcp(s, c)) < Work(s)
  {
    var t := StepTcp(s, c);
    assert t == Apply(s, Step(c));
    SlotsStay(s, Step(c));
    TcpStepsLeaveUdp(s, c);
    forall d: nat | d < |s.threads| && d != c ensures s.threads[d].pc == t.threads[d].pc {
      OthersStandStill(s, Step(c), d);
    }
    OwnRankFalls(s, c);
    SumChange(s.threads, t.threads, c, RankOf(|s.slots|));
  }

  lemma InternalStepsUseUpWork(s: State, e: Event)
    requires Locks(s) && Enabled(s, e) && Internal(e)
    ensures Work(Apply(s, e)) < Work(s)
  {
    SlotsStay(s, e);
    if e.Step? {
      TcpStepsUseUpWork(s, e.c);
    } else {
      assert Apply(s, e).threads == s.threads;
    }
  }

  lemma WorkIsNatural(s: State)
    requires Locks(s)
    ensures Work(s) >= 0
  {
    forall c | 0 <= c < |s.threads| ensures Rank(s.threads[c].pc, |s.slots|) >= 0 {
      assert ThreadLocks(s, c);
    }
    SumNatural(s.threads, RankOf(|s.slots|));
  }

  lemma WorkLeft(slots: nat, es: seq<Event>)
    requires Run(slots, es).Some?
    ensures Work(Run(slots, es).value) >= 0
  {
    RunsKeepLocks(slots, es);
    WorkIsNatural(Run(slots, es).value);
  }

  lemma UsesUpWork(slots: nat, es: seq<Event>, k: nat)
    requires k < |es| && Run(slots, es[..k + 1]).Some? && Internal(es[k])
    ensures Run(slots, es[..k]).Some?
    ensures 1 + Work(Run(slots, es[..k + 1]).value) <= Work(Run(slots, es[..k]).value)
  {
    assert es[..k + 1][..k] == es[..k];
    RunsKeepLocks(slots, es[..k]);
    InternalStepsUseUpWork(Run(slots, es[..k]).value, es[k]);
  }

  lemma {:induction false} SilenceUsesUpWork(slots: nat, es: seq<Event>, k: nat, n: nat)
    requires k <= n <= |es| && Run(slots, es[..n]).Some?
    requires forall i :: k <= i < n ==> Internal(es[i])
    ensures Run(slots, es[..k]).Some?
    ensures n - k + Work(Run(slots, es[..n]).value) <= Work(Run(slots, es[..k]).value)
  {
    if k < n {
      UsesUpWork(slots, es, n - 1);
      SilenceUsesUpWork(slots, es, k, n - 1);
    }
  }

  /** Once the clients fall silent the server takes at most Work(s) more steps, under any
      scheduling; with NoDeadlock, it always gets to the point where every thread is idle. */
  lemma {:induction false} SilenceLeadsToIdle(slots: nat, es: seq<Event>, steps: seq<Event>)
    requires Run(slots, es + steps).Some?
    requires forall i :: 0 <= i < |steps| ==> Internal(steps[i])
    ensures Run(slots, es).Some?
    ensures |steps| + Work(Run(slots, es + steps).value) <= Work(Run(slots, es).value)
    ensures Work(Run(slots, es + steps).value) >= 0
  {
    var all := es + steps;
    assert all[..|es|] == es && all[..|all|] == all;
    WorkLeft(slots, all);
    SilenceUsesUpWork(slots, all, |es|, |all|);
  }

  // ---- Who has which slot -------------------------------------------------------------

  /** Its logout has freed a slot; the id is remembered until the broadcast is over. */
  predicate LoggingOut(pc: Pc) {
    (pc.WantCast? || pc.Cast? || pc.WantWrite? || pc.Writing?) && pc.out
  }

  predicate Holds(t: Thread) {
    t.myId.Some? && !LoggingOut(t.pc) && !t.pc.Done?
  }

  ghost predicate Linked(s: State, c: nat)
    requires c < |s.threads|
  {
    var t := s.threads[c];
    Holds(t) ==> t.myId.value < |s.slots| && s.slots[t.myId.value].link == Some(c)
  }

  ghost predicate Tenant(s: State, i: nat)
    requires i < |s.slots|
  {
    && (s.slots[i].isActive <==> s.slots[i].link.Some?)
    && (s.slots[i].link.Some? ==>
          var c := s.slots[i].link.value;
          c < |s.threads| && Holds(s.threads[c]) && s.threads[c].myId == Some(i))
  }

  /** Slots and threads match: an active slot is linked to a thread that holds it, and a slot
      that a thread holds is linked to that thread. */
  ghost predicate Matched(s: State) {
    && (forall c: nat :: c < |s.threads| ==> Linked(s, c))
    && (forall i: nat :: i < |s.slots| ==> Tenant(s, i))
  }

  /** Thread c is about to get a slot while it still remembers another one. */
  predicate ForgetsSlot(s: State, c: nat)
    requires c < |s.threads|
  {
    s.threads[c].pc.Alloc? && s.threads[c].myId.Some? && LowestFree(s.slots) < |s.slots|
  }

  /** Thread c is about to free a slot it does not remember, and somebody is in it or c
      remembers another one. */
  predicate FreesStrangers(s: State, c: nat)
    requires c < |s.threads|
  {
    var t := s.threads[c];
    t.pc.Free? && t.myId != Some(t.pc.pid) && t.pc.pid < |s.slots| && (s.slots[t.pc.pid].isActive || t.myId.Some?)
  }

  predicate Breaks(s: State, e: Event) {
    e.Step? && e.c < |s.threads| && (ForgetsSlot(s, e.c) || FreesStrangers(s, e.c))
  }

  /** A thread that frees a slot is that slot's tenant, or the slot has none. */
  lemma FreesOnlyItsOwn(s: State, c: nat)
    requires Locks(s) && Matched(s) && Enabled(s, Step(c)) && !Breaks(s, Step(c)) && Frees(s, Step(c))
    ensures var pid := s.threads[c].pc.pid;
            && pid < |s.slots|
            && (if s.threads[c].myId.Some?
                then s.threads[c].myId == Some(pid) && s.slots[pid].link == Some(c) && s.slots[pid].isActive
                else s.threads[c].pc.Free? && s.slots[pid].link == None && !s.slots[pid].isActive)
  {
    assert ThreadLocks(s, c) && Linked(s, c) && Tenant(s, s.threads[c].pc.pid);
  }

  /** What an event does to the link of slot i. */
  lemma LinkMoves(s: State, e: Event, i: nat)
    requires Locks(s) && Matched(s) && Enabled(s, e) && !Breaks(s, e) && i < |s.slots|
    ensures |Apply(s, e).slots| == |s.slots|
    ensures var (was, now) := (s.slots[i], Apply(s, e).slots[i]);
            || (now.link == was.link && now.isActive == was.isActive)
            || (e.Step? && s.threads[e.c].pc.Alloc? && !was.isActive && i == LowestFree(s.slots)
                && now.link == Some(e.c) && now.isActive)
            || (Frees(s, e) && i == s.threads[e.c].pc.pid
                && was.link == Some(e.c) && now.link == None && !now.isActive)
  {
    if Frees(s, e) {
      FreesOnlyItsOwn(s, e.c);
    }
  }

  lemma OthersUntouched(s: State, e: Event, c: nat)
    requires Locks(s) && Matched(s) && Enabled(s, e) && !Breaks(s, e) && c < |s.threads| && !ActsFor(e, c)
    ensures |Apply(s, e).threads| >= |s.threads| && Apply(s, e).threads[c] == s.threads[c]
  {
    if Frees(s, e) {
      FreesOnlyItsOwn(s, e.c);
    } else {
      OthersAreTheSame(s, e, c);
    }
  }

  lemma OthersStayLinked(s: State, e: Event, c: nat)
    requires Locks(s) && Matched(s) && Enabled(s, e) && !Breaks(s, e) && c < |s.threads| && !ActsFor(e, c)
    ensures |Apply(s, e).threads| >= |s.threads| && Linked(Apply(s, e), c)
  {
    assert Linked(s, c);
    OthersUntouched(s, e, c);
    if Holds(s.threads[c]) {
      assert Tenant(s, s.threads[c].myId.value);
      LinkMoves(s, e, s.threads[c].myId.value);
    }
  }

  /** Steps that neither grant nor free leave it open what the thread holds. */
  lemma HoldsStays(s: State, c: nat)
    requires Locks(s) && Enabled(s, Step(c)) && !s.threads[c].pc.Alloc? && !Frees(s, Step(c))
    ensures var (a, b) := (s.threads[c], StepTcp(s, c).threads[c]);
            && (Holds(b) <==> Holds(a)) && (Holds(a) ==> b.myId == a.myId)
            && b.granted == a.granted && b.freedBy == a.freedBy
  {
    assert ThreadLocks(s, c);
  }

  lemma OwnStaysLinked(s: State, e: Event, c: nat)
    requires Locks(s) && Matched(s) && Enabled(s, e) && !Breaks(s, e) && ActsFor(e, c)
    ensures |Apply(s, e).threads| >= |s.threads| && Linked(Apply(s, e), c)
  {
    assert Linked(s, c);
    if Frees(s, e) {
      FreesOnlyItsOwn(s, c);
    } else if e.Step? && !s.threads[c].pc.Alloc? {
      HoldsStays(s, c);
      SlotsUntouched(s, c);
    }
  }

  /** After the acting thread's own move, its slot is still remembered by it alone. */
  lemma OwnSlotStays(s: State, e: Event, i: nat)
    requires Locks(s) && Matched(s) && Enabled(s, e) && !Breaks(s, e) && i < |s.slots|
    requires s.slots[i].link.Some? && ActsFor(e, s.slots[i].link.value)
    ensures |Apply(s, e).slots| == |s.slots| && Tenant(Apply(s, e), i)
  {
    assert Tenant(s, i);
    LinkMoves(s, e, i);
    if Frees(s, e) {
      FreesOnlyItsOwn(s, e.c);
    } else if e.Step? && !s.threads[e.c].pc.Alloc? {
      HoldsStays(s, e.c);
      SlotsUntouched(s, e.c);
    }
  }

  lemma TenantStays(s: State, e: Event, i: nat)
    requires Locks(s) && Matched(s) && Enabled(s, e) && !Breaks(s, e) && i < |s.slots|
    ensures |Apply(s, e).slots| == |s.slots| && Tenant(Apply(s, e), i)
  {
    assert Tenant(s, i);
    LinkMoves(s, e, i);
    if s.slots[i].link.Some? {
      if ActsFor(e, s.slots[i].link.value) {
        OwnSlotStays(s, e, i);
      } else {
        OthersUntouched(s, e, s.slots[i].link.value);
      }
    }
  }

  lemma StepKeepsMatch(s: State, e: Event)
    requires Locks(s) && Matched(s) && Enabled(s, e) && !Breaks(s, e)
    ensures Matched(Apply(s, e))
  {
    var t := Apply(s, e);
    SlotsStay(s, e);
    forall c: nat | c < |t.threads| ensures Linked(t, c) {
      if c >= |s.threads| {
        assert e.Connect?;
      } else if ActsFor(e, c) {
        OwnStaysLinked(s, e, c);
      } else {
        OthersStayLinked(s, e, c);
      }
    }
    forall i: nat | i < |t.slots| ensures Tenant(t, i) { TenantStays(s, e, i); }
  }

  /** The slot it held before stays active, and nobody remembers it. */
  lemma ForgettingUnmatches(s: State, c: nat)
    requires Matched(s) && Enabled(s, Step(c)) && ForgetsSlot(s, c)
    ensures !Matched(StepTcp(s, c))
  {
    var (t, had) := (StepTcp(s, c), s.threads[c].myId.value);
    assert Linked(s, c) && Tenant(s, had);
    assert t.slots[had] == s.slots[had] && t.threads[c].myId == Some(LowestFree(s.slots));
    assert !Tenant(t, had);
  }

  lemma FreeMoves(s: State, c: nat)
    requires Enabled(s, Step(c)) && s.threads[c].pc.Free?
    ensures var (t, pid) := (StepTcp(s, c), s.threads[c].pc.pid);
            && t.slots == s.slots[pid := Vacated(s.slots[pid], None)] && |t.threads| == |s.threads|
            && LoggingOut(t.threads[c].pc)
            && forall d :: 0 <= d < |s.threads| && d != c ==>
                 t.threads[d].pc == s.threads[d].pc && t.threads[d].myId == s.threads[d].myId
  {
  }

  /** Somebody still remembers the slot, or the thread itself forgets the slot that it had. */
  lemma FreeingStrangersUnmatches(s: State, c: nat)
    requires Matched(s) && Enabled(s, Step(c)) && FreesStrangers(s, c)
    ensures !Matched(StepTcp(s, c))
  {
    var (t, pid) := (StepTcp(s, c), s.threads[c].pc.pid);
    FreeMoves(s, c);
    assert Linked(s, c) && Tenant(s, pid);
    if s.threads[c].myId.Some? {
      assert !Tenant(t, s.threads[c].myId.value);
    } else {
      assert !Linked(t, s.slots[pid].link.value);
    }
  }

  /** In every interleaving, whatever the clients send: slots and threads go on matching if and
      only if the step neither seats a thread a second time nor frees a stranger's slot. */
  lemma MatchedIff(s: State, e: Event)
    requires Locks(s) && Matched(s) && Enabled(s, e)
    ensures Matched(Apply(s, e)) <==> !Breaks(s, e)
  {
    if !Breaks(s, e) {
      StepKeepsMatch(s, e);
    } else if ForgetsSlot(s, e.c) {
      ForgettingUnmatches(s, e.c);
    } else {
      FreeingStrangersUnmatches(s, e.c);
    }
  }

  /** Slots and threads match after every event of the run. */
  ghost predicate MatchedThroughout(slots: nat, es: seq<Event>)
    requires Run(slots, es).Some?
  {
    Matched(Run(slots, es).value) && (es != [] ==> MatchedThroughout(slots, es[..|es| - 1]))
  }

  predicate NeverBreaks(slots: nat, es: seq<Event>)
    requires Run(slots, es).Some?
  {
    es != [] ==>
      && NeverBreaks(slots, es[..|es| - 1])
      && !Breaks(Run(slots, es[..|es| - 1]).value, es[|es| - 1])
  }

  /** Every run: slots and threads match throughout if and only if no thread is seated while it
      remembers a slot and none frees a slot of somebody else, or an empty one while it
      remembers its own. */
  lemma {:induction false} RunsMatchIff(slots: nat, es: seq<Event>)
    requires Run(slots, es).Some?
    ensures MatchedThroughout(slots, es) <==> NeverBreaks(slots, es)
  {
    if es != [] {
      var before := es[..|es| - 1];
      RunsMatchIff(slots, before);
      if MatchedThroughout(slots, before) {
        RunsKeepLocks(slots, before);
        MatchedIff(Run(slots, before).value, es[|es| - 1]);
      }
    }
  }

  // ---- How often a slot is granted and freed ---------------------------------------------

  ghost predicate Tenancy(s: State, c: nat)
    requires c < |s.threads|
  {
    var t := s.threads[c];
    && Linked(s, c)
    && (if Holds(t) then t.granted == 1 && t.freedBy == []
        else (t.granted == 0 && t.freedBy == []) || (t.granted == 1 && t.freedBy == [c]))
    && (t.myId.None? && !LoggingOut(t.pc) && !t.pc.Ending? && !t.pc.Done? ==> t.granted == 0)
  }

  ghost predicate Tenants(s: State) {
    && (forall c: nat :: c < |s.threads| ==> Tenancy(s, c))
    && (forall i: nat :: i < |s.slots| ==> Tenant(s, i))
  }

  lemma TenantsMatch(s: State)
    requires Tenants(s)
    ensures Matched(s)
  {
    forall c: nat | c < |s.threads| ensures Linked(s, c) { assert Tenancy(s, c); }
  }

  lemma OwnTenancyEnds(s: State, c: nat)
    requires Locks(s) && Tenants(s) && Enabled(s, Step(c)) && !Breaks(s, Step(c)) && Frees(s, Step(c))
    ensures Tenancy(StepTcp(s, c), c)
  {
    TenantsMatch(s);
    assert Tenancy(s, c);
    OwnStaysLinked(s, Step(c), c);
    FreesOnlyItsOwn(s, c);
    assert [] + [c] == [c];
  }

  lemma OwnTenancyStays(s: State, e: Event, c: nat)
    requires Locks(s) && Tenants(s) && Enabled(s, e) && !Breaks(s, e) && ActsFor(e, c) && !Frees(s, e)
    ensures |Apply(s, e).threads| >= |s.threads| && Tenancy(Apply(s, e), c)
  {
    TenantsMatch(s);
    assert Tenancy(s, c);
    OwnStaysLinked(s, e, c);
    if e.Step? && !s.threads[c].pc.Alloc? {
      HoldsStays(s, c);
    }
  }

  lemma TenancyStays(s: State, e: Event, c: nat)
    requires Locks(s) && Tenants(s) && Enabled(s, e) && !Breaks(s, e) && c < |s.threads|
    ensures |Apply(s, e).threads| >= |s.threads| && Tenancy(Apply(s, e), c)
  {
    if ActsFor(e, c) {
      if Frees(s, e) {
        OwnTenancyEnds(s, c);
      } else {
        OwnTenancyStays(s, e, c);
      }
    } else {
      TenantsMatch(s);
      assert Tenancy(s, c);
      OthersUntouched(s, e, c);
      OthersStayLinked(s, e, c);
    }
  }

  lemma StepKeepsTenants(s: State, e: Event)
    requires Locks(s) && Tenants(s) && Enabled(s, e) && !Breaks(s, e)
    ensures Tenants(Apply(s, e))
  {
    var t := Apply(s, e);
    TenantsMatch(s);
    StepKeepsMatch(s, e);
    forall c: nat | c < |t.threads| ensures Tenancy(t, c) {
      if c < |s.threads| {
        TenancyStays(s, e, c);
      } else {
        assert e.Connect?;
      }
    }
  }

  lemma {:induction false} RunsKeepTenants(slots: nat, es: seq<Event>)
    requires Run(slots, es).Some? && NeverBreaks(slots, es)
    ensures Tenants(Run(slots, es).value)
  {
    if es != [] {
      RunsKeepLocks(slots, es[..|es| - 1]);
      RunsKeepTenants(slots, es[..|es| - 1]);
      StepKeepsTenants(Run(slots, es[..|es| - 1]).value, es[|es| - 1]);
    }
  }

  /** Each tenancy is freed at most once, only by the thread that was granted it, and exactly
      once by the time that thread is done; until then the slot stays that thread's, however
      the broadcasts interleave and even if the slot's next tenant moves in meanwhile. */
  lemma {:induction false} EachTenancyIsFreedOnceByItsOwner(slots: nat, es: seq<Event>, c: nat)
    requires Run(slots, es).Some? && NeverBreaks(slots, es)
    requires c < |Run(slots, es).value.threads|
    ensures var s := Run(slots, es).value;
            var t := s.threads[c];
            && t.granted <= 1
            && (t.freedBy == [] || t.freedBy == [c])
            && |t.freedBy| <= t.granted
            && (t.pc.Done? ==> |t.freedBy| == t.granted)
            && (t.granted == 1 && t.freedBy == [] ==>
                  exists i :: 0 <= i < |s.slots| && s.slots[i].isActive && s.slots[i].link == Some(c))
  {
    RunsKeepTenants(slots, es);
    var s := Run(slots, es).value;
    assert Tenancy(s, c);
    if Holds(s.threads[c]) {
      assert Tenant(s, s.threads[c].myId.value);
    }
  }

  /** No two connections ever share a slot, and an active slot always has a tenant. */
  lemma {:induction false} OneTenantPerSlot(slots: nat, es: seq<Event>, i: nat)
    requires Run(slots, es).Some? && NeverBreaks(slots, es)
    requires i < |Run(slots, es).value.slots| && Run(slots, es).value.slots[i].isActive
    ensures var s := Run(slots, es).value;
            exists c :: 0 <= c < |s.threads| && s.slots[i].link == Some(c) && s.threads[c].myId == Some(i)
              && forall d :: 0 <= d < |s.threads| && d != c && s.threads[d].myId == Some(i) ==>
                               !Holds(s.threads[d])
  {
    RunsKeepTenants(slots, es);
    var s := Run(slots, es).value;
    assert Tenant(s, i);
    var c := s.slots[i].link.value;
    forall d | 0 <= d < |s.threads| && d != c && s.threads[d].myId == Some(i)
      ensures !Holds(s.threads[d])
    {
      assert Tenancy(s, d);
    }
  }

  // ---- Clients that cause no such step ---------------------------------------------------

  /** A connection logs in only while it has no id, and a logout carries its own id or one
      that is no slot. */
  predicate Polite(s: State, e: Event) {
    e.Recv? && e.c < |s.threads| ==>
      && (e.pkt.kind == LOGIN ==> s.threads[e.c].myId.None?)
      && (e.pkt.kind == LOGOUT && 0 <= AsUsize(e.pkt.playerId) < |s.slots| ==>
            s.threads[e.c].myId == Some(AsUsize(e.pkt.playerId)))
  }

  predicate PoliteRun(slots: nat, es: seq<Event>)
    requires Run(slots, es).Some?
  {
    es != [] ==>
      && PoliteRun(slots, es[..|es| - 1])
      && Polite(Run(slots, es[..|es| - 1]).value, es[|es| - 1])
  }

  ghost predicate Intends(t: Thread) {
    && (t.pc.WantAlloc? || t.pc.Alloc? ==> t.myId.None?)
    && (t.pc.WantFree? || t.pc.Free? ==> t.myId == Some(t.pc.pid))
  }

  ghost predicate AllIntend(s: State) {
    forall c :: 0 <= c < |s.threads| ==> Intends(s.threads[c])
  }

  lemma OwnStepIntends(s: State, e: Event, c: nat)
    requires Enabled(s, e) && Polite(s, e) && ActsFor(e, c) && Intends(s.threads[c])
    ensures |Apply(s, e).threads| >= |s.threads| && Intends(Apply(s, e).threads[c])
  {
    if Frees(s, e) {
      FreeingMovesNobody(s, c, s.threads[c].pc.pid, c);
    }
  }

  lemma PoliteStepIntends(s: State, e: Event)
    requires Enabled(s, e) && Polite(s, e) && AllIntend(s)
    ensures AllIntend(Apply(s, e))
  {
    var t := Apply(s, e);
    forall c | 0 <= c < |t.threads| ensures Intends(t.threads[c]) {
      if c >= |s.threads| {
        assert e.Connect?;
      } else if ActsFor(e, c) {
        OwnStepIntends(s, e, c);
      } else {
        OthersStandStill(s, e, c);
      }
    }
  }

  /** Polite clients cause no such step, however the threads interleave. */
  lemma {:induction false} PoliteRunsNeverBreak(slots: nat, es: seq<Event>)
    requires Run(slots, es).Some? && PoliteRun(slots, es)
    ensures NeverBreaks(slots, es) && AllIntend(Run(slots, es).value)
  {
    if es != [] {
      PoliteRunsNeverBreak(slots, es[..|es| - 1]);
      PoliteStepIntends(Run(slots, es[..|es| - 1]).value, es[|es| - 1]);
    }
  }

  // ---- A slot that is lost ---------------------------------------------------------------

  /** Thread c remembers a slot that is active and carries its write half. */
  ghost predicate Occupies(s: State, c: nat) {
    && c < |s.threads| && s.threads[c].myId.Some? && s.threads[c].myId.value < |s.slots|
    && var p := s.slots[s.threads[c].myId.value];
    && p.isActive && p.link == Some(c)
  }

  /** In every interleaving, whatever the clients send: another thread's step takes c's slot away
      if and only if that thread is in free_player with the slot's index. */
  lemma SlotIsLostIff(s: State, e: Event, c: nat)
    requires Enabled(s, e) && Occupies(s, c) && !ActsFor(e, c)
    ensures !Occupies(Apply(s, e), c) <==> Frees(s, e) && Some(s.threads[e.c].pc.pid) == s.threads[c].myId
  {
    OthersStandStill(s, e, c);
    if Frees(s, e) {
      assert Apply(s, e).slots == s.slots[s.threads[e.c].pc.pid := Vacated(s.slots[s.threads[e.c].pc.pid], None)];
    } else if e.Step? && !s.threads[e.c].pc.Alloc? {
      SlotsUntouched(s, e.c);
    }
  }

  /** Politeness is needed: whenever a connection d that is reading sends a logout with the id
      another connection c holds, two steps later c's slot has been freed by d's thread. */
  lemma StrangersLogoutFreesTheSlot(s: State, c: nat, d: nat, pkt: Packet)
    requires Tenants(s) && Locks(s) && s.stateLock.NoOne?
    requires c < |s.threads| && d < |s.threads| && c != d
    requires Holds(s.threads[c]) && s.threads[d].pc.Reading?
    requires pkt.kind == LOGOUT && pkt.playerId >= 0 && s.threads[c].myId == Some(pkt.playerId)
    ensures var a := Apply(s, Recv(d, pkt));
            && Enabled(a, Step(d)) && Enabled(Apply(a, Step(d)), Step(d))
            && var t := Apply(Apply(a, Step(d)), Step(d));
            && |t.threads| == |s.threads| && t.threads[c].freedBy == [d]
            && pkt.playerId < |t.slots| && !t.slots[pkt.playerId].isActive
  {
    assert Tenancy(s, c);
    assert Tenant(s, pkt.playerId);
    var pid := pkt.playerId;
    var a := Apply(s, Recv(d, pkt));
    assert a == SetPc(s, d, WantFree(pid, pkt));
    var b := Apply(a, Step(d));
    assert b == SetPc(a, d, Free(pid, pkt)).(stateLock := TcpThread(d));
    assert b.threads[c] == s.threads[c] && b.slots == s.slots;
    assert FreeSlot(b, d, pid).threads[c].freedBy == [] + [d];
  }
}
