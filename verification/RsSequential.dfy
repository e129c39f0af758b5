/** The Rust game server's threads, left alone: when no other thread steps, the small steps of
    RsThreads add up to the handlers of RsServer, with the same packets to the same
    connections. So the sequential server that Simulation compares with the C one is the
    threaded one, one event at a time. */
module RsSequential {
  import opened Sequences
  import opened GameTable
  import opened RsServer
  import opened RsThreads

  /** What thread c's next step sends. */
  function SentBy(s: State, c: nat): seq<Send<Link>>
    requires c < |s.threads|
  {
    match s.threads[c].pc
    case Reply(pkt) => [ToTcp(Some(c), pkt)]
    case Writing(pkt, _, w, _) => [ToTcp(Some(w), pkt)]
    case _ => []
  }

  datatype Alone = Alone(state: State, sends: seq<Send<Link>>)

  /** n steps of thread c, and of nobody else. */
  function Steps(s: State, c: nat, n: nat): Option<Alone>
    decreases n
  {
    if n == 0 then Some(Alone(s, []))
    else if Enabled(s, Step(c)) then
      var later := Steps(StepTcp(s, c), c, n - 1);
      if later.Some? then Some(Alone(later.value.state, SentBy(s, c) + later.value.sends)) else None
    else None
  }

  ghost predicate Quiet(s: State, c: nat) {
    && c < |s.threads| == |s.writeLocks|
    && (forall w: nat :: w < |s.writeLocks| ==> s.writeLocks[w].NoOne?)
    && (forall i: nat :: i < |s.slots| ==> SlotLink(s, i))
  }

  lemma OneStep(s: State, c: nat, n: nat)
    requires Enabled(s, Step(c)) && Steps(StepTcp(s, c), c, n).Some?
    ensures var later := Steps(StepTcp(s, c), c, n).value;
            Steps(s, c, n + 1) == Some(Alone(later.state, SentBy(s, c) + later.sends))
  {
  }

  /** The end of a broadcast. */
  function CastOver(s: State, c: nat, out: bool): State
    requires c < |s.threads|
  {
    var t := s.threads[c];
    s.(threads := s.threads[c := if out then t.(myId := None, pc := Ending) else t.(pc := Reading)], stateLock := NoOne)
  }

  /** What is left of a broadcast that has come to slot i. */
  function CastFrom(ps: seq<Player<Link>>, pkt: Packet, i: nat): seq<Send<Link>>
    requires i <= |ps|
    decreases |ps| - i
  {
    if i == |ps| then []
    else (if ps[i].isActive && ps[i].link.Some? then [ToTcp(ps[i].link, pkt)] else []) + CastFrom(ps, pkt, i + 1)
  }

  lemma {:induction false} CastFromStart(ps: seq<Player<Link>>, pkt: Packet, i: nat)
    requires i <= |ps|
    ensures TcpCast(ps, pkt, None) == TcpCast(ps[..i], pkt, None) + CastFrom(ps, pkt, i)
    decreases |ps| - i
  {
    if i == |ps| {
      assert ps[..i] == ps;
    } else {
      CastFromStart(ps, pkt, i + 1);
      assert ps[..i + 1][..i] == ps[..i];
      var one := if ps[i].isActive && ps[i].link.Some? then [ToTcp(ps[i].link, pkt)] else [];
      Associative(TcpCast(ps[..i], pkt, None), one, CastFrom(ps, pkt, i + 1));
    }
  }

  lemma StepsToWrite(s: State, c: nat, pkt: Packet, i: nat, out: bool)
    requires c < |s.threads| == |s.writeLocks| && i < |s.slots| && s.threads[c].pc == Cast(pkt, i, out)
    requires s.slots[i].isActive && s.slots[i].link.Some?
    ensures Enabled(s, Step(c)) && StepTcp(s, c) == SetPc(s, c, WantWrite(pkt, i, s.slots[i].link.value, out))
  {
  }

  lemma TakesWriteLock(s: State, c: nat, pkt: Packet, i: nat, w: nat, out: bool)
    requires c < |s.threads| == |s.writeLocks| && w < |s.writeLocks| && s.writeLocks[w].NoOne?
    requires s.threads[c].pc == WantWrite(pkt, i, w, out)
    ensures Enabled(s, Step(c))
    ensures StepTcp(s, c) == SetPc(s, c, Writing(pkt, i, w, out)).(writeLocks := s.writeLocks[w := TcpThread(c)])
  {
  }

  lemma WritesAndReleases(s: State, c: nat, pkt: Packet, i: nat, w: nat, out: bool)
    requires c < |s.threads| == |s.writeLocks| && w < |s.writeLocks|
    requires s.threads[c].pc == Writing(pkt, i, w, out)
    ensures Enabled(s, Step(c)) && SentBy(s, c) == [ToTcp(Some(w), pkt)]
    ensures StepTcp(s, c) == SetPc(s, c, Cast(pkt, i + 1, out)).(writeLocks := s.writeLocks[w := NoOne])
  {
  }

  lemma ThreeSteps(s: State, a: State, b: State, t: State, c: nat, n: nat)
    requires Enabled(s, Step(c)) && StepTcp(s, c) == a && SentBy(s, c) == []
    requires Enabled(a, Step(c)) && StepTcp(a, c) == b && SentBy(a, c) == []
    requires Enabled(b, Step(c)) && StepTcp(b, c) == t && Steps(t, c, n).Some?
    ensures var later := Steps(t, c, n).value;
            Steps(s, c, n + 3) == Some(Alone(later.state, SentBy(b, c) + later.sends))
  {
    OneStep(b, c, n);
    OneStep(a, c, n + 1);
    OneStep(s, c, n + 2);
    var sends := SentBy(b, c) + Steps(t, c, n).value.sends;
    assert [] + sends == sends;
  }

  /** A write to one slot: two lock steps around it. */
  lemma WriteRuns(s: State, c: nat, pkt: Packet, i: nat, out: bool, n: nat)
    requires Quiet(s, c) && i < |s.slots| && s.threads[c].pc == Cast(pkt, i, out)
    requires s.slots[i].isActive && s.slots[i].link.Some?
    requires Steps(SetPc(s, c, Cast(pkt, i + 1, out)), c, n).Some?
    ensures var later := Steps(SetPc(s, c, Cast(pkt, i + 1, out)), c, n).value;
            Steps(s, c, n + 3) == Some(Alone(later.state, [ToTcp(s.slots[i].link, pkt)] + later.sends))
  {
    assert SlotLink(s, i);
    var w := s.slots[i].link.value;
    var t := SetPc(s, c, Cast(pkt, i + 1, out));
    var a := SetPc(s, c, WantWrite(pkt, i, w, out));
    var b := SetPc(s, c, Writing(pkt, i, w, out)).(writeLocks := s.writeLocks[w := TcpThread(c)]);
    StepsToWrite(s, c, pkt, i, out);
    TakesWriteLock(a, c, pkt, i, w, out);
    WritesAndReleases(b, c, pkt, i, w, out);
    assert StepTcp(a, c) == b;
    assert b.writeLocks[w := NoOne] == s.writeLocks && StepTcp(b, c) == t;
    ThreeSteps(s, a, b, t, c, n);
  }

  lemma PassesSlot(s: State, c: nat, pkt: Packet, i: nat, out: bool)
    requires c < |s.threads| == |s.writeLocks| && i < |s.slots| && s.threads[c].pc == Cast(pkt, i, out)
    requires !s.slots[i].isActive || s.slots[i].link.None?
    ensures Enabled(s, Step(c)) && StepTcp(s, c) == SetPc(s, c, Cast(pkt, i + 1, out)) && SentBy(s, c) == []
  {
  }

  /** A step that sends nothing. */
  lemma SilentStep(s: State, t: State, c: nat, n: nat)
    requires Enabled(s, Step(c)) && StepTcp(s, c) == t && SentBy(s, c) == [] && Steps(t, c, n).Some?
    ensures Steps(s, c, n + 1) == Steps(t, c, n)
  {
    OneStep(s, c, n);
    var sends := Steps(t, c, n).value.sends;
    assert [] + sends == sends;
  }

  lemma EndsCast(s: State, c: nat, pkt: Packet, out: bool)
    requires c < |s.threads| == |s.writeLocks| && s.threads[c].pc == Cast(pkt, |s.slots|, out)
    ensures Enabled(s, Step(c)) && StepTcp(s, c) == CastOver(s, c, out) && SentBy(s, c) == []
  {
  }

  lemma MovingOnIsQuiet(s: State, c: nat, pc: Pc)
    requires Quiet(s, c)
    ensures Quiet(SetPc(s, c, pc), c)
  {
    forall k: nat | k < |s.slots| ensures SlotLink(SetPc(s, c, pc), k) { assert SlotLink(s, k); }
  }

  /** One slot of a broadcast, and then the rest of it. */
  lemma SlotRuns(s: State, c: nat, pkt: Packet, i: nat, out: bool, n: nat, end: State) returns (m: nat)
    requires Quiet(s, c) && i < |s.slots| && s.threads[c].pc == Cast(pkt, i, out)
    requires Steps(SetPc(s, c, Cast(pkt, i + 1, out)), c, n) == Some(Alone(end, CastFrom(s.slots, pkt, i + 1)))
    ensures Steps(s, c, m) == Some(Alone(end, CastFrom(s.slots, pkt, i)))
  {
    if s.slots[i].isActive && s.slots[i].link.Some? {
      WriteRuns(s, c, pkt, i, out, n);
      m := n + 3;
    } else {
      PassesSlot(s, c, pkt, i, out);
      SilentStep(s, SetPc(s, c, Cast(pkt, i + 1, out)), c, n);
      assert [] + CastFrom(s.slots, pkt, i + 1) == CastFrom(s.slots, pkt, i + 1);
      m := n + 1;
    }
  }

  /** A broadcast, once it has the state lock, sends to every active slot from i on. */
  lemma {:induction false} CastRuns(s: State, c: nat, pkt: Packet, i: nat, out: bool) returns (n: nat)
    requires Quiet(s, c) && i <= |s.slots| && s.threads[c].pc == Cast(pkt, i, out)
    ensures Steps(s, c, n) == Some(Alone(CastOver(s, c, out), CastFrom(s.slots, pkt, i)))
    decreases |s.slots| - i
  {
    if i == |s.slots| {
      n := 1;
      EndsCast(s, c, pkt, out);
      SilentStep(s, CastOver(s, c, out), c, 0);
    } else {
      MovingOnIsQuiet(s, c, Cast(pkt, i + 1, out));
      n := CastRuns(SetPc(s, c, Cast(pkt, i + 1, out)), c, pkt, i + 1, out);
      assert CastOver(SetPc(s, c, Cast(pkt, i + 1, out)), c, out) == CastOver(s, c, out);
      n := SlotRuns(s, c, pkt, i, out, n, CastOver(s, c, out));
    }
  }

  /** Only this thread's place and the state lock have changed. */
  lemma LocksStayQuiet(s: State, t: State, c: nat)
    requires Quiet(s, c) && t.writeLocks == s.writeLocks && |t.threads| == |s.threads|
    requires |t.slots| == |s.slots|
    requires forall i :: 0 <= i < |s.slots| ==> t.slots[i].link in {s.slots[i].link, Some(c), None}
    ensures Quiet(t, c)
  {
    forall i: nat | i < |t.slots| ensures SlotLink(t, i) { assert SlotLink(s, i); }
  }

  /** A whole broadcast, with its locking. */
  lemma BroadcastRuns(s: State, c: nat, pkt: Packet, out: bool) returns (n: nat)
    requires Quiet(s, c) && s.stateLock.NoOne? && s.threads[c].pc == WantCast(pkt, out)
    ensures Steps(s, c, n) == Some(Alone(CastOver(s, c, out), TcpCast(s.slots, pkt, None)))
  {
    var a := SetPc(s, c, Cast(pkt, 0, out)).(stateLock := TcpThread(c));
    assert Enabled(s, Step(c)) && StepTcp(s, c) == a;
    LocksStayQuiet(s, a, c);
    n := CastRuns(a, c, pkt, 0, out);
    assert CastOver(a, c, out) == CastOver(s, c, out);
    CastFromStart(s.slots, pkt, 0);
    assert TcpCast(s.slots[..0], pkt, None) == [] && [] + CastFrom(s.slots, pkt, 0) == CastFrom(s.slots, pkt, 0);
    SilentStep(s, a, c, n);
    n := n + 1;
  }

  function Granted(ps: seq<Player<Link>>, pkt: Packet): nat {
    if pkt.kind == LOGIN && LowestFree(ps) < |ps| then 1 else 0
  }

  /** The state a packet is over in: its slots, id and what the thread does next as on_tcp says. */
  ghost predicate HandledAs(s: State, r: Alone, c: nat, pkt: Packet)
    requires c < |s.threads|
  {
    var h := OnTcp(s.slots, pkt, c, s.threads[c].myId);
    && r.sends == h.sends && r.state.slots == h.players && r.state.stateLock.NoOne?
    && r.state.writeLocks == s.writeLocks && |r.state.threads| == |s.threads| && r.state.udp == s.udp
    && r.state.threads[c].granted == s.threads[c].granted + Granted(s.slots, pkt)
    && (pkt.kind != LOGOUT ==> r.state.threads[c].freedBy == s.threads[c].freedBy)
    && r.state.threads[c].myId == h.myId
    && r.state.threads[c].pc == (if h.goOn then Reading else Ending)
    && forall d :: 0 <= d < |s.threads| && d != c ==>
         r.state.threads[d].pc == s.threads[d].pc && r.state.threads[d].myId == s.threads[d].myId
  }

  lemma AllocShape(s: State, c: nat, pkt: Packet, id: nat)
    requires c < |s.threads| == |s.writeLocks| && s.threads[c].pc == RsThreads.Alloc(pkt)
    requires id == LowestFree(s.slots) < |s.slots|
    ensures Enabled(s, Step(c))
    ensures var t := s.threads[c];
            StepTcp(s, c) == s.(
              slots := s.slots[id := Seated(s.slots[id], Some(c), pkt.username)],
              threads := s.threads[c := Thread(Some(id), WantReply(pkt.(playerId := id)), t.granted + 1, t.freedBy)],
              stateLock := NoOne)
  {
  }

  /** The reply on the connection's own write half, then the broadcast. */
  lemma ReplyRuns(s: State, c: nat, resp: Packet) returns (n: nat)
    requires Quiet(s, c) && s.stateLock.NoOne? && s.threads[c].pc == WantReply(resp)
    ensures Steps(s, c, n) == Some(Alone(CastOver(s, c, false), [ToTcp(Some(c), resp)] + TcpCast(s.slots, resp, None)))
  {
    var a := SetPc(s, c, Reply(resp)).(writeLocks := s.writeLocks[c := TcpThread(c)]);
    assert Enabled(s, Step(c)) && StepTcp(s, c) == a;
    var b := SetPc(s, c, WantCast(resp, false));
    assert a.writeLocks[c := NoOne] == s.writeLocks;
    assert Enabled(a, Step(c)) && StepTcp(a, c) == b;
    MovingOnIsQuiet(s, c, WantCast(resp, false));
    n := BroadcastRuns(b, c, resp, false);
    assert CastOver(b, c, false) == CastOver(s, c, false);
    OneStep(a, c, n);
    SilentStep(s, a, c, n + 1);
    n := n + 2;
  }

  lemma TakesLockToAlloc(s: State, c: nat, pkt: Packet)
    requires c < |s.threads| == |s.writeLocks| && s.stateLock.NoOne? && s.threads[c].pc == WantAlloc(pkt)
    ensures Enabled(s, Step(c)) && SentBy(s, c) == []
    ensures StepTcp(s, c) == SetPc(s, c, RsThreads.Alloc(pkt)).(stateLock := TcpThread(c))
  {
  }

  lemma RefusedLoginRuns(s: State, c: nat, pkt: Packet) returns (n: nat)
    requires Quiet(s, c) && s.stateLock.NoOne? && s.threads[c].pc == WantAlloc(pkt) && pkt.kind == LOGIN
    requires LowestFree(s.slots) == |s.slots|
    ensures Steps(s, c, n) == Some(Alone(SetPc(s, c, Reading), []))
  {
    var a := SetPc(s, c, RsThreads.Alloc(pkt)).(stateLock := TcpThread(c));
    TakesLockToAlloc(s, c, pkt);
    assert Enabled(a, Step(c)) && StepTcp(a, c) == SetPc(s, c, Reading);
    SilentStep(a, SetPc(s, c, Reading), c, 0);
    SilentStep(s, a, c, 1);
    n := 2;
  }

  /** The state in which thread c has been seated and has yet to reply. */
  function SeatedAt(s: State, c: nat, pkt: Packet, id: nat): State
    requires c < |s.threads| && id < |s.slots|
  {
    var t := s.threads[c];
    s.(slots := s.slots[id := Seated(s.slots[id], Some(c), pkt.username)],
       threads := s.threads[c := Thread(Some(id), WantReply(pkt.(playerId := id)), t.granted + 1, t.freedBy)])
  }

  lemma SeatedIsQuiet(s: State, c: nat, pkt: Packet, id: nat)
    requires Quiet(s, c) && id < |s.slots|
    ensures Quiet(SeatedAt(s, c, pkt, id), c)
  {
    LocksStayQuiet(s, SeatedAt(s, c, pkt, id), c);
  }

  lemma GrantedLoginRuns(s: State, c: nat, pkt: Packet, id: nat) returns (n: nat)
    requires Quiet(s, c) && s.stateLock.NoOne? && s.threads[c].pc == WantAlloc(pkt) && pkt.kind == LOGIN
    requires id == LowestFree(s.slots) < |s.slots|
    ensures var b := SeatedAt(s, c, pkt, id);
            var resp := pkt.(playerId := id);
            Steps(s, c, n) == Some(Alone(CastOver(b, c, false), [ToTcp(Some(c), resp)] + TcpCast(b.slots, resp, None)))
  {
    var a := SetPc(s, c, RsThreads.Alloc(pkt)).(stateLock := TcpThread(c));
    TakesLockToAlloc(s, c, pkt);
    var b := SeatedAt(s, c, pkt, id);
    AllocShape(a, c, pkt, id);
    SeatedIsQuiet(s, c, pkt, id);
    n := ReplyRuns(b, c, pkt.(playerId := id));
    SilentStep(a, b, c, n);
    SilentStep(s, a, c, n + 1);
    n := n + 2;
  }

  lemma LoginRuns(s: State, c: nat, pkt: Packet) returns (n: nat)
    requires Quiet(s, c) && s.stateLock.NoOne? && s.threads[c].pc == WantAlloc(pkt) && pkt.kind == LOGIN
    ensures Steps(s, c, n).Some? && HandledAs(s, Steps(s, c, n).value, c, pkt)
  {
    if LowestFree(s.slots) == |s.slots| {
      n := RefusedLoginRuns(s, c, pkt);
    } else {
      n := GrantedLoginRuns(s, c, pkt, LowestFree(s.slots));
    }
  }

  lemma FreeShape(s: State, c: nat, pkt: Packet, pid: nat)
    requires c < |s.threads| == |s.writeLocks| && s.threads[c].pc == RsThreads.Free(pid, pkt) && pid < |s.slots|
    ensures Enabled(s, Step(c)) && SentBy(s, c) == []
    ensures var t := SetPc(FreeSlot(s, c, pid), c, WantCast(pkt, true)).(stateLock := NoOne);
            && StepTcp(s, c) == t && t.slots == s.slots[pid := Vacated(s.slots[pid], None)]
            && |t.threads| == |s.threads| && t.writeLocks == s.writeLocks && t.udp == s.udp
            && t.threads[c].pc == WantCast(pkt, true)
            && forall d :: 0 <= d < |s.threads| && d != c ==>
                 t.threads[d].pc == s.threads[d].pc && t.threads[d].myId == s.threads[d].myId
  {
  }

  /** The state in which the slot has been freed and the broadcast is about to begin. */
  function FreedAt(s: State, c: nat, pkt: Packet, pid: nat): State
    requires c < |s.threads| && pid < |s.slots|
  {
    SetPc(FreeSlot(s, c, pid), c, WantCast(pkt, true)).(stateLock := NoOne)
  }

  lemma FreeRuns(s: State, c: nat, pkt: Packet, pid: nat) returns (n: nat)
    requires Quiet(s, c) && s.stateLock.NoOne? && s.threads[c].pc == WantFree(pid, pkt) && pid < |s.slots|
    ensures var b := FreedAt(SetPc(s, c, RsThreads.Free(pid, pkt)), c, pkt, pid);
            Steps(s, c, n) == Some(Alone(CastOver(b, c, true), TcpCast(b.slots, pkt, None)))
  {
    var a := SetPc(s, c, RsThreads.Free(pid, pkt)).(stateLock := TcpThread(c));
    assert Enabled(s, Step(c)) && StepTcp(s, c) == a;
    FreeShape(a, c, pkt, pid);
    var b := FreedAt(SetPc(s, c, RsThreads.Free(pid, pkt)), c, pkt, pid);
    assert StepTcp(a, c) == b;
    LocksStayQuiet(s, b, c);
    n := BroadcastRuns(b, c, pkt, true);
    SilentStep(a, b, c, n);
    SilentStep(s, a, c, n + 1);
    n := n + 2;
  }

  lemma LogoutRuns(s: State, c: nat, pkt: Packet, pid: nat) returns (n: nat)
    requires Quiet(s, c) && s.stateLock.NoOne? && s.threads[c].pc == WantFree(pid, pkt)
    requires pkt.kind == LOGOUT && pid == AsUsize(pkt.playerId) < |s.slots|
    ensures Steps(s, c, n).Some? && HandledAs(s, Steps(s, c, n).value, c, pkt)
  {
    n := FreeRuns(s, c, pkt, pid);
    FreeShape(SetPc(s, c, RsThreads.Free(pid, pkt)).(stateLock := TcpThread(c)), c, pkt, pid);
  }

  /** A packet no other thread interferes with is handled exactly as on_tcp read on its own:
      the same slots, the same packets to the same connections in the same order, the same
      remembered id, and the same decision whether to go on. */
  lemma UninterruptedIsOnTcp(s: State, c: nat, pkt: Packet) returns (n: nat)
    requires Quiet(s, c) && s.stateLock.NoOne? && s.threads[c].pc.Reading?
    ensures Steps(Apply(s, Recv(c, pkt)), c, n).Some?
    ensures HandledAs(s, Steps(Apply(s, Recv(c, pkt)), c, n).value, c, pkt)
  {
    var pc := Dispatch(s, pkt);
    var a := SetPc(s, c, pc);
    assert a == Apply(s, Recv(c, pkt));
    MovingOnIsQuiet(s, c, pc);
    n := 0;
    if pc.WantAlloc? {
      n := LoginRuns(a, c, pkt);
    } else if pc.WantFree? {
      n := LogoutRuns(a, c, pkt, pc.pid);
    } else if pc.WantCast? {
      n := BroadcastRuns(a, c, pkt, false);
    }
  }

  /** Whatever packet connection d sends, another connection's slot survives it if and only if it
      is not a logout with that slot's id. */
  lemma SlotSurvivesPacketIff(s: State, c: nat, d: nat, pkt: Packet) returns (n: nat)
    requires Quiet(s, d) && s.stateLock.NoOne? && s.threads[d].pc.Reading?
    requires Occupies(s, c) && c != d
    ensures Steps(Apply(s, Recv(d, pkt)), d, n).Some?
    ensures Occupies(Steps(Apply(s, Recv(d, pkt)), d, n).value.state, c)
            <==> !(pkt.kind == LOGOUT && AsUsize(pkt.playerId) == s.threads[c].myId.value)
  {
    n := UninterruptedIsOnTcp(s, d, pkt);
    var t := Steps(Apply(s, Recv(d, pkt)), d, n).value.state;
    assert t.threads[c].myId == s.threads[c].myId;
  }

  /** A granted login of a connection that remembers a slot. */
  predicate SecondSeat(s: State, c: nat, pkt: Packet)
    requires c < |s.threads|
  {
    pkt.kind == LOGIN && s.threads[c].myId.Some? && LowestFree(s.slots) < |s.slots|
  }

  /** A logout with the id of a slot the connection does not remember, when somebody is in that
      slot or the connection remembers another one. */
  predicate StrangersLogout(s: State, c: nat, pkt: Packet)
    requires c < |s.threads|
  {
    var (pid, id) := (AsUsize(pkt.playerId), s.threads[c].myId);
    pkt.kind == LOGOUT && 0 <= pid < |s.slots| && id != Some(pid) && (s.slots[pid].isActive || id.Some?)
  }

  /** The place and the id of a thread that does not act. */
  ghost predicate OthersAsBefore(s: State, t: State, c: nat) {
    |t.threads| == |s.threads| && forall d :: 0 <= d < |s.threads| && d != c ==>
      t.threads[d].pc == s.threads[d].pc && t.threads[d].myId == s.threads[d].myId
  }

  lemma LoginMatchesIff(s: State, t: State, c: nat, id: nat, name: Name)
    requires Matched(s) && c < |s.threads| && s.threads[c].pc.Reading? && OthersAsBefore(s, t, c)
    requires id == LowestFree(s.slots) < |s.slots| && t.slots == s.slots[id := Seated(s.slots[id], Some(c), name)]
    requires t.threads[c].myId == Some(id) && t.threads[c].pc.Reading?
    ensures Matched(t) <==> s.threads[c].myId.None?
  {
    assert Linked(s, c) && Tenant(s, id);
    if s.threads[c].myId.Some? {
      assert Tenant(s, s.threads[c].myId.value) && !Tenant(t, s.threads[c].myId.value);
    } else {
      forall d: nat | d < |t.threads| ensures Linked(t, d) {
        assert Linked(s, d);
        if Holds(s.threads[d]) { assert Tenant(s, s.threads[d].myId.value); }
      }
      forall i: nat | i < |t.slots| ensures Tenant(t, i) { assert Tenant(s, i); }
    }
  }

  lemma LogoutMatchesIff(s: State, t: State, c: nat, pid: nat)
    requires Matched(s) && c < |s.threads| && s.threads[c].pc.Reading? && OthersAsBefore(s, t, c)
    requires pid < |s.slots| && t.slots == s.slots[pid := Vacated(s.slots[pid], None)]
    requires t.threads[c].myId.None? && t.threads[c].pc.Ending?
    ensures Matched(t) <==> s.threads[c].myId == Some(pid) || (!s.slots[pid].isActive && s.threads[c].myId.None?)
  {
    assert Linked(s, c) && Tenant(s, pid);
    var id := s.threads[c].myId;
    if id.Some? && id.value != pid {
      assert !Tenant(t, id.value);
    } else if id.None? && s.slots[pid].isActive {
      assert !Linked(t, s.slots[pid].link.value);
    } else {
      forall d: nat | d < |t.threads| ensures Linked(t, d) {
        assert Linked(s, d);
        if Holds(s.threads[d]) { assert Tenant(s, s.threads[d].myId.value); }
      }
      forall i: nat | i < |t.slots| ensures Tenant(t, i) { assert Tenant(s, i); }
    }
  }

  lemma SameStillMatches(s: State, t: State, c: nat)
    requires Matched(s) && c < |s.threads| && s.threads[c].pc.Reading? && OthersAsBefore(s, t, c)
    requires t.slots == s.slots && t.threads[c].myId == s.threads[c].myId
    requires t.threads[c].pc.Reading? || t.threads[c].pc.Ending?
    ensures Matched(t)
  {
    forall d: nat | d < |t.threads| ensures Linked(t, d) { assert Linked(s, d); }
    forall i: nat | i < |t.slots| ensures Tenant(t, i) { assert Tenant(s, i); }
  }

  /** Once a packet has been handled alone, slots and threads still match if and only if it was
      neither of these. */
  lemma PacketKeepsMatchIff(s: State, c: nat, pkt: Packet) returns (n: nat)
    requires Quiet(s, c) && s.stateLock.NoOne? && s.threads[c].pc.Reading? && Matched(s)
    ensures Steps(Apply(s, Recv(c, pkt)), c, n).Some?
    ensures Matched(Steps(Apply(s, Recv(c, pkt)), c, n).value.state)
            <==> !SecondSeat(s, c, pkt) && !StrangersLogout(s, c, pkt)
  {
    n := UninterruptedIsOnTcp(s, c, pkt);
    var t := Steps(Apply(s, Recv(c, pkt)), c, n).value.state;
    var pid := AsUsize(pkt.playerId);
    assert OthersAsBefore(s, t, c);
    if pkt.kind == LOGIN && LowestFree(s.slots) < |s.slots| {
      LoginMatchesIff(s, t, c, LowestFree(s.slots), pkt.username);
    } else if pkt.kind == LOGOUT && 0 <= pid < |s.slots| {
      LogoutMatchesIff(s, t, c, pid);
    } else {
      SameStillMatches(s, t, c);
    }
  }

  /** The state in which thread c is done and slot id, if any, is free. */
  ghost predicate EndedAs(s: State, r: Alone, c: nat)
    requires c < |s.threads|
  {
    var id := s.threads[c].myId;
    && r.sends == [] && r.state.stateLock.NoOne? && r.state.writeLocks == s.writeLocks && r.state.udp == s.udp
    && |r.state.threads| == |s.threads| && r.state.threads[c].pc.Done?
    && r.state.slots == (if id.Some? && id.value < |s.slots|
                         then s.slots[id.value := Vacated(s.slots[id.value], None)] else s.slots)
    && r.state.threads[c].granted == s.threads[c].granted
    && (id.Some? && id.value < |s.slots| && s.slots[id.value].link == Some(c) ==>
          r.state.threads[c].freedBy == s.threads[c].freedBy + [c])
    && forall d :: 0 <= d < |s.threads| && d != c ==>
         r.state.threads[d].pc == s.threads[d].pc && r.state.threads[d].myId == s.threads[d].myId
  }

  /** The end of a connection's thread: the slot it still remembers is given back. */
  lemma EndGivesSlotBack(s: State, c: nat) returns (n: nat)
    requires c < |s.threads| == |s.writeLocks| && s.stateLock.NoOne? && s.threads[c].pc.Ending?
    requires s.threads[c].myId.Some? ==> s.threads[c].myId.value < |s.slots|
    ensures Steps(s, c, n).Some? && EndedAs(s, Steps(s, c, n).value, c)
  {
    var a := StepTcp(s, c);
    if s.threads[c].myId.None? {
      SilentStep(s, a, c, 0);
      n := 1;
    } else {
      var b := StepTcp(a, c);
      var t := StepTcp(b, c);
      SilentStep(b, t, c, 0);
      SilentStep(a, b, c, 1);
      SilentStep(s, a, c, 2);
      n := 3;
    }
  }

  // ---- The UDP thread -----------------------------------------------------------------

  /** What the UDP thread's next step sends. */
  function UdpSentBy(s: State): seq<Send<Link>> {
    match s.udp
    case UdpCasting(pkt, i) =>
      if i < |s.slots| && s.slots[i].isActive && s.slots[i].udpAddr.Some? then [ToUdp(s.slots[i].udpAddr.value, pkt)]
      else []
    case _ => []
  }

  /** n steps of the UDP thread, and of nobody else. */
  function UdpSteps(s: State, n: nat): Option<Alone>
    decreases n
  {
    if n == 0 then Some(Alone(s, []))
    else if Enabled(s, UdpStep) then
      var later := UdpSteps(StepUdp(s), n - 1);
      if later.Some? then Some(Alone(later.value.state, UdpSentBy(s) + later.value.sends)) else None
    else None
  }

  lemma OneUdpStep(s: State, t: State, n: nat)
    requires Enabled(s, UdpStep) && StepUdp(s) == t && UdpSteps(t, n).Some?
    ensures var later := UdpSteps(t, n).value;
            UdpSteps(s, n + 1) == Some(Alone(later.state, UdpSentBy(s) + later.sends))
  {
  }

  lemma SilentUdpStep(s: State, t: State, n: nat)
    requires Enabled(s, UdpStep) && StepUdp(s) == t && UdpSentBy(s) == [] && UdpSteps(t, n).Some?
    ensures UdpSteps(s, n + 1) == UdpSteps(t, n)
  {
    OneUdpStep(s, t, n);
    var sends := UdpSteps(t, n).value.sends;
    assert [] + sends == sends;
  }

  /** What is left of a UDP broadcast that has come to slot i. */
  function UdpCastFrom(ps: seq<Player<Link>>, pkt: Packet, i: nat): seq<Send<Link>>
    requires i <= |ps|
    decreases |ps| - i
  {
    if i == |ps| then []
    else
      (if ps[i].isActive && ps[i].udpAddr.Some? then [ToUdp(ps[i].udpAddr.value, pkt)] else [])
      + UdpCastFrom(ps, pkt, i + 1)
  }

  lemma {:induction false} UdpCastFromStart(ps: seq<Player<Link>>, pkt: Packet, i: nat)
    requires i <= |ps|
    ensures UdpCast(ps, pkt) == UdpCast(ps[..i], pkt) + UdpCastFrom(ps, pkt, i)
    decreases |ps| - i
  {
    if i == |ps| {
      assert ps[..i] == ps;
    } else {
      UdpCastFromStart(ps, pkt, i + 1);
      assert ps[..i + 1][..i] == ps[..i];
      var one: seq<Send<Link>> :=
        if ps[i].isActive && ps[i].udpAddr.Some? then [ToUdp(ps[i].udpAddr.value, pkt)] else [];
      Associative(UdpCast<Link>(ps[..i], pkt), one, UdpCastFrom(ps, pkt, i + 1));
    }
  }

  lemma {:induction false} UdpCastRuns(s: State, pkt: Packet, i: nat) returns (n: nat)
    requires i <= |s.slots| && s.udp == UdpCasting(pkt, i)
    ensures UdpSteps(s, n) == Some(Alone(s.(udp := UdpIdle, stateLock := NoOne), UdpCastFrom(s.slots, pkt, i)))
    decreases |s.slots| - i
  {
    if i == |s.slots| {
      var t := s.(udp := UdpIdle, stateLock := NoOne);
      SilentUdpStep(s, t, 0);
      n := 1;
    } else {
      var t := s.(udp := UdpCasting(pkt, i + 1));
      n := UdpCastRuns(t, pkt, i + 1);
      OneUdpStep(s, t, n);
      n := n + 1;
    }
  }

  lemma MovedRuns(s: State, pkt: Packet) returns (n: nat)
    requires s.stateLock.NoOne? && s.udp == WantUdpCast(pkt)
    ensures UdpSteps(s, n) == Some(Alone(s.(udp := UdpIdle), UdpCast(s.slots, pkt)))
  {
    var a := s.(udp := UdpCasting(pkt, 0), stateLock := UdpThread);
    n := UdpCastRuns(a, pkt, 0);
    UdpCastFromStart(s.slots, pkt, 0);
    assert UdpCast<Link>(s.slots[..0], pkt) == [] && [] + UdpCastFrom(s.slots, pkt, 0) == UdpCastFrom(s.slots, pkt, 0);
    SilentUdpStep(s, a, n);
    n := n + 1;
  }

  /** A datagram no other thread interferes with is handled exactly as on_udp read on its own. */
  lemma UninterruptedIsOnUdp(s: State, pkt: Packet, src: Address) returns (n: nat)
    requires s.stateLock.NoOne? && s.udp.UdpIdle?
    ensures var effect := OnUdpUsize(s.slots, pkt, src);
            UdpSteps(Apply(s, UdpRecv(pkt, src)), n) == Some(Alone(s.(slots := effect.players), effect.sends))
  {
    var pid := AsUsize(pkt.playerId);
    n := 0;
    if 0 <= pid < |s.slots| {
      var a := s.(udp := WantMove(pkt, src));
      var b := s.(udp := RsThreads.Move(pkt, src), stateLock := UdpThread);
      if s.slots[pid].isActive {
        var moved := s.(udp := WantUdpCast(pkt), slots := OnUdpUsize(s.slots, pkt, src).players);
        n := MovedRuns(moved, pkt);
        SilentUdpStep(b, moved, n);
      } else {
        SilentUdpStep(b, s, 0);
      }
      n := n + 1;
      SilentUdpStep(a, b, n);
      n := n + 1;
    }
  }
}
