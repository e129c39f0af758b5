/** The order of TCP broadcasts in the Rust game server: broadcast_tcp holds the state lock for
    its whole loop, so in every interleaving the broadcasts have one global order, and each
    player hears one contiguous piece of it. */
module RsOrder {
  import opened Sequences
  import opened GameTable
  import opened RsThreads

  /** What one connection has been sent by broadcasts, and how long the log was when it was given
      its slot and when it lost it. */
  datatype Stream = Stream(heard: seq<Packet>, joined: nat, left: nat)

  /** A run's history: the broadcasts in the order they took the state lock, and one stream for
      each connection. */
  datatype Hist = Hist(log: seq<Packet>, streams: seq<Stream>)

  function SetStream(h: Hist, c: nat, s: Stream): Hist {
    if c < |h.streams| then h.(streams := h.streams[c := s]) else h
  }

  /** The tenant of slot pid, if any, loses it. */
  function Leave(s: State, h: Hist, pid: nat): Hist {
    if pid < |s.slots| && s.slots[pid].link.Some? && s.slots[pid].link.value < |h.streams| then
      var c := s.slots[pid].link.value;
      SetStream(h, c, h.streams[c].(left := |h.log|))
    else h
  }

  /** What thread c's next step adds to the history. */
  function RecordedStep(s: State, h: Hist, c: nat): Hist
    requires c < |s.threads| == |h.streams|
  {
    match s.threads[c].pc
    case Alloc(_) => if LowestFree(s.slots) < |s.slots| then SetStream(h, c, h.streams[c].(joined := |h.log|)) else h
    case WantCast(pkt, _) => h.(log := h.log + [pkt])
    case Writing(pkt, _, w, _) =>
      if w < |h.streams| then SetStream(h, w, h.streams[w].(heard := h.streams[w].heard + [pkt])) else h
    case Free(pid, _) => Leave(s, h, pid)
    case Final(pid) => Leave(s, h, pid)
    case _ => h
  }

  function Recorded(s: State, h: Hist, e: Event): Hist {
    if e.Connect? then h.(streams := h.streams + [Stream([], 0, 0)])
    else if e.Step? && e.c < |s.threads| == |h.streams| then RecordedStep(s, h, e.c)
    else h
  }

  function History(slots: nat, es: seq<Event>): Hist {
    if es == [] then Hist([], [])
    else
      var before := Run(slots, es[..|es| - 1]);
      var h := History(slots, es[..|es| - 1]);
      if before.Some? then Recorded(before.value, h, es[|es| - 1]) else h
  }

  // ---- Where the broadcast under way has got to -----------------------------------------

  predicate IsCast(pc: Pc) {
    pc.Cast? || pc.WantWrite? || pc.Writing?
  }

  predicate InCast(s: State) {
    s.stateLock.TcpThread? && s.stateLock.c < |s.threads| && IsCast(s.threads[s.stateLock.c].pc)
  }

  /** How many broadcasts the tenant of slot i has been through. */
  function Served(s: State, h: Hist, i: nat): int {
    if InCast(s) && s.threads[s.stateLock.c].pc.i <= i then |h.log| - 1 else |h.log|
  }

  /** The broadcasts the tenant of slot i has been through. */
  function Due(s: State, h: Hist, i: nat): seq<Packet> {
    if Served(s, h, i) < 0 then [] else h.log[..Served(s, h, i)]
  }

  /** The broadcast under way is the last of the log, and a write goes to the slot's tenant. */
  ghost predicate CastOk(s: State, h: Hist) {
    InCast(s) ==>
      var pc := s.threads[s.stateLock.c].pc;
      && h.log != [] && h.log[|h.log| - 1] == pc.pkt
      && (pc.WantWrite? || pc.Writing? ==>
            pc.i < |s.slots| && s.slots[pc.i].isActive && s.slots[pc.i].link == Some(pc.w))
  }

  ghost predicate IsPiece(st: Stream, log: seq<Packet>) {
    st.joined <= |log| && st.heard == log[st.joined..]
  }

  ghost predicate StreamOk(s: State, h: Hist, c: nat)
    requires c < |s.threads| == |h.streams|
  {
    var (t, st) := (s.threads[c], h.streams[c]);
    if Holds(t) then IsPiece(st, Due(s, h, t.myId.value))
    else if t.granted == 0 then st.heard == []
    else st.left <= |h.log| && IsPiece(st, h.log[..st.left])
  }

  ghost predicate Order(s: State, h: Hist) {
    && |s.threads| == |h.streams| && CastOk(s, h)
    && forall c: nat :: c < |s.threads| ==> StreamOk(s, h, c)
  }

  ghost predicate Sound(s: State, h: Hist) {
    Locks(s) && Tenants(s) && Order(s, h)
  }

  // ---- Steps ----------------------------------------------------------------------------

  /** A thread that starts or ends a broadcast, or changes the table, holds the lock itself. */
  lemma OnlyTheCasterCasts(s: State, c: nat)
    requires Locks(s) && c < |s.threads| && InCast(s)
    ensures HoldsState(s.threads[c].pc) ==> s.stateLock == TcpThread(c)
  {
    assert ThreadLocks(s, c);
  }

  /** Steps of other threads leave a broadcast under way where it is. */
  lemma CastUndisturbed(s: State, e: Event)
    requires Locks(s) && Tenants(s) && Enabled(s, e) && !Breaks(s, e) && InCast(s) && !ActsFor(e, s.stateLock.c)
    ensures var t := Apply(s, e);
            && t.stateLock == s.stateLock && s.stateLock.c < |t.threads|
            && t.threads[s.stateLock.c] == s.threads[s.stateLock.c] && |t.slots| == |s.slots|
            && forall i :: 0 <= i < |s.slots| ==>
                 t.slots[i].link == s.slots[i].link && t.slots[i].isActive == s.slots[i].isActive
  {
    TenantsMatch(s);
    OthersUntouched(s, e, s.stateLock.c);
    SlotsStay(s, e);
    StateLockMoves(s, e);
    if e.Step? {
      OnlyTheCasterCasts(s, e.c);
      SlotsUntouched(s, e.c);
    }
  }

  lemma LogStays(s: State, h: Hist, e: Event)
    requires Locks(s) && Enabled(s, e) && InCast(s) && |s.threads| == |h.streams|
    ensures Recorded(s, h, e).log == h.log
  {
    if e.Step? {
      OnlyTheCasterCasts(s, e.c);
      assert ThreadLocks(s, e.c);
    }
  }

  /** A tenant's slot is active, and nobody else's. */
  lemma TenantOf(s: State, i: nat, c: nat)
    requires Tenants(s) && i < |s.slots| && c < |s.threads| && Holds(s.threads[c])
    ensures var id := s.threads[c].myId.value;
            && id < |s.slots| && s.slots[id].link == Some(c) && s.slots[id].isActive && s.threads[c].granted == 1
            && (s.slots[i].link == Some(c) ==> i == id)
  {
    assert Tenancy(s, c);
    assert Tenant(s, s.threads[c].myId.value);
    assert Tenant(s, i);
  }

  /** The caster moves on without writing: every tenant has been through the same as before. */
  lemma CasterMoves(s: State, h: Hist, c: nat, i: nat)
    requires Sound(s, h) && InCast(s) && s.stateLock == TcpThread(c) && Enabled(s, Step(c))
    requires !s.threads[c].pc.Writing? && i < |s.slots| && s.slots[i].link.Some?
    ensures RecordedStep(s, h, c) == h && Due(StepTcp(s, c), h, i) == Due(s, h, i)
  {
    assert Tenant(s, i);
    assert ThreadLocks(s, c);
  }

  lemma CasterStaysOk(s: State, h: Hist, c: nat)
    requires Sound(s, h) && InCast(s) && s.stateLock == TcpThread(c) && Enabled(s, Step(c))
    ensures CastOk(StepTcp(s, c), RecordedStep(s, h, c)) && RecordedStep(s, h, c).log == h.log
  {
    assert ThreadLocks(s, c);
  }

  /** The caster writes to slot k: that slot's tenant has been through one broadcast more, and
      the other tenants have not. */
  lemma CasterWrites(s: State, h: Hist, c: nat, i: nat)
    requires Sound(s, h) && InCast(s) && s.stateLock == TcpThread(c) && Enabled(s, Step(c))
    requires s.threads[c].pc.Writing? && i < |s.slots|
    ensures var (pc, k) := (s.threads[c].pc, RecordedStep(s, h, c));
            Due(StepTcp(s, c), k, i) == Due(s, h, i) + if i == pc.i then [pc.pkt] else []
  {
    CasterStaysOk(s, h, c);
    assert h.log[..|h.log|] == h.log;
    if i == s.threads[c].pc.i {
      assert h.log == h.log[..|h.log| - 1] + [h.log[|h.log| - 1]];
    } else {
      assert Due(s, h, i) + [] == Due(s, h, i);
    }
  }

  /** No broadcast is under way: every tenant has been through all of them. */
  lemma AllServed(s: State, h: Hist, i: nat)
    requires !InCast(s)
    ensures Due(s, h, i) == h.log
  {
  }

  lemma CastBeginsByStep(s: State, h: Hist, c: nat, i: nat)
    requires Sound(s, h) && Enabled(s, Step(c)) && !InCast(s)
    ensures var (t, k) := (StepTcp(s, c), RecordedStep(s, h, c));
            h.log <= k.log && CastOk(t, k) && Due(t, k, i) == h.log
  {
    assert ThreadLocks(s, c);
    StateLockMoves(s, Step(c));
  }

  /** What an event does to the broadcast under way when there was none. */
  lemma CastBegins(s: State, h: Hist, e: Event, i: nat)
    requires Sound(s, h) && Enabled(s, e) && !InCast(s)
    ensures h.log <= Recorded(s, h, e).log && CastOk(Apply(s, e), Recorded(s, h, e))
    ensures Due(Apply(s, e), Recorded(s, h, e), i) == Due(s, h, i) == h.log
  {
    AllServed(s, h, i);
    if e.Step? {
      CastBeginsByStep(s, h, e.c, i);
    } else if s.stateLock.TcpThread? {
      assert ThreadLocks(s, s.stateLock.c);
    }
  }

  /** Every event but a write: the tenants have been through what they had been through. */
  lemma DueStays(s: State, h: Hist, e: Event, i: nat)
    requires Sound(s, h) && Enabled(s, e) && !Breaks(s, e) && i < |s.slots| && s.slots[i].link.Some?
    requires !(e.Step? && s.threads[e.c].pc.Writing?)
    ensures Due(Apply(s, e), Recorded(s, h, e), i) == Due(s, h, i)
  {
    if !InCast(s) {
      CastBegins(s, h, e, i);
    } else if e.Step? && s.stateLock == TcpThread(e.c) {
      CasterMoves(s, h, e.c, i);
    } else {
      assert ThreadLocks(s, s.stateLock.c);
      CastUndisturbed(s, e);
      LogStays(s, h, e);
    }
  }

  lemma CastStaysOk(s: State, h: Hist, e: Event)
    requires Sound(s, h) && Enabled(s, e) && !Breaks(s, e)
    ensures CastOk(Apply(s, e), Recorded(s, h, e)) && h.log <= Recorded(s, h, e).log
  {
    if !InCast(s) {
      CastBegins(s, h, e, 0);
    } else if e.Step? && s.stateLock == TcpThread(e.c) {
      CasterStaysOk(s, h, e.c);
    } else {
      assert ThreadLocks(s, s.stateLock.c);
      CastUndisturbed(s, e);
      LogStays(s, h, e);
    }
  }

  /** A stream stays in order when its connection's place and its own record do. */
  lemma StreamCarries(s: State, h: Hist, t: State, k: Hist, c: nat)
    requires c < |s.threads| == |h.streams| && c < |t.threads| == |k.streams| && StreamOk(s, h, c)
    requires Holds(t.threads[c]) <==> Holds(s.threads[c])
    requires Holds(s.threads[c]) ==> t.threads[c].myId == s.threads[c].myId
    requires t.threads[c].granted == s.threads[c].granted && k.streams[c] == h.streams[c] && h.log <= k.log
    requires Holds(s.threads[c]) ==> Due(t, k, s.threads[c].myId.value) == Due(s, h, s.threads[c].myId.value)
    ensures StreamOk(t, k, c)
  {
    var left := h.streams[c].left;
    if left <= |h.log| {
      assert k.log[..left] == h.log[..left];
    }
  }

  lemma OneMoreHeard(s: State, h: Hist, t: State, k: Hist, c: nat, pkt: Packet)
    requires c < |s.threads| == |h.streams| && c < |t.threads| == |k.streams| && StreamOk(s, h, c)
    requires Holds(s.threads[c]) && Holds(t.threads[c]) && t.threads[c].myId == s.threads[c].myId
    requires k.streams[c] == h.streams[c].(heard := h.streams[c].heard + [pkt])
    requires Due(t, k, t.threads[c].myId.value) == Due(s, h, s.threads[c].myId.value) + [pkt]
    ensures StreamOk(t, k, c)
  {
    var due, joined := Due(s, h, s.threads[c].myId.value), h.streams[c].joined;
    assert (due + [pkt])[joined..] == due[joined..] + [pkt];
  }

  /** A write adds the broadcast to the stream of the slot's tenant, and to no other. */
  lemma WriteKeepsStream(s: State, h: Hist, b: nat, c: nat)
    requires Sound(s, h) && Enabled(s, Step(b)) && s.threads[b].pc.Writing? && c < |s.threads|
    ensures var (t, k) := (StepTcp(s, b), RecordedStep(s, h, b));
            c < |t.threads| == |k.streams| && StreamOk(t, k, c)
  {
    assert ThreadLocks(s, b);
    var pc := s.threads[b].pc;
    var (t, k) := (StepTcp(s, b), RecordedStep(s, h, b));
    CasterStaysOk(s, h, b);
    assert Tenant(s, pc.i);
    if Holds(s.threads[c]) {
      TenantOf(s, pc.i, c);
      CasterWrites(s, h, b, s.threads[c].myId.value);
    }
    if c == pc.w {
      OneMoreHeard(s, h, t, k, c, pc.pkt);
    } else {
      StreamCarries(s, h, t, k, c);
    }
  }

  lemma OtherStreamsStay(s: State, h: Hist, e: Event, c: nat)
    requires Sound(s, h) && Enabled(s, e) && !Breaks(s, e) && c < |s.threads| && !ActsFor(e, c)
    requires !(e.Step? && s.threads[e.c].pc.Writing?)
    ensures var k := Recorded(s, h, e); |s.threads| <= |k.streams| && k.streams[c] == h.streams[c]
  {
    if Frees(s, e) {
      TenantsMatch(s);
      FreesOnlyItsOwn(s, e.c);
    }
  }

  lemma OthersKeepStream(s: State, h: Hist, e: Event, c: nat)
    requires Sound(s, h) && Enabled(s, e) && !Breaks(s, e) && c < |s.threads| && !ActsFor(e, c)
    requires !(e.Step? && s.threads[e.c].pc.Writing?)
    requires |Apply(s, e).threads| == |Recorded(s, h, e).streams|
    ensures |s.threads| <= |Apply(s, e).threads| && StreamOk(Apply(s, e), Recorded(s, h, e), c)
  {
    TenantsMatch(s);
    OthersUntouched(s, e, c);
    OtherStreamsStay(s, h, e, c);
    CastStaysOk(s, h, e);
    if Holds(s.threads[c]) {
      assert Tenancy(s, c);
      DueStays(s, h, e, s.threads[c].myId.value);
    }
    StreamCarries(s, h, Apply(s, e), Recorded(s, h, e), c);
  }

  lemma PacketKeepsStream(s: State, h: Hist, e: Event, c: nat)
    requires Sound(s, h) && Enabled(s, e) && !Breaks(s, e) && ActsFor(e, c) && !e.Step?
    ensures StreamOk(Apply(s, e), Recorded(s, h, e), c)
  {
    CastStaysOk(s, h, e);
    if Holds(s.threads[c]) {
      assert Tenancy(s, c);
      DueStays(s, h, e, s.threads[c].myId.value);
    }
    StreamCarries(s, h, Apply(s, e), Recorded(s, h, e), c);
  }

  /** Seated: the newcomer has heard nothing yet, and joins at the end of the log. */
  lemma SeatingStartsStream(s: State, h: Hist, c: nat)
    requires Sound(s, h) && Enabled(s, Step(c)) && !Breaks(s, Step(c)) && s.threads[c].pc.Alloc?
    ensures StreamOk(StepTcp(s, c), RecordedStep(s, h, c), c)
  {
    assert Tenancy(s, c) && ThreadLocks(s, c) && StreamOk(s, h, c);
    CastBegins(s, h, Step(c), LowestFree(s.slots));
    if LowestFree(s.slots) == |s.slots| {
      StreamCarries(s, h, StepTcp(s, c), RecordedStep(s, h, c), c);
    } else {
      assert h.log[|h.log|..] == [];
    }
  }

  /** Freed: the stream ends where the log ends. A thread without a slot frees an empty one. */
  lemma FreeingEndsStream(s: State, h: Hist, c: nat)
    requires Sound(s, h) && Enabled(s, Step(c)) && !Breaks(s, Step(c)) && Frees(s, Step(c))
    ensures StreamOk(StepTcp(s, c), RecordedStep(s, h, c), c)
  {
    TenantsMatch(s);
    FreesOnlyItsOwn(s, c);
    assert Tenancy(s, c) && ThreadLocks(s, c) && StreamOk(s, h, c);
    var pid := s.threads[c].pc.pid;
    AllServed(s, h, pid);
    if s.threads[c].myId.Some? {
      assert h.log[..|h.log|] == h.log;
    }
  }

  lemma OwnStepKeepsStream(s: State, h: Hist, c: nat)
    requires Sound(s, h) && Enabled(s, Step(c))
    requires !s.threads[c].pc.Alloc? && !Frees(s, Step(c)) && !s.threads[c].pc.Writing?
    ensures StreamOk(StepTcp(s, c), RecordedStep(s, h, c), c)
  {
    HoldsStays(s, c);
    CastStaysOk(s, h, Step(c));
    if Holds(s.threads[c]) {
      assert Tenancy(s, c);
      DueStays(s, h, Step(c), s.threads[c].myId.value);
    }
    StreamCarries(s, h, StepTcp(s, c), RecordedStep(s, h, c), c);
  }

  lemma StreamsMatchThreads(s: State, h: Hist, e: Event)
    requires Enabled(s, e) && |s.threads| == |h.streams|
    ensures |Apply(s, e).threads| == |Recorded(s, h, e).streams| >= |s.threads|
  {
    if e.Step? {
      TcpStepsLeaveUdp(s, e.c);
    }
  }

  lemma KeepsStream(s: State, h: Hist, e: Event, c: nat)
    requires Sound(s, h) && Enabled(s, e) && !Breaks(s, e) && c < |s.threads|
    ensures c < |Apply(s, e).threads| == |Recorded(s, h, e).streams|
    ensures StreamOk(Apply(s, e), Recorded(s, h, e), c)
  {
    StreamsMatchThreads(s, h, e);
    if e.Step? && s.threads[e.c].pc.Writing? {
      WriteKeepsStream(s, h, e.c, c);
    } else if !ActsFor(e, c) {
      OthersKeepStream(s, h, e, c);
    } else if !e.Step? {
      PacketKeepsStream(s, h, e, c);
    } else if s.threads[c].pc.Alloc? {
      SeatingStartsStream(s, h, c);
    } else if Frees(s, e) {
      FreeingEndsStream(s, h, c);
    } else {
      OwnStepKeepsStream(s, h, c);
    }
  }

  lemma StepKeepsOrder(s: State, h: Hist, e: Event)
    requires Sound(s, h) && Enabled(s, e) && !Breaks(s, e)
    ensures Sound(Apply(s, e), Recorded(s, h, e))
  {
    var (t, k) := (Apply(s, e), Recorded(s, h, e));
    StepKeepsLocks(s, e);
    StepKeepsTenants(s, e);
    StreamsMatchThreads(s, h, e);
    CastStaysOk(s, h, e);
    forall c: nat | c < |t.threads| ensures StreamOk(t, k, c) {
      if c < |s.threads| {
        KeepsStream(s, h, e, c);
      }
    }
  }

  // ---- Whole runs -----------------------------------------------------------------------

  lemma {:induction false} RunsKeepOrder(slots: nat, es: seq<Event>)
    requires Run(slots, es).Some? && NeverBreaks(slots, es)
    ensures Sound(Run(slots, es).value, History(slots, es))
  {
    if es != [] {
      RunsKeepOrder(slots, es[..|es| - 1]);
      StepKeepsOrder(Run(slots, es[..|es| - 1]).value, History(slots, es[..|es| - 1]), es[|es| - 1]);
    }
  }

  /** How far into the log connection c has been served. */
  function Heard(s: State, h: Hist, c: nat): int
    requires c < |s.threads| == |h.streams|
  {
    if Holds(s.threads[c]) then Served(s, h, s.threads[c].myId.value) else h.streams[c].left
  }

  /** c has been sent the contiguous piece of the log from its seating to Heard. While it holds
      its slot that is the log's end, or one broadcast is still on its way to it. */
  ghost predicate HearsOneSegment(s: State, h: Hist, c: nat)
    requires c < |s.threads| == |h.streams|
  {
    var st := h.streams[c];
    && st.joined <= Heard(s, h, c) <= |h.log|
    && st.heard == h.log[st.joined..Heard(s, h, c)]
    && (Holds(s.threads[c]) ==> Heard(s, h, c) == |h.log| || (InCast(s) && Heard(s, h, c) == |h.log| - 1))
  }

  lemma SegmentOf(s: State, h: Hist, c: nat)
    requires Sound(s, h) && c < |s.threads|
    ensures if s.threads[c].granted == 0 then h.streams[c].heard == [] else HearsOneSegment(s, h, c)
  {
    assert StreamOk(s, h, c) && Tenancy(s, c);
    var (st, upTo) := (h.streams[c], Heard(s, h, c));
    if s.threads[c].granted > 0 {
      assert 0 <= upTo <= |h.log|;
      assert st.joined <= upTo && h.log[..upTo][st.joined..] == h.log[st.joined..upTo];
    }
  }

  /** Total order: in every interleaving, as long as slots and threads match, every connection
      that was given a slot has been sent one contiguous piece of the one log of broadcasts. */
  lemma {:induction false} EveryPlayerHearsOneSegment(slots: nat, es: seq<Event>, c: nat)
    requires Run(slots, es).Some? && NeverBreaks(slots, es)
    requires c < |Run(slots, es).value.threads|
    ensures |Run(slots, es).value.threads| == |History(slots, es).streams|
    ensures if Run(slots, es).value.threads[c].granted == 0 then History(slots, es).streams[c].heard == []
            else HearsOneSegment(Run(slots, es).value, History(slots, es), c)
  {
    RunsKeepOrder(slots, es);
    SegmentOf(Run(slots, es).value, History(slots, es), c);
  }
}
