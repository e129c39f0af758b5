/** The C server and the Rust server, run one event at a time on the same clients, do the
    same thing (week13/lserver.c against week13/server.rs). */
module Simulation {
  import opened Sequences
  import opened GameTable
  import C = LServer
  import CRuns = LServerRuns
  import R = RsServer

  /** A connection's thread between two packets. */
  datatype Handler = Handler(alive: bool, myId: Option<nat>)

  /** The Rust side: the shared table, one thread per connection, and what was sent. */
  datatype RsWorld = RsWorld(players: seq<Player<R.Link>>, threads: seq<Handler>, sent: seq<Send<nat>>)

  /** Both servers side by side; fds[c] is the descriptor the C server has for connection c. */
  datatype Pair = Pair(c: CRuns.World, fds: seq<int>, rs: RsWorld)

  /** What clients do. Connections are numbered as they come. */
  datatype Event =
    | Connects(fd: int)
    | Sends(conn: nat, pkt: Packet)
    | HangsUp(conn: nat)
    | SendsDatagram(pkt: Packet, src: Address)

  predicate IsOpen(p: Pair, conn: nat) {
    conn < |p.fds| == |p.rs.threads| && p.fds[conn] in p.c.open && p.c.open[p.fds[conn]] == conn
  }

  predicate IsInt32(i: int) {
    -0x8000_0000 <= i < 0x8000_0000
  }

  /** What any client can do, to servers whose sockets work as they should. */
  predicate CanHappen(p: Pair, e: Event) {
    match e
    case Connects(fd) => fd >= 0 && fd !in p.c.open
    case Sends(conn, pkt) => IsOpen(p, conn) && IsInt32(pkt.playerId)
    case HangsUp(conn) => IsOpen(p, conn)
    case SendsDatagram(pkt, _) => IsInt32(pkt.playerId)
  }

  function ForC(p: Pair, e: Event): C.Ready
    requires e.Sends? || e.HangsUp? ==> e.conn < |p.fds|
  {
    match e
    case Connects(fd) => C.NewConnection(fd)
    case Sends(conn, pkt) => C.Received(p.fds[conn], pkt)
    case HangsUp(conn) => C.Hangup(p.fds[conn])
    case SendsDatagram(pkt, src) => C.Datagram(pkt, src)
  }

  /** Write halves become the connections they belong to. */
  function ByConnection(sends: seq<Send<R.Link>>): seq<Send<nat>> {
    if sends == [] then []
    else
      var last := sends[|sends| - 1];
      ByConnection(sends[..|sends| - 1])
      + match last {
          case ToTcp(to, pkt) => if to.Some? then [ToTcp(to.value, pkt)] else []
          case ToUdp(addr, pkt) => [ToUdp(addr, pkt)]
        }
  }

  /** The end of a connection's thread: free the slot it still remembers. */
  function Ended(w: RsWorld, conn: nat): RsWorld
    requires conn < |w.threads|
  {
    var id := w.threads[conn].myId;
    w.(threads := w.threads[conn := Handler(false, id)],
       players := if id.Some? && id.value < |w.players|
                  then w.players[id.value := Vacated(w.players[id.value], None)] else w.players)
  }

  function RsStep(w: RsWorld, e: Event): RsWorld
    requires e.Sends? || e.HangsUp? ==> e.conn < |w.threads|
  {
    match e
    case Connects(_) => w.(threads := w.threads + [Handler(true, None)])
    case Sends(conn, pkt) =>
      if !w.threads[conn].alive then w
      else
        var h := R.OnTcp(w.players, pkt, conn, w.threads[conn].myId);
        var after := RsWorld(h.players, w.threads[conn := Handler(true, h.myId)], w.sent + ByConnection(h.sends));
        if h.goOn then after else Ended(after, conn)
    case HangsUp(conn) => if w.threads[conn].alive then Ended(w, conn) else w
    case SendsDatagram(pkt, src) =>
      var effect := R.OnUdpUsize(w.players, pkt, src);
      w.(players := effect.players, sent := w.sent + ByConnection(effect.sends))
  }

  function PairStep(p: Pair, e: Event): Pair
    requires CanHappen(p, e)
  {
    Pair(CRuns.Step(p.c, ForC(p, e)), if e.Connects? then p.fds + [e.fd] else p.fds, RsStep(p.rs, e))
  }

  /** Slot by slot: same player, reached through that connection's descriptor in C and its
      write half in Rust, with the same user name up to its first NUL. */
  ghost predicate SameSlot(c: Player<int>, r: Player<R.Link>, open: map<int, nat>) {
    && c.x == r.x && c.y == r.y && c.hp == r.hp && c.isActive == r.isActive && c.udpAddr == r.udpAddr
    && SameString(c.username, r.username)
    && (if c.isActive then c.link in open && r.link == Some(open[c.link])
        else c.link == C.NO_FD && r.link == None)
  }

  ghost predicate SameTable(cs: seq<Player<int>>, rs: seq<Player<R.Link>>, open: map<int, nat>) {
    |cs| == |rs| && forall i :: 0 <= i < |cs| ==> SameSlot(cs[i], rs[i], open)
  }

  /** The two servers have the same table and have sent the same. */
  ghost predicate Agree(p: Pair) {
    SameTable(p.c.players, p.rs.players, p.c.open) && p.c.sent == p.rs.sent
  }

  ghost predicate Connected(p: Pair) {
    && |p.fds| == |p.rs.threads| == p.c.conns
    && (forall fd :: fd in p.c.open ==> fd >= 0 && p.c.open[fd] < |p.fds| && p.fds[p.c.open[fd]] == fd)
    && (forall t :: 0 <= t < |p.fds| && p.rs.threads[t].alive ==> IsOpen(p, t))
  }

  /** What holds in any run, agreement or not: ids that threads remember are slots. */
  ghost predicate Sound(p: Pair) {
    && |p.c.players| == |p.rs.players| <= 0x8000_0000
    && Connected(p)
    && forall t :: 0 <= t < |p.rs.threads| && p.rs.threads[t].myId.Some? ==>
                     p.rs.threads[t].myId.value < |p.rs.players|
  }

  lemma {:induction false} ByConnectionAppend(a: seq<Send<R.Link>>, b: seq<Send<R.Link>>)
    ensures ByConnection(a + b) == ByConnection(a) + ByConnection(b)
  {
    if b == [] {
      assert a + b == a;
    } else {
      ByConnectionAppend(a, b[..|b| - 1]);
      assert (a + b)[..|a + b| - 1] == a + b[..|b| - 1];
    }
  }

  lemma OneSend(cs: seq<Send<int>>, rs: seq<Send<R.Link>>, c: Send<int>, r: Send<R.Link>, open: map<int, nat>)
    requires CRuns.Resolve(cs, open) == ByConnection(rs)
    requires c.ToTcp? ==> c.to in open && r == ToTcp(Some(open[c.to]), c.pkt)
    requires c.ToUdp? ==> r == ToUdp(c.addr, c.pkt)
    ensures CRuns.Resolve(cs + [c], open) == ByConnection(rs + [r])
  {
    assert (cs + [c])[..|cs|] == cs;
    assert (rs + [r])[..|rs|] == rs;
    if c.ToTcp? {
      assert ByConnection(rs + [r]) == ByConnection(rs) + [ToTcp(open[c.to], c.pkt)];
    } else {
      assert ByConnection(rs + [r]) == ByConnection(rs) + [ToUdp(c.addr, c.pkt)];
    }
  }

  lemma {:induction false} SameTcpCast(cs: seq<Player<int>>, rs: seq<Player<R.Link>>, pkt: Packet, open: map<int, nat>)
    requires SameTable(cs, rs, open) && C.NO_FD !in open
    ensures CRuns.Resolve(TcpCast(cs, pkt, C.NO_FD), open) == ByConnection(TcpCast(rs, pkt, None))
  {
    if cs != [] {
      var n := |cs| - 1;
      SameTcpCast(cs[..n], rs[..n], pkt, open);
      assert SameSlot(cs[n], rs[n], open);
      var (before, rBefore) := (TcpCast(cs[..n], pkt, C.NO_FD), TcpCast(rs[..n], pkt, None));
      if cs[n].isActive {
        OneSend(before, rBefore, ToTcp(cs[n].link, pkt), ToTcp(rs[n].link, pkt), open);
      } else {
        assert TcpCast(cs, pkt, C.NO_FD) == before && TcpCast(rs, pkt, None) == rBefore;
      }
    }
  }

  lemma {:induction false} SameUdpCast(cs: seq<Player<int>>, rs: seq<Player<R.Link>>, pkt: Packet, open: map<int, nat>)
    requires SameTable(cs, rs, open)
    ensures CRuns.Resolve(UdpCast(cs, pkt), open) == ByConnection(UdpCast(rs, pkt))
  {
    if cs != [] {
      var n := |cs| - 1;
      SameUdpCast(cs[..n], rs[..n], pkt, open);
      assert SameSlot(cs[n], rs[n], open);
      var before: seq<Send<int>> := UdpCast(cs[..n], pkt);
      var rBefore: seq<Send<R.Link>> := UdpCast(rs[..n], pkt);
      if cs[n].isActive && cs[n].udpAddr.Some? {
        var addr := cs[n].udpAddr.value;
        OneSend(before, rBefore, ToUdp(addr, pkt), ToUdp(addr, pkt), open);
      } else {
        assert UdpCast<int>(cs, pkt) == before && UdpCast<R.Link>(rs, pkt) == rBefore;
      }
    }
  }

  lemma {:induction false} SameLowestFree(cs: seq<Player<int>>, rs: seq<Player<R.Link>>, open: map<int, nat>)
    requires SameTable(cs, rs, open)
    ensures LowestFree(cs) == LowestFree(rs)
  {
    var (i, j) := (LowestFree(cs), LowestFree(rs));
    if i < |cs| { assert SameSlot(cs[i], rs[i], open); }
    if j < |rs| { assert SameSlot(cs[j], rs[j], open); }
  }

  lemma SlotsStay(p: Pair, e: Event)
    requires CanHappen(p, e)
    ensures |PairStep(p, e).c.players| == |p.c.players| && |PairStep(p, e).rs.players| == |p.rs.players|
  {
  }

  /** What an event does to the threads: one more, or another place for the one it is about. */
  lemma ThreadsMove(p: Pair, e: Event)
    requires Sound(p) && CanHappen(p, e)
    ensures var (was, now) := (p.rs.threads, PairStep(p, e).rs.threads);
            if e.Connects? then now == was + [Handler(true, None)]
            else if e.SendsDatagram? then now == was
            else now == was[e.conn := now[e.conn]] && (now[e.conn].alive ==> was[e.conn].alive && e.Sends?)
                 && (now[e.conn].myId.Some? ==> now[e.conn].myId.value < |p.rs.players|)
  {
  }

  lemma OpenMoves(p: Pair, e: Event)
    requires CanHappen(p, e)
    ensures var t := PairStep(p, e);
            && t.fds == (if e.Connects? then p.fds + [e.fd] else p.fds)
            && t.c.conns == (if e.Connects? then p.c.conns + 1 else p.c.conns)
            && t.c.open == (match e
                            case Connects(fd) => p.c.open[fd := p.c.conns]
                            case HangsUp(conn) => p.c.open - {p.fds[conn]}
                            case _ => p.c.open)
  {
  }

  lemma SoundStays(p: Pair, e: Event)
    requires Sound(p) && CanHappen(p, e)
    ensures Sound(PairStep(p, e))
  {
    var t := PairStep(p, e);
    SlotsStay(p, e);
    ThreadsMove(p, e);
    OpenMoves(p, e);
    forall c | 0 <= c < |t.fds| && t.rs.threads[c].alive ensures IsOpen(t, c) {
      if c < |p.fds| {
        assert p.rs.threads[c].alive && IsOpen(p, c);
      }
    }
  }

  lemma SameOnConnect(p: Pair, e: Event)
    requires Sound(p) && Agree(p) && CanHappen(p, e) && e.Connects?
    ensures Agree(PairStep(p, e))
  {
    var t := PairStep(p, e);
    forall i | 0 <= i < |p.c.players| ensures SameSlot(t.c.players[i], t.rs.players[i], t.c.open) {
      assert SameSlot(p.c.players[i], p.rs.players[i], p.c.open);
    }
  }

  lemma SameOnDatagram(p: Pair, e: Event)
    requires Sound(p) && Agree(p) && CanHappen(p, e) && e.SendsDatagram?
    ensures Agree(PairStep(p, e))
  {
    var t := PairStep(p, e);
    var pid := e.pkt.playerId;
    if 0 <= pid < |p.c.players| {
      assert SameSlot(p.c.players[pid], p.rs.players[pid], p.c.open);
    }
    forall i | 0 <= i < |p.c.players| ensures SameSlot(t.c.players[i], t.rs.players[i], t.c.open) {
      assert SameSlot(p.c.players[i], p.rs.players[i], p.c.open);
    }
    SameUdpCast(t.c.players, t.rs.players, e.pkt, p.c.open);
  }

  lemma SameReplies(cs: seq<Player<int>>, rs: seq<Player<R.Link>>, resp: Packet, fd: int, conn: nat,
                    open: map<int, nat>)
    requires SameTable(cs, rs, open) && C.NO_FD !in open && fd in open && open[fd] == conn
    ensures CRuns.Resolve([ToTcp(fd, resp)] + TcpCast(cs, resp, C.NO_FD), open)
         == ByConnection([ToTcp(Some(conn), resp)] + TcpCast(rs, resp, None))
  {
    SameTcpCast(cs, rs, resp, open);
    OneSend([], [], ToTcp(fd, resp), ToTcp(Some(conn), resp), open);
    CRuns.ResolveAppend([ToTcp(fd, resp)], TcpCast(cs, resp, C.NO_FD), open);
    ByConnectionAppend([ToTcp(Some(conn), resp)], TcpCast(rs, resp, None));
    assert [] + [ToTcp(fd, resp)] == [ToTcp(fd, resp)];
    assert [] + [ToTcp(Some(conn), resp)] == [ToTcp(Some(conn), resp)];
  }

  lemma SeatedAlike(c: Player<int>, r: Player<R.Link>, open: map<int, nat>, fd: int, name: Name)
    requires SameSlot(c, r, open) && fd in open
    ensures SameSlot(Seated(c, fd, C.StrNCpy(name)), Seated(r, Some(open[fd]), name), open)
  {
    C.CopyIsTheSameString(name);
  }

  lemma SameOnLogin(p: Pair, e: Event)
    requires Sound(p) && Agree(p) && CanHappen(p, e) && e.Sends? && p.rs.threads[e.conn].alive && e.pkt.kind == LOGIN
    ensures Agree(PairStep(p, e))
  {
    var t := PairStep(p, e);
    var (cs, rs, open) := (p.c.players, p.rs.players, p.c.open);
    SameLowestFree(cs, rs, open);
    forall i | 0 <= i < |cs| ensures SameSlot(t.c.players[i], t.rs.players[i], open) {
      assert SameSlot(cs[i], rs[i], open);
      if i == LowestFree(cs) {
        SeatedAlike(cs[i], rs[i], open, p.fds[e.conn], e.pkt.username);
      }
    }
    if LowestFree(cs) < |cs| {
      var resp := e.pkt.(playerId := LowestFree(cs));
      SameReplies(t.c.players, t.rs.players, resp, p.fds[e.conn], e.conn, open);
    }
  }

  /** A logout with the id of a slot, whoever sends it. */
  lemma SameOnLogout(p: Pair, e: Event)
    requires Sound(p) && Agree(p) && CanHappen(p, e) && e.Sends? && p.rs.threads[e.conn].alive
    requires e.pkt.kind == LOGOUT && 0 <= e.pkt.playerId < |p.c.players|
    ensures Agree(PairStep(p, e))
  {
    var t := PairStep(p, e);
    forall i | 0 <= i < |p.c.players| ensures SameSlot(t.c.players[i], t.rs.players[i], p.c.open) {
      assert SameSlot(p.c.players[i], p.rs.players[i], p.c.open);
    }
    SameTcpCast(t.c.players, t.rs.players, e.pkt, p.c.open);
  }

  lemma SameOnOtherPackets(p: Pair, e: Event)
    requires Sound(p) && Agree(p) && CanHappen(p, e) && e.Sends? && p.rs.threads[e.conn].alive
    requires e.pkt.kind != LOGIN && e.pkt.kind != LOGOUT
    ensures Agree(PairStep(p, e))
  {
    var t := PairStep(p, e);
    SameTcpCast(p.c.players, p.rs.players, e.pkt, p.c.open);
  }

  /** A live thread remembers slot i. */
  predicate Remembers(w: RsWorld, conn: nat, i: nat)
    requires conn < |w.threads|
  {
    w.threads[conn].alive && w.threads[conn].myId == Some(i)
  }

  /** The active slots that are linked to the connection are exactly what its thread remembers. */
  ghost predicate LinkedIsRemembered(w: RsWorld, conn: nat)
    requires conn < |w.threads|
  {
    forall i: nat :: i < |w.players| && w.players[i].isActive ==>
      (w.players[i].link == Some(conn) <==> Remembers(w, conn, i))
  }

  /** Both sides know the same slots of a connection: C by its descriptor, Rust by its write half. */
  lemma SameLink(p: Pair, conn: nat, i: nat)
    requires Sound(p) && Agree(p) && IsOpen(p, conn) && i < |p.c.players|
    ensures p.c.players[i].link == p.fds[conn] <==> p.rs.players[i].isActive && p.rs.players[i].link == Some(conn)
  {
    assert SameSlot(p.c.players[i], p.rs.players[i], p.c.open);
  }

  /** C scans for the descriptor, Rust uses the remembered id: they free the same slot. */
  lemma SameFreedSlot(p: Pair, conn: nat)
    requires Sound(p) && Agree(p) && IsOpen(p, conn) && LinkedIsRemembered(p.rs, conn)
    ensures var i := C.SlotOf(p.c.players, p.fds[conn]);
            if i < |p.c.players| then Remembers(p.rs, conn, i)
            else forall j :: 0 <= j < |p.rs.players| && Remembers(p.rs, conn, j) ==> !p.rs.players[j].isActive
  {
    var i := C.SlotOf(p.c.players, p.fds[conn]);
    if i < |p.c.players| {
      SameLink(p, conn, i);
    } else {
      forall j: nat | j < |p.rs.players| && Remembers(p.rs, conn, j) ensures !p.rs.players[j].isActive {
        SameLink(p, conn, j);
      }
    }
  }

  lemma VacatingNobody(p: Pair, i: nat)
    requires Sound(p) && Agree(p) && i < |p.rs.players| && !p.rs.players[i].isActive
    ensures p.rs.players[i := Vacated(p.rs.players[i], None)] == p.rs.players
  {
    assert SameSlot(p.c.players[i], p.rs.players[i], p.c.open);
  }

  /** A hang-up touches one slot at most, and the same one on both sides. */
  lemma HangupFrees(p: Pair, e: Event)
    requires Sound(p) && Agree(p) && CanHappen(p, e) && e.HangsUp? && LinkedIsRemembered(p.rs, e.conn)
    ensures var t := PairStep(p, e);
            var i := C.SlotOf(p.c.players, p.fds[e.conn]);
            && t.c.open == p.c.open - {p.fds[e.conn]} && t.c.sent == p.c.sent && t.rs.sent == p.rs.sent
            && t.c.players == (if i < |p.c.players| then p.c.players[i := Vacated(p.c.players[i], C.NO_FD)]
                               else p.c.players)
            && t.rs.players == (if i < |p.c.players| then p.rs.players[i := Vacated(p.rs.players[i], None)]
                                else p.rs.players)
  {
    SameFreedSlot(p, e.conn);
    assert p.c.sent + [] == p.c.sent;
    var thread := p.rs.threads[e.conn];
    if C.SlotOf(p.c.players, p.fds[e.conn]) == |p.c.players| && thread.alive && thread.myId.Some? {
      assert Remembers(p.rs, e.conn, thread.myId.value);
      VacatingNobody(p, thread.myId.value);
    }
  }

  /** Every slot but the freed one keeps a descriptor that stays open. */
  lemma SameSlotAfterHangup(p: Pair, conn: nat, i: nat)
    requires Sound(p) && Agree(p) && IsOpen(p, conn) && LinkedIsRemembered(p.rs, conn) && i < |p.c.players|
    ensures var (c, r, open) := (p.c.players[i], p.rs.players[i], p.c.open - {p.fds[conn]});
            if i == C.SlotOf(p.c.players, p.fds[conn]) then SameSlot(Vacated(c, C.NO_FD), Vacated(r, None), open)
            else SameSlot(c, r, open)
  {
    SameFreedSlot(p, conn);
    SameLink(p, conn, i);
    assert SameSlot(p.c.players[i], p.rs.players[i], p.c.open);
  }

  lemma SameOnHangup(p: Pair, e: Event)
    requires Sound(p) && Agree(p) && CanHappen(p, e) && e.HangsUp? && LinkedIsRemembered(p.rs, e.conn)
    ensures Agree(PairStep(p, e))
  {
    var t := PairStep(p, e);
    HangupFrees(p, e);
    forall i | 0 <= i < |p.c.players| ensures SameSlot(t.c.players[i], t.rs.players[i], t.c.open) {
      SameSlotAfterHangup(p, e.conn, i);
    }
  }

  lemma DifferingSlotShows(t: Pair, i: nat)
    requires i < |t.c.players| == |t.rs.players|
    requires t.c.players[i].isActive != t.rs.players[i].isActive || t.c.players[i].link !in t.c.open
    requires t.c.players[i].isActive || t.rs.players[i].isActive
    ensures !Agree(t)
  {
    assert !SameSlot(t.c.players[i], t.rs.players[i], t.c.open);
  }

  lemma HangupMoves(p: Pair, conn: nat)
    requires Sound(p) && CanHappen(p, HangsUp(conn))
    ensures var t := PairStep(p, HangsUp(conn));
            && t.c.players == C.Freed(p.c.players, p.fds[conn]) && t.c.open == p.c.open - {p.fds[conn]}
            && |t.rs.players| == |p.rs.players|
            && forall i: nat :: i < |p.rs.players| ==>
                 t.rs.players[i].isActive == (p.rs.players[i].isActive && !Remembers(p.rs, conn, i))
  {
  }

  lemma HangupDivergesAt(p: Pair, conn: nat, i: nat)
    requires Sound(p) && Agree(p) && CanHappen(p, HangsUp(conn)) && i < |p.rs.players| && p.rs.players[i].isActive
    requires p.rs.players[i].link == Some(conn) <==> !Remembers(p.rs, conn, i)
    ensures !Agree(PairStep(p, HangsUp(conn)))
  {
    SameLink(p, conn, i);
    HangupMoves(p, conn);
    assert SameSlot(p.c.players[i], p.rs.players[i], p.c.open);
    DifferingSlotShows(PairStep(p, HangsUp(conn)), i);
  }

  /** Otherwise either C frees another slot than Rust, or it leaves one active on the closed
      descriptor. */
  lemma HangupDiverges(p: Pair, e: Event)
    requires Sound(p) && Agree(p) && CanHappen(p, e) && e.HangsUp? && !LinkedIsRemembered(p.rs, e.conn)
    ensures !Agree(PairStep(p, e))
  {
    var i: nat :| && i < |p.rs.players| && p.rs.players[i].isActive
                  && !(p.rs.players[i].link == Some(e.conn) <==> Remembers(p.rs, e.conn, i));
    HangupDivergesAt(p, e.conn, i);
  }

  // ---- Exactly when one event parts them ---------------------------------------------------

  predicate OutOfRange(p: Pair, pkt: Packet) {
    !(0 <= pkt.playerId < |p.c.players|)
  }

  /** A live thread remembers a slot, and somebody is in it. */
  predicate RemembersActive(w: RsWorld, conn: nat)
    requires conn < |w.threads|
  {
    var id := w.threads[conn].myId;
    w.threads[conn].alive && id.Some? && id.value < |w.players| && w.players[id.value].isActive
  }

  /** C ignores the logout; in Rust the thread ends and frees the slot it remembers. */
  lemma OutOfRangeLogoutDiverges(p: Pair, conn: nat, pkt: Packet)
    requires Sound(p) && Agree(p) && CanHappen(p, Sends(conn, pkt)) && RemembersActive(p.rs, conn)
    requires pkt.kind == LOGOUT && OutOfRange(p, pkt)
    ensures var i := p.rs.threads[conn].myId.value;
            && PairStep(p, Sends(conn, pkt)).c.players[i].isActive
            && !PairStep(p, Sends(conn, pkt)).rs.players[i].isActive
  {
    var i := p.rs.threads[conn].myId.value;
    assert SameSlot(p.c.players[i], p.rs.players[i], p.c.open);
  }

  lemma OutOfRangeLogoutIsHarmless(p: Pair, conn: nat, pkt: Packet)
    requires Sound(p) && Agree(p) && CanHappen(p, Sends(conn, pkt))
    requires p.rs.threads[conn].alive && !RemembersActive(p.rs, conn)
    requires pkt.kind == LOGOUT && OutOfRange(p, pkt)
    ensures Agree(PairStep(p, Sends(conn, pkt)))
  {
    assert ByConnection([]) == [];
    var id := p.rs.threads[conn].myId;
    if id.Some? {
      VacatingNobody(p, id.value);
    }
  }

  /** One packet of a connection whose thread is alive: the servers part on exactly one kind. */
  lemma PacketAgreesIff(p: Pair, conn: nat, pkt: Packet)
    requires Sound(p) && Agree(p) && CanHappen(p, Sends(conn, pkt)) && p.rs.threads[conn].alive
    ensures Agree(PairStep(p, Sends(conn, pkt))) <==>
            !(pkt.kind == LOGOUT && OutOfRange(p, pkt) && RemembersActive(p.rs, conn))
  {
    var e := Sends(conn, pkt);
    if pkt.kind == LOGIN {
      SameOnLogin(p, e);
    } else if pkt.kind != LOGOUT {
      SameOnOtherPackets(p, e);
    } else if !OutOfRange(p, pkt) {
      SameOnLogout(p, e);
    } else if RemembersActive(p.rs, conn) {
      OutOfRangeLogoutDiverges(p, conn, pkt);
      DifferingSlotShows(PairStep(p, e), p.rs.threads[conn].myId.value);
    } else {
      OutOfRangeLogoutIsHarmless(p, conn, pkt);
    }
  }

  ghost predicate SomeoneActive(ps: seq<Player<int>>) {
    exists i :: 0 <= i < |ps| && ps[i].isActive
  }

  /** After its logout Rust no longer reads a connection, but C still does: what C then acts on. */
  ghost predicate StillActs(ps: seq<Player<int>>, pkt: Packet) {
    if pkt.kind == LOGIN then LowestFree(ps) < |ps|
    else if pkt.kind == LOGOUT then 0 <= pkt.playerId < |ps| && SomeoneActive(ps)
    else (pkt.kind == ATTACK || pkt.kind == ITEM) && SomeoneActive(ps)
  }

  /** A broadcast reaches nobody exactly when nobody is active. */
  lemma {:induction false} CastIsEmptyIff(cs: seq<Player<int>>, pkt: Packet, open: map<int, nat>)
    requires C.NO_FD !in open && forall i :: 0 <= i < |cs| && cs[i].isActive ==> cs[i].link in open
    ensures CRuns.Resolve(TcpCast(cs, pkt, C.NO_FD), open) == [] <==> !SomeoneActive(cs)
  {
    if cs != [] {
      var (front, last) := (cs[..|cs| - 1], cs[|cs| - 1]);
      CastIsEmptyIff(front, pkt, open);
      assert SomeoneActive(cs) <==> SomeoneActive(front) || last.isActive by {
        if SomeoneActive(front) {
          var i :| 0 <= i < |front| && front[i].isActive;
          assert cs[i].isActive;
        }
      }
      var one: seq<Send<int>> := [ToTcp(last.link, pkt)];
      if last.isActive {
        assert TcpCast(cs, pkt, C.NO_FD) == TcpCast(front, pkt, C.NO_FD) + one;
        CRuns.ResolveAppend(TcpCast(front, pkt, C.NO_FD), one, open);
        assert |CRuns.Resolve(one, open)| == 1;
      } else {
        assert TcpCast(cs, pkt, C.NO_FD) == TcpCast(front, pkt, C.NO_FD);
      }
    }
  }

  lemma ActiveLinksAreOpen(p: Pair)
    requires Sound(p) && Agree(p)
    ensures C.NO_FD !in p.c.open
    ensures forall i :: 0 <= i < |p.c.players| && p.c.players[i].isActive ==> p.c.players[i].link in p.c.open
  {
    forall i | 0 <= i < |p.c.players| && p.c.players[i].isActive ensures p.c.players[i].link in p.c.open {
      assert SameSlot(p.c.players[i], p.rs.players[i], p.c.open);
    }
  }

  lemma LateLogin(p: Pair, conn: nat, pkt: Packet)
    requires Sound(p) && Agree(p) && CanHappen(p, Sends(conn, pkt)) && !p.rs.threads[conn].alive && pkt.kind == LOGIN
    ensures Agree(PairStep(p, Sends(conn, pkt))) <==> !StillActs(p.c.players, pkt)
  {
    var t := PairStep(p, Sends(conn, pkt));
    var id := LowestFree(p.c.players);
    if id < |p.c.players| {
      assert SameSlot(p.c.players[id], p.rs.players[id], p.c.open);
      assert t.c.players[id].isActive && !t.rs.players[id].isActive;
      assert !SameSlot(t.c.players[id], t.rs.players[id], t.c.open);
    }
  }

  lemma LateLogout(p: Pair, conn: nat, pkt: Packet)
    requires Sound(p) && Agree(p) && CanHappen(p, Sends(conn, pkt)) && !p.rs.threads[conn].alive && pkt.kind == LOGOUT
    ensures Agree(PairStep(p, Sends(conn, pkt))) <==> !StillActs(p.c.players, pkt)
  {
    var t := PairStep(p, Sends(conn, pkt));
    ActiveLinksAreOpen(p);
    if !OutOfRange(p, pkt) {
      var pid := pkt.playerId;
      assert SameSlot(p.c.players[pid], p.rs.players[pid], p.c.open);
      if p.c.players[pid].isActive {
        assert !SameSlot(t.c.players[pid], t.rs.players[pid], t.c.open);
      } else {
        assert t.c.players == p.c.players && t.rs == p.rs;
        CastIsEmptyIff(p.c.players, pkt, p.c.open);
        assert t.c.sent == p.c.sent + CRuns.Resolve(TcpCast(p.c.players, pkt, C.NO_FD), p.c.open);
        assert SameTable(t.c.players, t.rs.players, t.c.open);
      }
    }
  }

  lemma LateAction(p: Pair, conn: nat, pkt: Packet)
    requires Sound(p) && Agree(p) && CanHappen(p, Sends(conn, pkt)) && !p.rs.threads[conn].alive
    requires pkt.kind != LOGIN && pkt.kind != LOGOUT
    ensures Agree(PairStep(p, Sends(conn, pkt))) <==> !StillActs(p.c.players, pkt)
  {
    ActiveLinksAreOpen(p);
    CastIsEmptyIff(p.c.players, pkt, p.c.open);
  }

  /** One packet of a connection whose thread has ended: the servers agree exactly when C has
      nothing to do for it. */
  lemma LatePacketAgreesIff(p: Pair, conn: nat, pkt: Packet)
    requires Sound(p) && Agree(p) && CanHappen(p, Sends(conn, pkt)) && !p.rs.threads[conn].alive
    ensures Agree(PairStep(p, Sends(conn, pkt))) <==> !StillActs(p.c.players, pkt)
  {
    if pkt.kind == LOGIN {
      LateLogin(p, conn, pkt);
    } else if pkt.kind == LOGOUT {
      LateLogout(p, conn, pkt);
    } else {
      LateAction(p, conn, pkt);
    }
  }

  /** The events on which agreeing servers part. A hang-up: C frees the first slot that carries
      the descriptor, Rust the one its thread remembers. A logout with no slot's id: only Rust
      frees the remembered slot. A packet after the connection's logout: only C acts on it. */
  ghost predicate Parts(p: Pair, e: Event)
    requires CanHappen(p, e)
  {
    match e
    case HangsUp(conn) => !LinkedIsRemembered(p.rs, conn)
    case Sends(conn, pkt) =>
      if p.rs.threads[conn].alive then pkt.kind == LOGOUT && OutOfRange(p, pkt) && RemembersActive(p.rs, conn)
      else StillActs(p.c.players, pkt)
    case _ => false
  }

  /** Whatever a client does: two servers that agree go on agreeing if and only if it is none of
      these events. */
  lemma EventAgreesIff(p: Pair, e: Event)
    requires Sound(p) && Agree(p) && CanHappen(p, e)
    ensures Agree(PairStep(p, e)) <==> !Parts(p, e)
  {
    match e
    case Connects(_) => SameOnConnect(p, e);
    case SendsDatagram(_, _) => SameOnDatagram(p, e);
    case HangsUp(conn) =>
      if LinkedIsRemembered(p.rs, conn) {
        SameOnHangup(p, e);
      } else {
        HangupDiverges(p, e);
      }
    case Sends(conn, pkt) =>
      if p.rs.threads[conn].alive {
        PacketAgreesIff(p, conn, pkt);
      } else {
        LatePacketAgreesIff(p, conn, pkt);
      }
  }

  // ---- Whole runs, whatever the clients do ----------------------------------------------

  /** These are all the events there are: whatever the C server can be told of, with a player id
      that is an int, is one of them. */
  lemma EveryReadyIsAnEvent(p: Pair, r: C.Ready) returns (e: Event)
    requires Sound(p) && CRuns.Possible(p.c, r)
    requires r.Received? || r.Datagram? ==> IsInt32(r.pkt.playerId)
    ensures CanHappen(p, e) && ForC(p, e) == r
  {
    match r
    case NewConnection(fd) => e := Connects(fd);
    case Datagram(pkt, src) => e := SendsDatagram(pkt, src);
    case Received(fd, pkt) => e := Sends(p.c.open[fd], pkt);
    case Hangup(fd) => e := HangsUp(p.c.open[fd]);
  }

  function Start(slots: nat): Pair {
    Pair(CRuns.Start(slots), [], RsWorld(seq(slots, _ => R.EMPTY), [], []))
  }

  /** Both servers after the same events; None when one of them could not happen. */
  function Run(slots: nat, es: seq<Event>): Option<Pair> {
    if es == [] then Some(Start(slots))
    else
      var before := Run(slots, es[..|es| - 1]);
      var e := es[|es| - 1];
      if before.Some? && CanHappen(before.value, e) then Some(PairStep(before.value, e)) else None
  }

  lemma StartAgrees(slots: nat)
    requires slots <= 0x8000_0000
    ensures Sound(Start(slots)) && Agree(Start(slots))
  {
    var p := Start(slots);
    forall i | 0 <= i < slots ensures SameSlot(p.c.players[i], p.rs.players[i], p.c.open) {
    }
  }

  lemma {:induction false} RunsAreSound(slots: nat, es: seq<Event>)
    requires slots <= 0x8000_0000 && Run(slots, es).Some?
    ensures Sound(Run(slots, es).value)
  {
    if es == [] {
      StartAgrees(slots);
    } else {
      RunsAreSound(slots, es[..|es| - 1]);
      SoundStays(Run(slots, es[..|es| - 1]).value, es[|es| - 1]);
    }
  }

  /** The servers agree after every event of the run. */
  ghost predicate AgreeThroughout(slots: nat, es: seq<Event>)
    requires Run(slots, es).Some?
  {
    Agree(Run(slots, es).value) && (es != [] ==> AgreeThroughout(slots, es[..|es| - 1]))
  }

  /** No event of the run is one on which agreeing servers part. */
  ghost predicate NeverParts(slots: nat, es: seq<Event>)
    requires Run(slots, es).Some?
  {
    es != [] ==>
      && NeverParts(slots, es[..|es| - 1])
      && !Parts(Run(slots, es[..|es| - 1]).value, es[|es| - 1])
  }

  /** For every run of any clients: the two servers have the same table, slot by slot, and have
      sent the same packets to the same recipients in the same order, after each event of the run,
      if and only if none of its events is one of those. */
  lemma {:induction false} RunsAgreeIff(slots: nat, es: seq<Event>)
    requires slots <= 0x8000_0000 && Run(slots, es).Some?
    ensures AgreeThroughout(slots, es) <==> NeverParts(slots, es)
  {
    if es == [] {
      StartAgrees(slots);
    } else {
      var before := es[..|es| - 1];
      RunsAgreeIff(slots, before);
      if AgreeThroughout(slots, before) {
        RunsAreSound(slots, before);
        EventAgreesIff(Run(slots, before).value, es[|es| - 1]);
      }
    }
  }

  // ---- Well-behaved clients never part them -----------------------------------------------

  /** A client logs in once, logs out with its own id and sends nothing after that. */
  predicate WellBehaved(p: Pair, e: Event) {
    && CanHappen(p, e)
    && (e.Sends? ==>
          var t := p.rs.threads[e.conn];
          && t.alive
          && (e.pkt.kind == LOGIN ==> t.myId.None?)
          && (e.pkt.kind == LOGOUT ==> e.pkt.playerId >= 0 && t.myId == Some(e.pkt.playerId)))
  }

  ghost predicate SlotKnowsThread(w: RsWorld, i: nat)
    requires i < |w.players|
  {
    w.players[i].link.Some? ==>
      var t := w.players[i].link.value;
      t < |w.threads| && w.threads[t].alive && w.threads[t].myId == Some(i)
  }

  ghost predicate ThreadKnowsSlot(w: RsWorld, t: nat)
    requires t < |w.threads|
  {
    w.threads[t].alive && w.threads[t].myId.Some? ==>
      var i := w.threads[t].myId.value;
      i < |w.players| && w.players[i].link == Some(t)
  }

  /** A live thread remembers exactly the slot that carries its write half. */
  ghost predicate ThreadsKnowTheirSlot(w: RsWorld) {
    && (forall i: nat :: i < |w.players| ==> SlotKnowsThread(w, i))
    && (forall t: nat :: t < |w.threads| ==> ThreadKnowsSlot(w, t))
  }

  /** The servers agree and every live Rust thread knows its slot. */
  ghost predicate Simulates(p: Pair) {
    Sound(p) && Agree(p) && ThreadsKnowTheirSlot(p.rs)
  }

  lemma SlotStaysTrueOnLogin(p: Pair, e: Event, i: nat)
    requires Simulates(p) && WellBehaved(p, e) && e.Sends? && e.pkt.kind == LOGIN && i < |p.rs.players|
    ensures |RsStep(p.rs, e).players| == |p.rs.players| && SlotKnowsThread(RsStep(p.rs, e), i)
  {
    assert SlotKnowsThread(p.rs, i);
    assert SameSlot(p.c.players[i], p.rs.players[i], p.c.open);
  }

  lemma SlotStaysTrueOnPacket(p: Pair, e: Event, i: nat)
    requires Simulates(p) && WellBehaved(p, e) && e.Sends? && i < |p.rs.players|
    ensures |RsStep(p.rs, e).players| == |p.rs.players| && SlotKnowsThread(RsStep(p.rs, e), i)
  {
    assert SlotKnowsThread(p.rs, i) && ThreadKnowsSlot(p.rs, e.conn);
    if e.pkt.kind == LOGIN {
      SlotStaysTrueOnLogin(p, e, i);
    }
  }

  lemma SlotStaysTrue(p: Pair, e: Event, i: nat)
    requires Simulates(p) && WellBehaved(p, e) && i < |p.rs.players|
    ensures |RsStep(p.rs, e).players| == |p.rs.players| && SlotKnowsThread(RsStep(p.rs, e), i)
  {
    if e.Sends? {
      SlotStaysTrueOnPacket(p, e, i);
    } else {
      assert SlotKnowsThread(p.rs, i);
      if e.HangsUp? {
        assert ThreadKnowsSlot(p.rs, e.conn);
      }
    }
  }

  lemma ThreadStaysTrueOnLogin(p: Pair, e: Event, t: nat)
    requires Simulates(p) && WellBehaved(p, e) && e.Sends? && e.pkt.kind == LOGIN && t < |RsStep(p.rs, e).threads|
    ensures ThreadKnowsSlot(RsStep(p.rs, e), t)
  {
    assert ThreadKnowsSlot(p.rs, t);
    var id := LowestFree(p.rs.players);
    if id < |p.rs.players| {
      assert SameSlot(p.c.players[id], p.rs.players[id], p.c.open);
    }
  }

  lemma ThreadStaysTrueOnPacket(p: Pair, e: Event, t: nat)
    requires Simulates(p) && WellBehaved(p, e) && e.Sends? && t < |RsStep(p.rs, e).threads|
    ensures ThreadKnowsSlot(RsStep(p.rs, e), t)
  {
    if e.pkt.kind == LOGIN {
      ThreadStaysTrueOnLogin(p, e, t);
    } else {
      assert ThreadKnowsSlot(p.rs, t) && ThreadKnowsSlot(p.rs, e.conn);
    }
  }

  lemma ThreadStaysTrue(p: Pair, e: Event, t: nat)
    requires Simulates(p) && WellBehaved(p, e) && t < |RsStep(p.rs, e).threads|
    ensures ThreadKnowsSlot(RsStep(p.rs, e), t)
  {
    if e.Sends? {
      ThreadStaysTrueOnPacket(p, e, t);
    } else if t < |p.rs.threads| {
      assert ThreadKnowsSlot(p.rs, t);
      if e.HangsUp? {
        assert ThreadKnowsSlot(p.rs, e.conn);
      }
    }
  }

  lemma ThreadsStayTrue(p: Pair, e: Event)
    requires Simulates(p) && WellBehaved(p, e)
    ensures ThreadsKnowTheirSlot(RsStep(p.rs, e))
  {
    var w := RsStep(p.rs, e);
    if p.rs.players == [] {
      assert w.players == [];
    } else {
      SlotStaysTrue(p, e, 0);
    }
    forall i: nat | i < |w.players| ensures SlotKnowsThread(w, i) { SlotStaysTrue(p, e, i); }
    forall t: nat | t < |w.threads| ensures ThreadKnowsSlot(w, t) { ThreadStaysTrue(p, e, t); }
  }

  lemma WellBehavedDoesNotPart(p: Pair, e: Event)
    requires Simulates(p) && WellBehaved(p, e)
    ensures !Parts(p, e)
  {
    if e.Sends? || e.HangsUp? {
      assert ThreadKnowsSlot(p.rs, e.conn);
    }
    if e.HangsUp? {
      forall i: nat | i < |p.rs.players| && p.rs.players[i].isActive
        ensures p.rs.players[i].link == Some(e.conn) <==> Remembers(p.rs, e.conn, i)
      {
        assert SlotKnowsThread(p.rs, i);
      }
    }
  }

  lemma StepSimulates(p: Pair, e: Event)
    requires Simulates(p) && WellBehaved(p, e)
    ensures Simulates(PairStep(p, e))
  {
    WellBehavedDoesNotPart(p, e);
    EventAgreesIff(p, e);
    ThreadsStayTrue(p, e);
    SoundStays(p, e);
  }

  predicate WellBehavedRun(slots: nat, es: seq<Event>)
    requires Run(slots, es).Some?
  {
    es != [] ==>
      && WellBehavedRun(slots, es[..|es| - 1])
      && WellBehaved(Run(slots, es[..|es| - 1]).value, es[|es| - 1])
  }

  lemma {:induction false} WellBehavedRunsSimulate(slots: nat, es: seq<Event>)
    requires slots <= 0x8000_0000 && Run(slots, es).Some? && WellBehavedRun(slots, es)
    ensures Simulates(Run(slots, es).value) && NeverParts(slots, es)
  {
    if es == [] {
      StartAgrees(slots);
    } else {
      WellBehavedRunsSimulate(slots, es[..|es| - 1]);
      StepSimulates(Run(slots, es[..|es| - 1]).value, es[|es| - 1]);
      WellBehavedDoesNotPart(Run(slots, es[..|es| - 1]).value, es[|es| - 1]);
    }
  }

  /** So for well-behaved clients the two servers do the same thing throughout. */
  lemma {:induction false} ServersAgree(slots: nat, es: seq<Event>)
    requires slots <= 0x8000_0000 && Run(slots, es).Some? && WellBehavedRun(slots, es)
    ensures AgreeThroughout(slots, es)
  {
    WellBehavedRunsSimulate(slots, es);
    RunsAgreeIff(slots, es);
  }

  // ---- They do part -----------------------------------------------------------------------

  lemma RunStep(slots: nat, es: seq<Event>, e: Event)
    requires Run(slots, es).Some? && CanHappen(Run(slots, es).value, e)
    ensures Run(slots, es + [e]) == Some(PairStep(Run(slots, es).value, e))
  {
    assert (es + [e])[..|es|] == es;
  }

  lemma OneConnection()
    ensures Run(2, [Connects(5)]).Some?
    ensures var p := Run(2, [Connects(5)]).value;
            p.fds == [5] && p.rs.threads == [Handler(true, None)] && IsOpen(p, 0)
            && |p.rs.players| == 2 && LowestFree(p.rs.players) == 0 && !p.rs.players[1].isActive
  {
    assert Run(2, []) == Some(Start(2));
    RunStep(2, [], Connects(5));
    assert [] + [Connects(5)] == [Connects(5)];
  }

  lemma AgreesAfter(es: seq<Event>, e: Event)
    requires Run(2, es).Some? && AgreeThroughout(2, es) && CanHappen(Run(2, es).value, e)
    requires !Parts(Run(2, es).value, e)
    ensures Run(2, es + [e]) == Some(PairStep(Run(2, es).value, e)) && AgreeThroughout(2, es + [e])
  {
    assert (es + [e])[..|es|] == es;
    RunsAreSound(2, es);
    EventAgreesIff(Run(2, es).value, e);
  }

  lemma LoginSeats(p: Pair, login: Packet)
    requires IsOpen(p, 0) && p.rs.threads[0].alive && login.kind == LOGIN && IsInt32(login.playerId)
    requires LowestFree(p.rs.players) < |p.rs.players|
    ensures var (t, id) := (PairStep(p, Sends(0, login)), LowestFree(p.rs.players));
            && t.rs.players == p.rs.players[id := Seated(p.rs.players[id], Some(0), login.username)]
            && t.rs.threads == p.rs.threads[0 := Handler(true, Some(id))]
            && IsOpen(t, 0)
  {
  }

  /** The only client of two slots logs in. */
  lemma FirstLogin(q: Pair, login: Packet)
    requires IsOpen(q, 0) && q.rs.threads == [Handler(true, None)] && login.kind == LOGIN && IsInt32(login.playerId)
    requires |q.rs.players| == 2 && LowestFree(q.rs.players) == 0 && !q.rs.players[1].isActive
    ensures var p := PairStep(q, Sends(0, login));
            && IsOpen(p, 0) && p.rs.threads == [Handler(true, Some(0))] && LowestFree(p.rs.players) == 1
            && |p.rs.players| == 2 && p.rs.players[0].isActive && p.rs.players[0].link == Some(0)
  {
    LoginSeats(q, login);
  }

  lemma OneLogin(login: Packet) returns (p: Pair)
    requires login.kind == LOGIN && IsInt32(login.playerId)
    ensures Run(2, [Connects(5)] + [Sends(0, login)]) == Some(p)
    ensures AgreeThroughout(2, [Connects(5)] + [Sends(0, login)]) && Sound(p) && IsOpen(p, 0)
    ensures p.rs.threads == [Handler(true, Some(0))] && LowestFree(p.rs.players) == 1
    ensures |p.rs.players| == 2 && p.rs.players[0].isActive && p.rs.players[0].link == Some(0)
  {
    OneConnection();
    var a := [Connects(5)];
    StartAgrees(2);
    AgreesAfter([], Connects(5));
    assert [] + a == a;
    p := PairStep(Run(2, a).value, Sends(0, login));
    FirstLogin(Run(2, a).value, login);
    AgreesAfter(a, Sends(0, login));
    RunsAreSound(2, a + [Sends(0, login)]);
  }

  /** One client logs in and then out with an id that is no slot. */
  lemma DivergenceIsReal(login: Packet, logout: Packet)
    requires login.kind == LOGIN && IsInt32(login.playerId)
    requires logout.kind == LOGOUT && IsInt32(logout.playerId) && !(0 <= logout.playerId < 2)
    ensures var es := [Connects(5)] + [Sends(0, login)];
            && Run(2, es).Some? && AgreeThroughout(2, es)
            && Run(2, es + [Sends(0, logout)]).Some? && !Agree(Run(2, es + [Sends(0, logout)]).value)
  {
    var p := OneLogin(login);
    EventAgreesIff(p, Sends(0, logout));
    RunStep(2, [Connects(5)] + [Sends(0, login)], Sends(0, logout));
  }

  /** One client logs in twice and hangs up: C frees its first slot, Rust its second. */
  lemma HangupDivergenceIsReal(login: Packet)
    requires login.kind == LOGIN && IsInt32(login.playerId)
    ensures var es := [Connects(5)] + [Sends(0, login)] + [Sends(0, login)];
            && Run(2, es).Some? && AgreeThroughout(2, es)
            && Run(2, es + [HangsUp(0)]).Some? && !Agree(Run(2, es + [HangsUp(0)]).value)
  {
    var p := OneLogin(login);
    var a := [Connects(5)] + [Sends(0, login)];
    AgreesAfter(a, Sends(0, login));
    var q := PairStep(p, Sends(0, login));
    RunsAreSound(2, a + [Sends(0, login)]);
    LoginSeats(p, login);
    assert q.rs.players[0] == p.rs.players[0] && q.rs.threads[0].myId == Some(1);
    assert !LinkedIsRemembered(q.rs, 0);
    EventAgreesIff(q, HangsUp(0));
    RunStep(2, a + [Sends(0, login)], HangsUp(0));
  }
}
