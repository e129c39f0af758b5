/** Whole runs of the C game server, with its environment: which descriptors are open and
    which connection each one is. Descriptors are reused; connections are numbered as they
    come and never reused. */
module LServerRuns {
  import opened Sequences
  import opened GameTable
  import opened LServer

  datatype World = World(
    players: seq<Player<int>>,
    open: map<int, nat>,        // open descriptors and the connection each one is
    conns: nat,                 // connections accepted so far
    sent: seq<Send<nat>>,       // history: what reached the network, by connection
    top: nat,                   // history: one more than the highest id assigned
    peak: nat)                  // history: most slots active at once

  /** accept never returns an open descriptor; packets and hang-ups come on open ones. */
  predicate Possible(w: World, r: Ready) {
    match r
    case NewConnection(fd) => fd >= 0 && fd !in w.open
    case Datagram(_, _) => true
    case Received(fd, _) => fd in w.open
    case Hangup(fd) => fd in w.open
  }

  /** Sends by descriptor become sends by connection; one to a closed descriptor is lost. */
  function Resolve(sends: seq<Send<int>>, open: map<int, nat>): seq<Send<nat>> {
    if sends == [] then []
    else
      var last := sends[|sends| - 1];
      Resolve(sends[..|sends| - 1], open)
      + match last {
          case ToTcp(fd, pkt) => if fd in open then [ToTcp(open[fd], pkt)] else []
          case ToUdp(addr, pkt) => [ToUdp(addr, pkt)]
        }
  }

  function ActiveCount<L>(ps: seq<Player<L>>): (n: nat)
    ensures n <= |ps|
  {
    if ps == [] then 0
    else ActiveCount(ps[..|ps| - 1]) + if ps[|ps| - 1].isActive then 1 else 0
  }

  predicate Grants(w: World, r: Ready) {
    r.Received? && r.pkt.kind == LOGIN && LowestFree(w.players) < |w.players|
  }

  function Max(a: nat, b: nat): nat {
    if a < b then b else a
  }

  function Step(w: World, r: Ready): World
    requires Possible(w, r)
  {
    var effect := Handle(w.players, r);
    World(
      effect.players,
      match r {
        case NewConnection(fd) => w.open[fd := w.conns]
        case Hangup(fd) => w.open - {fd}
        case _ => w.open
      },
      if r.NewConnection? then w.conns + 1 else w.conns,
      w.sent + Resolve(effect.sends, w.open),
      if Grants(w, r) then Max(w.top, LowestFree(w.players) + 1) else w.top,
      Max(w.peak, ActiveCount(effect.players)))
  }

  function Start(slots: nat): World {
    World(seq(slots, _ => EMPTY), map[], 0, [], 0, 0)
  }

  function Run(slots: nat, rs: seq<Ready>): Option<World> {
    if rs == [] then Some(Start(slots))
    else
      var before := Run(slots, rs[..|rs| - 1]);
      var r := rs[|rs| - 1];
      if before.Some? && Possible(before.value, r) then Some(Step(before.value, r)) else None
  }

  // ---- Any run at all -----------------------------------------------------------------

  ghost predicate SlotsAgree(ps: seq<Player<int>>) {
    forall i :: 0 <= i < |ps| ==> (ps[i].isActive <==> ps[i].link != NO_FD)
  }

  ghost predicate FdsValid(w: World) {
    && (forall fd :: fd in w.open ==> fd >= 0 && w.open[fd] < w.conns)
    && (forall a, b :: a in w.open && b in w.open && w.open[a] == w.open[b] ==> a == b)
  }

  lemma StepKeepsAgreement(w: World, r: Ready)
    requires Possible(w, r) && SlotsAgree(w.players) && FdsValid(w)
    ensures SlotsAgree(Step(w, r).players) && FdsValid(Step(w, r))
    ensures |Step(w, r).players| == |w.players|
  {
  }

  /** In every run a slot is active exactly when it carries a descriptor, and no two open
      descriptors are the same connection. */
  lemma {:induction false} ActiveIsLinked(slots: nat, rs: seq<Ready>)
    requires Run(slots, rs).Some?
    ensures SlotsAgree(Run(slots, rs).value.players)
    ensures FdsValid(Run(slots, rs).value)
    ensures |Run(slots, rs).value.players| == slots
  {
    if rs != [] {
      ActiveIsLinked(slots, rs[..|rs| - 1]);
      StepKeepsAgreement(Run(slots, rs[..|rs| - 1]).value, rs[|rs| - 1]);
    }
  }

  lemma {:induction false} CountAtMost<L>(ps: seq<Player<L>>, bound: nat)
    requires forall i :: bound <= i < |ps| ==> !ps[i].isActive
    ensures ActiveCount(ps) <= bound
  {
    if |ps| > bound {
      CountAtMost(ps[..|ps| - 1], bound);
    }
  }

  lemma {:induction false} CountAtLeast<L>(ps: seq<Player<L>>, bound: nat)
    requires bound <= |ps|
    requires forall i :: 0 <= i < bound ==> ps[i].isActive
    ensures ActiveCount(ps) >= bound
  {
    if ps != [] {
      CountAtLeast(ps[..|ps| - 1], if bound == |ps| then bound - 1 else bound);
    }
  }

  ghost predicate PeakIsTop(w: World) {
    && w.top == w.peak <= |w.players|
    && forall i :: w.top <= i < |w.players| ==> !w.players[i].isActive
  }

  lemma StepKeepsPeak(w: World, r: Ready)
    requires Possible(w, r) && PeakIsTop(w)
    ensures PeakIsTop(Step(w, r))
  {
    var t := Step(w, r);
    CountAtMost(t.players, t.top);
    if Grants(w, r) {
      CountAtLeast(t.players, LowestFree(w.players) + 1);
    }
  }

  /** Ids never run ahead of need: whatever packets arrive, the highest id ever assigned plus
      one is the most players ever active at once. */
  lemma {:induction false} HighestIdIsPeak(slots: nat, rs: seq<Ready>)
    requires Run(slots, rs).Some?
    ensures PeakIsTop(Run(slots, rs).value)
  {
    if rs != [] {
      HighestIdIsPeak(slots, rs[..|rs| - 1]);
      StepKeepsPeak(Run(slots, rs[..|rs| - 1]).value, rs[|rs| - 1]);
    }
  }

  /** A login is refused, without any effect, exactly when every slot is active. */
  lemma RefusedOnlyWhenFull(ps: seq<Player<int>>, pkt: Packet, fd: int)
    requires pkt.kind == LOGIN
    ensures (forall i :: 0 <= i < |ps| ==> ps[i].isActive) <==> OnTcp(ps, pkt, fd) == Effect(ps, [])
  {
  }

  // ---- Polite runs: a connection logs in only while it holds no slot -----------------

  ghost predicate HoldsSlot(ps: seq<Player<int>>, fd: int) {
    exists i :: 0 <= i < |ps| && ps[i].isActive && ps[i].link == fd
  }

  ghost predicate Polite(w: World, r: Ready) {
    Grants(w, r) ==> !HoldsSlot(w.players, r.fd)
  }

  ghost predicate PoliteRun(slots: nat, rs: seq<Ready>)
    requires Run(slots, rs).Some?
  {
    rs != [] ==>
      && PoliteRun(slots, rs[..|rs| - 1])
      && Polite(Run(slots, rs[..|rs| - 1]).value, rs[|rs| - 1])
  }

  ghost predicate LinksDistinct(ps: seq<Player<int>>) {
    forall i, j :: 0 <= i < j < |ps| && ps[i].isActive && ps[j].isActive ==> ps[i].link != ps[j].link
  }

  /** Every active slot's descriptor is open. */
  ghost predicate LinksOpen(w: World) {
    forall i :: 0 <= i < |w.players| && w.players[i].isActive ==> w.players[i].link in w.open
  }

  /** Politeness is exactly what keeps the active descriptors apart. */
  lemma DistinctIffPolite(w: World, r: Ready)
    requires Possible(w, r) && LinksDistinct(w.players)
    ensures LinksDistinct(Step(w, r).players) <==> Polite(w, r)
  {
    if Grants(w, r) && HoldsSlot(w.players, r.fd) {
      var i :| 0 <= i < |w.players| && w.players[i].isActive && w.players[i].link == r.fd;
      var id := LowestFree(w.players);
      var ps := Step(w, r).players;
      assert ps[i].isActive && ps[id].isActive && ps[i].link == ps[id].link && i != id;
    }
  }

  /** After every event of the run the active slots' descriptors are distinct. */
  ghost predicate DistinctThroughout(slots: nat, rs: seq<Ready>)
    requires Run(slots, rs).Some?
  {
    LinksDistinct(Run(slots, rs).value.players) && (rs != [] ==> DistinctThroughout(slots, rs[..|rs| - 1]))
  }

  lemma {:induction false} RunsStayDistinctIff(slots: nat, rs: seq<Ready>)
    requires Run(slots, rs).Some?
    ensures DistinctThroughout(slots, rs) <==> PoliteRun(slots, rs)
  {
    if rs != [] {
      RunsStayDistinctIff(slots, rs[..|rs| - 1]);
      if DistinctThroughout(slots, rs[..|rs| - 1]) {
        DistinctIffPolite(Run(slots, rs[..|rs| - 1]).value, rs[|rs| - 1]);
      }
    }
  }

  /** Two active slots carry this descriptor. */
  ghost predicate Shares(ps: seq<Player<int>>, fd: int) {
    exists i, j :: 0 <= i < j < |ps| && ps[i].isActive && ps[j].isActive && ps[i].link == fd && ps[j].link == fd
  }

  lemma HangupLeavesOpen(w: World, r: Ready)
    requires Possible(w, r) && SlotsAgree(w.players) && FdsValid(w) && LinksOpen(w) && r.Hangup?
    ensures LinksOpen(Step(w, r)) <==> !Shares(w.players, r.fd)
  {
    var (ps, after) := (w.players, Step(w, r).players);
    var first := SlotOf(ps, r.fd);
    if Shares(ps, r.fd) {
      var i, j :| 0 <= i < j < |ps| && ps[i].isActive && ps[j].isActive && ps[i].link == r.fd && ps[j].link == r.fd;
      assert first != j && after[j].isActive && after[j].link == r.fd;
    } else {
      assert first < |ps| ==> ps[first].isActive && ps[first].link == r.fd;
    }
  }

  /** Active slots stay on open descriptors through every event but one: the hang-up of a
      connection that holds two slots, since free_player stops at the first match. */
  lemma OpenIffNoSharedHangup(w: World, r: Ready)
    requires Possible(w, r) && SlotsAgree(w.players) && FdsValid(w) && LinksOpen(w)
    ensures LinksOpen(Step(w, r)) <==> !(r.Hangup? && Shares(w.players, r.fd))
  {
    if r.Hangup? {
      HangupLeavesOpen(w, r);
    }
  }

  /** No connection that holds two slots hangs up. */
  ghost predicate NoSharedHangup(slots: nat, rs: seq<Ready>)
    requires Run(slots, rs).Some?
  {
    rs != [] ==>
      && NoSharedHangup(slots, rs[..|rs| - 1])
      && var r := rs[|rs| - 1];
         !(r.Hangup? && Shares(Run(slots, rs[..|rs| - 1]).value.players, r.fd))
  }

  /** After every event of the run every active slot's descriptor is open. */
  ghost predicate OpenThroughout(slots: nat, rs: seq<Ready>)
    requires Run(slots, rs).Some?
  {
    LinksOpen(Run(slots, rs).value) && (rs != [] ==> OpenThroughout(slots, rs[..|rs| - 1]))
  }

  lemma {:induction false} RunsStayOpenIff(slots: nat, rs: seq<Ready>)
    requires Run(slots, rs).Some?
    ensures OpenThroughout(slots, rs) <==> NoSharedHangup(slots, rs)
  {
    if rs != [] {
      RunsStayOpenIff(slots, rs[..|rs| - 1]);
      if OpenThroughout(slots, rs[..|rs| - 1]) {
        ActiveIsLinked(slots, rs[..|rs| - 1]);
        OpenIffNoSharedHangup(Run(slots, rs[..|rs| - 1]).value, rs[|rs| - 1]);
      }
    }
  }

  /** The packets that have reached connection c. */
  function SentTo(sent: seq<Send<nat>>, c: nat): seq<Packet> {
    if sent == [] then []
    else
      var last := sent[|sent| - 1];
      SentTo(sent[..|sent| - 1], c) + if last.ToTcp? && last.to == c then [last.pkt] else []
  }

  lemma {:induction false} SentToAppend(a: seq<Send<nat>>, b: seq<Send<nat>>, c: nat)
    ensures SentTo(a + b, c) == SentTo(a, c) + SentTo(b, c)
  {
    if b == [] {
      assert a + b == a;
    } else {
      SentToAppend(a, b[..|b| - 1], c);
      assert (a + b)[..|a + b| - 1] == a + b[..|b| - 1];
    }
  }

  /** What of these sends arrives at connection c. */
  function Arriving(sends: seq<Send<int>>, open: map<int, nat>, c: nat): seq<Packet> {
    SentTo(Resolve(sends, open), c)
  }

  lemma {:induction false} ResolveAppend(a: seq<Send<int>>, b: seq<Send<int>>, open: map<int, nat>)
    ensures Resolve(a + b, open) == Resolve(a, open) + Resolve(b, open)
  {
    if b == [] {
      assert a + b == a;
    } else {
      ResolveAppend(a, b[..|b| - 1], open);
      assert (a + b)[..|a + b| - 1] == a + b[..|b| - 1];
    }
  }

  lemma ArrivingAppend(a: seq<Send<int>>, b: seq<Send<int>>, open: map<int, nat>, c: nat)
    ensures Arriving(a + b, open, c) == Arriving(a, open, c) + Arriving(b, open, c)
  {
    ResolveAppend(a, b, open);
    SentToAppend(Resolve(a, open), Resolve(b, open), c);
  }

  lemma ArrivingOne(fd: int, pkt: Packet, open: map<int, nat>, c: nat)
    ensures Arriving([ToTcp(fd, pkt)], open, c) == if fd in open && open[fd] == c then [pkt] else []
  {
    var one: seq<Send<int>> := [ToTcp(fd, pkt)];
    assert one[..0] == [];
    if fd in open {
      var there: seq<Send<nat>> := [ToTcp(open[fd], pkt)];
      assert there[..0] == [];
      assert Resolve(one, open) == there;
      assert SentTo(there, c) == SentTo([], c) + if open[fd] == c then [pkt] else [];
    } else {
      assert Resolve(one, open) == [];
    }
  }

  /** Connection c is logged in: some active slot's descriptor is c's. */
  ghost predicate LoggedIn(ps: seq<Player<int>>, open: map<int, nat>, c: nat) {
    exists i :: 0 <= i < |ps| && ps[i].isActive && ps[i].link in open && open[ps[i].link] == c
  }

  lemma LoggedInSplits(ps: seq<Player<int>>, open: map<int, nat>, c: nat)
    requires ps != []
    ensures var p := ps[|ps| - 1];
            LoggedIn(ps, open, c) <==>
            LoggedIn(ps[..|ps| - 1], open, c) || (p.isActive && p.link in open && open[p.link] == c)
  {
    var front := ps[..|ps| - 1];
    if LoggedIn(front, open, c) {
      var i :| 0 <= i < |front| && front[i].isActive && front[i].link in open && open[front[i].link] == c;
      assert ps[i] == front[i];
    }
  }

  /** When the active descriptors are distinct, a TCP broadcast reaches every logged-in
      connection exactly once and no other one. */
  lemma {:induction false} CastReachesEachOnce(ps: seq<Player<int>>, pkt: Packet, open: map<int, nat>, c: nat)
    requires SlotsAgree(ps) && LinksDistinct(ps)
    requires forall a, b :: a in open && b in open && open[a] == open[b] ==> a == b
    ensures Arriving(TcpCast(ps, pkt, NO_FD), open, c) == if LoggedIn(ps, open, c) then [pkt] else []
  {
    if ps != [] {
      var front := ps[..|ps| - 1];
      var p := ps[|ps| - 1];
      CastReachesEachOnce(front, pkt, open, c);
      LoggedInSplits(ps, open, c);
      if p.isActive {
        ArrivingAppend(TcpCast(front, pkt, NO_FD), [ToTcp(p.link, pkt)], open, c);
        ArrivingOne(p.link, pkt, open, c);
        assert TcpCast(ps, pkt, NO_FD) == TcpCast(front, pkt, NO_FD) + [ToTcp(p.link, pkt)];
      } else {
        assert TcpCast(ps, pkt, NO_FD) == TcpCast(front, pkt, NO_FD);
      }
    }
  }

  lemma DatagramArrivesNowhere(addr: Address, pkt: Packet, open: map<int, nat>, c: nat)
    ensures Arriving([ToUdp(addr, pkt)], open, c) == []
  {
    var one: seq<Send<int>>, there: seq<Send<nat>> := [ToUdp(addr, pkt)], [ToUdp(addr, pkt)];
    assert one[..0] == [] && there[..0] == [];
    assert Resolve(one, open) == Resolve([], open) + there == there;
    assert SentTo(there, c) == SentTo([], c) + [];
  }

  lemma {:induction false} DatagramsAreNotTcp(ps: seq<Player<int>>, pkt: Packet, open: map<int, nat>, c: nat)
    ensures Arriving(UdpCast(ps, pkt), open, c) == []
  {
    if ps != [] {
      var p := ps[|ps| - 1];
      DatagramsAreNotTcp(ps[..|ps| - 1], pkt, open, c);
      if p.isActive && p.udpAddr.Some? {
        var one: seq<Send<int>> := [ToUdp(p.udpAddr.value, pkt)];
        ArrivingAppend(UdpCast(ps[..|ps| - 1], pkt), one, open, c);
        DatagramArrivesNowhere(p.udpAddr.value, pkt, open, c);
        assert UdpCast(ps, pkt) == UdpCast(ps[..|ps| - 1], pkt) + one;
      } else {
        assert UdpCast<int>(ps, pkt) == UdpCast(ps[..|ps| - 1], pkt);
      }
    }
  }

  /** Connection c has been sent something. */
  predicate Answered(w: World, c: nat) {
    SentTo(w.sent, c) != []
  }

  /** Active slots are on open descriptors, and every logged-in connection has been answered. */
  ghost predicate AnsweredInv(w: World) {
    && SlotsAgree(w.players) && FdsValid(w) && LinksOpen(w)
    && forall c: nat :: LoggedIn(w.players, w.open, c) ==> Answered(w, c)
  }

  ghost predicate PoliteInv(w: World) {
    AnsweredInv(w) && LinksDistinct(w.players)
  }

  /** The reply to a granted login. */
  function LoginReply(w: World, r: Ready): Packet
    requires Grants(w, r)
  {
    r.pkt.(playerId := LowestFree(w.players))
  }

  /** No event logs in a connection that neither was logged in nor was granted a login. */
  lemma SameLogins(w: World, r: Ready, c: nat)
    requires Possible(w, r) && !(Grants(w, r) && w.open[r.fd] == c)
    ensures LoggedIn(Handle(w.players, r).players, w.open, c) ==> LoggedIn(w.players, w.open, c)
    ensures Grants(w, r) && LoggedIn(w.players, w.open, c) ==>
              LoggedIn(Handle(w.players, r).players, w.open, c)
  {
    var after := Handle(w.players, r).players;
    if LoggedIn(after, w.open, c) {
      var i :| 0 <= i < |after| && after[i].isActive && after[i].link in w.open && w.open[after[i].link] == c;
      assert w.players[i].isActive && w.players[i].link == after[i].link;
    }
    if Grants(w, r) && LoggedIn(w.players, w.open, c) {
      var i :| && 0 <= i < |w.players| && w.players[i].isActive
               && w.players[i].link in w.open && w.open[w.players[i].link] == c;
      assert after[i] == w.players[i];
    }
  }

  /** The broadcast of a granted login reaches the newcomer and everyone logged in. */
  lemma LoginCast(w: World, r: Ready, c: nat)
    requires PoliteInv(w) && Possible(w, r) && Polite(w, r) && Grants(w, r)
    ensures Arriving(TcpCast(Handle(w.players, r).players, LoginReply(w, r), NO_FD), w.open, c)
         == if w.open[r.fd] == c || LoggedIn(w.players, w.open, c) then [LoginReply(w, r)] else []
  {
    var seated := Handle(w.players, r).players;
    var id := LowestFree(w.players);
    DistinctIffPolite(w, r);
    CastReachesEachOnce(seated, LoginReply(w, r), w.open, c);
    if w.open[r.fd] == c {
      assert seated[id].link == r.fd && seated[id].isActive;
    } else {
      SameLogins(w, r, c);
    }
  }

  /** A granted login answers its own connection first, then tells everyone logged in. */
  lemma LoginSends(w: World, r: Ready, c: nat)
    requires PoliteInv(w) && Possible(w, r) && Polite(w, r) && Grants(w, r)
    ensures Arriving(Handle(w.players, r).sends, w.open, c)
         == if w.open[r.fd] == c then [LoginReply(w, r), LoginReply(w, r)]
            else if LoggedIn(w.players, w.open, c) then [LoginReply(w, r)] else []
  {
    var resp := LoginReply(w, r);
    var cast := TcpCast(Handle(w.players, r).players, resp, NO_FD);
    ArrivingAppend([ToTcp(r.fd, resp)], cast, w.open, c);
    ArrivingOne(r.fd, resp, w.open, c);
    LoginCast(w, r, c);
  }

  /** A broadcast reaches a connection if and only if it is logged in. */
  lemma {:induction false} CastReachesTheLoggedIn(ps: seq<Player<int>>, pkt: Packet, open: map<int, nat>, c: nat)
    requires NO_FD !in open
    ensures Arriving(TcpCast(ps, pkt, NO_FD), open, c) != [] <==> LoggedIn(ps, open, c)
  {
    if ps == [] {
      assert Resolve([], open) == [];
    } else {
      var (front, p) := (ps[..|ps| - 1], ps[|ps| - 1]);
      CastReachesTheLoggedIn(front, pkt, open, c);
      LoggedInSplits(ps, open, c);
      if p.isActive && p.link != NO_FD {
        ArrivingAppend(TcpCast(front, pkt, NO_FD), [ToTcp(p.link, pkt)], open, c);
        ArrivingOne(p.link, pkt, open, c);
        assert TcpCast(ps, pkt, NO_FD) == TcpCast(front, pkt, NO_FD) + [ToTcp(p.link, pkt)];
      } else {
        assert TcpCast(ps, pkt, NO_FD) == TcpCast(front, pkt, NO_FD);
      }
    }
  }

  /** The first packet a granted login sends its own connection is the reply. */
  lemma OwnLoginSends(w: World, r: Ready)
    requires Possible(w, r) && Grants(w, r)
    ensures var sent := Arriving(Handle(w.players, r).sends, w.open, w.open[r.fd]);
            sent != [] && sent[0] == LoginReply(w, r)
  {
    var resp := LoginReply(w, r);
    ArrivingAppend([ToTcp(r.fd, resp)], TcpCast(Handle(w.players, r).players, resp, NO_FD), w.open, w.open[r.fd]);
    ArrivingOne(r.fd, resp, w.open, w.open[r.fd]);
  }

  /** An event sends nothing to a connection that is not logged in, but for its own login. */
  lemma OtherSends(w: World, r: Ready, c: nat)
    requires FdsValid(w) && Possible(w, r) && !(Grants(w, r) && w.open[r.fd] == c)
    ensures Arriving(Handle(w.players, r).sends, w.open, c) != [] ==> LoggedIn(w.players, w.open, c)
  {
    var after := Handle(w.players, r).players;
    SameLogins(w, r, c);
    match r
    case Datagram(pkt, _) => DatagramsAreNotTcp(after, pkt, w.open, c);
    case Received(fd, pkt) =>
      if Grants(w, r) {
        var resp := LoginReply(w, r);
        ArrivingAppend([ToTcp(fd, resp)], TcpCast(after, resp, NO_FD), w.open, c);
        ArrivingOne(fd, resp, w.open, c);
        CastReachesTheLoggedIn(after, resp, w.open, c);
      } else {
        CastReachesTheLoggedIn(after, pkt, w.open, c);
      }
    case _ =>
  }

  lemma StepSends(w: World, r: Ready, c: nat)
    requires Possible(w, r)
    ensures SentTo(Step(w, r).sent, c)
         == SentTo(w.sent, c) + Arriving(Handle(w.players, r).sends, w.open, c)
  {
    SentToAppend(w.sent, Resolve(Handle(w.players, r).sends, w.open), c);
  }

  lemma StepKeepsAnswered(w: World, r: Ready, c: nat)
    requires AnsweredInv(w) && Possible(w, r) && LoggedIn(Step(w, r).players, Step(w, r).open, c)
    ensures Answered(Step(w, r), c)
  {
    var t := Step(w, r);
    StepSends(w, r, c);
    if Grants(w, r) && w.open[r.fd] == c {
      OwnLoginSends(w, r);
    } else {
      var i :| && 0 <= i < |t.players| && t.players[i].isActive
               && t.players[i].link in t.open && t.open[t.players[i].link] == c;
      if r.NewConnection? {
        assert t.players[i].link in w.open;
      }
      assert LoggedIn(t.players, w.open, c);
      SameLogins(w, r, c);
    }
  }

  lemma StepKeepsAnsweredInv(w: World, r: Ready)
    requires AnsweredInv(w) && Possible(w, r) && !(r.Hangup? && Shares(w.players, r.fd))
    ensures AnsweredInv(Step(w, r))
  {
    var t := Step(w, r);
    OpenIffNoSharedHangup(w, r);
    StepKeepsAgreement(w, r);
    forall c: nat | LoggedIn(t.players, t.open, c) ensures Answered(t, c) {
      StepKeepsAnswered(w, r, c);
    }
  }

  lemma OnlyOpenHearsOne(send: Send<int>, open: map<int, nat>, c: nat)
    requires forall fd :: fd in open ==> open[fd] != c
    ensures Arriving([send], open, c) == []
  {
    if send.ToTcp? {
      ArrivingOne(send.to, send.pkt, open, c);
    } else {
      DatagramArrivesNowhere(send.addr, send.pkt, open, c);
    }
  }

  /** What is sent goes to open connections. */
  lemma {:induction false} OnlyOpenHear(sends: seq<Send<int>>, open: map<int, nat>, c: nat)
    requires forall fd :: fd in open ==> open[fd] != c
    ensures Arriving(sends, open, c) == []
  {
    if sends == [] {
      assert Resolve([], open) == [];
    } else {
      var front, last := sends[..|sends| - 1], sends[|sends| - 1];
      OnlyOpenHear(front, open, c);
      OnlyOpenHearsOne(last, open, c);
      ArrivingAppend(front, [last], open, c);
      assert sends == front + [last];
    }
  }

  /** A connection not yet accepted has been sent nothing. */
  lemma {:induction false} NothingSentBeforeAccept(slots: nat, rs: seq<Ready>, c: nat)
    requires Run(slots, rs).Some? && c >= Run(slots, rs).value.conns
    ensures !Answered(Run(slots, rs).value, c)
  {
    if rs != [] {
      var w := Run(slots, rs[..|rs| - 1]).value;
      NothingSentBeforeAccept(slots, rs[..|rs| - 1], c);
      ActiveIsLinked(slots, rs[..|rs| - 1]);
      StepSends(w, rs[|rs| - 1], c);
      OnlyOpenHear(Handle(w.players, rs[|rs| - 1]).sends, w.open, c);
    }
  }

  lemma {:induction false} RunsKeepAnswered(slots: nat, rs: seq<Ready>)
    requires Run(slots, rs).Some? && NoSharedHangup(slots, rs)
    ensures AnsweredInv(Run(slots, rs).value)
  {
    if rs != [] {
      RunsKeepAnswered(slots, rs[..|rs| - 1]);
      StepKeepsAnsweredInv(Run(slots, rs[..|rs| - 1]).value, rs[|rs| - 1]);
    }
  }

  /** Polite clients never share, so their hang-ups leave nothing behind. */
  lemma {:induction false} PoliteRunsKeepInv(slots: nat, rs: seq<Ready>)
    requires Run(slots, rs).Some? && PoliteRun(slots, rs)
    ensures PoliteInv(Run(slots, rs).value) && NoSharedHangup(slots, rs)
  {
    if rs != [] {
      var w := Run(slots, rs[..|rs| - 1]).value;
      PoliteRunsKeepInv(slots, rs[..|rs| - 1]);
      assert rs[|rs| - 1].Hangup? ==> !Shares(w.players, rs[|rs| - 1].fd);
      StepKeepsAnsweredInv(w, rs[|rs| - 1]);
      DistinctIffPolite(w, rs[|rs| - 1]);
    }
  }

  /** The k-th event of the run is connection c's own granted login, c had been sent nothing
      before it, and right after it the granted slot is c's. */
  ghost predicate FirstAnswered(slots: nat, rs: seq<Ready>, c: nat, k: nat, first: Packet) {
    && k < |rs| && Run(slots, rs[..k]).Some? && Possible(Run(slots, rs[..k]).value, rs[k])
    && var w := Run(slots, rs[..k]).value;
    && Grants(w, rs[k]) && w.open[rs[k].fd] == c
    && SentTo(w.sent, c) == []
    && first == LoginReply(w, rs[k])
    && var p := Step(w, rs[k]).players[LowestFree(w.players)];
    && p.isActive && p.link == rs[k].fd
  }

  /** An event that sends a connection its first packet is that connection's own login. */
  lemma FirstSendIsOwnLogin(w: World, r: Ready, c: nat)
    requires AnsweredInv(w) && Possible(w, r) && !Answered(w, c) && Answered(Step(w, r), c)
    ensures Grants(w, r) && w.open[r.fd] == c && SentTo(Step(w, r).sent, c)[0] == LoginReply(w, r)
  {
    StepSends(w, r, c);
    if Grants(w, r) && w.open[r.fd] == c {
      OwnLoginSends(w, r);
    } else {
      OtherSends(w, r, c);
    }
  }

  /** As long as no connection that holds two slots hangs up, the first packet any connection is
      ever sent is the reply to its own login, carrying the id of a slot that is then its own. */
  lemma {:induction false} FirstPacketIsLoginReply(slots: nat, rs: seq<Ready>, c: nat) returns (k: nat)
    requires Run(slots, rs).Some? && NoSharedHangup(slots, rs) && Answered(Run(slots, rs).value, c)
    ensures FirstAnswered(slots, rs, c, k, SentTo(Run(slots, rs).value.sent, c)[0])
  {
    var before, last := rs[..|rs| - 1], rs[|rs| - 1];
    var w := Run(slots, before).value;
    RunsKeepAnswered(slots, before);
    if Answered(w, c) {
      StepSends(w, last, c);
      k := FirstPacketIsLoginReply(slots, before, c);
      assert before[..k] == rs[..k];
    } else {
      FirstSendIsOwnLogin(w, last, c);
      k := |rs| - 1;
    }
  }

  // ---- Clients that are not polite -----------------------------------------------------

  lemma RunStep(slots: nat, rs: seq<Ready>, r: Ready)
    requires Run(slots, rs).Some? && Possible(Run(slots, rs).value, r)
    ensures Run(slots, rs + [r]) == Some(Step(Run(slots, rs).value, r))
  {
    assert (rs + [r])[..|rs|] == rs;
  }

  lemma TwoLogins(login: Packet)
    requires login.kind == LOGIN
    ensures var w := Run(2, [NewConnection(5)] + [Received(5, login)] + [Received(5, login)]);
            && w.Some? && |w.value.players| == 2 && w.value.open == map[5 := 0] && w.value.conns == 1
            && forall i :: 0 <= i < 2 ==> w.value.players[i].isActive && w.value.players[i].link == 5
  {
    var a := [NewConnection(5)];
    assert Run(2, []) == Some(Start(2));
    RunStep(2, [], NewConnection(5));
    assert [] + a == a;
    assert LowestFree(Run(2, a).value.players) == 0;
    RunStep(2, a, Received(5, login));
    var b := a + [Received(5, login)];
    assert LowestFree(Run(2, b).value.players) == 1;
    RunStep(2, b, Received(5, login));
  }

  /** A connection that logs in twice and hangs up leaves a slot active on a closed
      descriptor. */
  lemma SecondLoginLeaksASlot(login: Packet)
    requires login.kind == LOGIN
    ensures var w := Run(2, [NewConnection(5)] + [Received(5, login)] + [Received(5, login)] + [Hangup(5)]);
            && w.Some? && |w.value.players| == 2
            && w.value.players[1].isActive && w.value.players[1].link == 5 && 5 !in w.value.open
            && !w.value.players[0].isActive && w.value.players[0].link == NO_FD && w.value.conns == 1
  {
    TwoLogins(login);
    var c := [NewConnection(5)] + [Received(5, login)] + [Received(5, login)];
    RunStep(2, c, Hangup(5));
    assert SlotOf(Run(2, c).value.players, 5) == 0;
  }

  /** The number is used again, while the slot still carries it. */
  lemma LeakedNumberIsReused(login: Packet)
    requires login.kind == LOGIN
    ensures var w := Run(2, [NewConnection(5)] + [Received(5, login)] + [Received(5, login)] + [Hangup(5)]
                            + [NewConnection(5)]);
            && w.Some? && |w.value.players| == 2 && 5 in w.value.open && w.value.open[5] == 1
            && w.value.players[1].isActive && w.value.players[1].link == 5
            && !w.value.players[0].isActive && w.value.players[0].link == NO_FD
            && SentTo(w.value.sent, 1) == []
  {
    SecondLoginLeaksASlot(login);
    var d := [NewConnection(5)] + [Received(5, login)] + [Received(5, login)] + [Hangup(5)];
    RunStep(2, d, NewConnection(5));
    NothingSentBeforeAccept(2, d, 1);
    StepSends(Run(2, d).value, NewConnection(5), 1);
    assert Arriving([], Run(2, d).value.open, 1) == [];
  }

  /** The leak lasts until the number is used again: then the hang-up of a connection that
      never logged in frees the slot. */
  lemma LeakedSlotGoesToAStranger(login: Packet)
    requires login.kind == LOGIN
    ensures var w := Run(2, [NewConnection(5)] + [Received(5, login)] + [Received(5, login)] + [Hangup(5)]
                            + [NewConnection(5)] + [Hangup(5)]);
            w.Some? && |w.value.players| == 2 && !w.value.players[1].isActive
  {
    LeakedNumberIsReused(login);
    var d := [NewConnection(5)] + [Received(5, login)] + [Received(5, login)] + [Hangup(5)] + [NewConnection(5)];
    RunStep(2, d, Hangup(5));
    assert SlotOf(Run(2, d).value.players, 5) == 1;
  }

  /** Nor is the first packet a connection is sent its login reply then: the one that gets the
      number next hears its own packet before it has logged in. */
  lemma LeakedSlotAnswersAStranger(login: Packet, attack: Packet)
    requires login.kind == LOGIN && attack.kind == ATTACK
    ensures var w := Run(2, [NewConnection(5)] + [Received(5, login)] + [Received(5, login)] + [Hangup(5)]
                            + [NewConnection(5)] + [Received(5, attack)]);
            w.Some? && 5 in w.value.open && w.value.open[5] == 1 && SentTo(w.value.sent, 1) == [attack]
  {
    LeakedNumberIsReused(login);
    var d := [NewConnection(5)] + [Received(5, login)] + [Received(5, login)] + [Hangup(5)] + [NewConnection(5)];
    var w := Run(2, d).value;
    RunStep(2, d, Received(5, attack));
    StepSends(w, Received(5, attack), 1);
    ActiveIsLinked(2, d);
    assert w.players[1].link in w.open && w.open[w.players[1].link] == 1;
    assert LoggedIn(w.players, w.open, 1);
    CastReachesEachOnce(w.players, attack, w.open, 1);
  }
}
