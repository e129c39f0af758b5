/** What the type number of a packet makes the game server do (week13/lserver.c; by Simulation and
    RsSequential the Rust server does the same). */
module Packets {
  import opened GameTable
  import opened LServer

  ghost predicate SomeoneThere(ps: seq<Player<int>>) {
    exists i :: 0 <= i < |ps| && ps[i].isActive && ps[i].link != -1
  }

  /** A broadcast sends something if and only if somebody is there to send it to. */
  lemma {:induction false} CastIsHeard(ps: seq<Player<int>>, pkt: Packet)
    ensures TcpCast(ps, pkt, NO_FD) != [] <==> SomeoneThere(ps)
  {
    if ps != [] {
      var front := ps[..|ps| - 1];
      CastIsHeard(front, pkt);
      if SomeoneThere(front) {
        var i :| 0 <= i < |front| && front[i].isActive && front[i].link != -1;
        assert ps[i].isActive && ps[i].link != -1;
      }
    }
  }

  lemma LowestIff(ps: seq<Player<int>>, i: nat)
    requires i < |ps| && !ps[i].isActive
    ensures LowestFree(ps) == i <==> forall j :: 0 <= j < i ==> ps[j].isActive
  {
  }

  lemma LoginTouchesOne(ps: seq<Player<int>>, pkt: Packet, fd: int, i: nat)
    requires i < |ps| && pkt.kind == 1
    ensures |OnTcp(ps, pkt, fd).players| == |ps|
    ensures var p := OnTcp(ps, pkt, fd).players[i];
            p == if i == LowestFree(ps) then
                   ps[i].(isActive := true, hp := 100, link := fd, username := StrNCpy(pkt.username))
                 else ps[i]
  {
  }

  lemma OthersTakeNothing(ps: seq<Player<int>>, pkt: Packet, fd: int, i: nat)
    requires i < |ps| && !ps[i].isActive && pkt.kind != 1
    ensures |OnTcp(ps, pkt, fd).players| == |ps|
    ensures var p := OnTcp(ps, pkt, fd).players[i];
            !p.isActive && p.x == ps[i].x && p.y == ps[i].y && p.udpAddr == ps[i].udpAddr
  {
  }

  /** A slot is taken by a packet of type 1, when it is the lowest free one, and by nothing else: it
      gets 100 hit points, the connection and its user name, and keeps the rest. */
  lemma TakenIff(ps: seq<Player<int>>, pkt: Packet, fd: int, i: nat)
    requires i < |ps| && !ps[i].isActive
    ensures |OnTcp(ps, pkt, fd).players| == |ps|
    ensures var p := OnTcp(ps, pkt, fd).players[i];
            && (p.isActive <==> pkt.kind == 1 && forall j :: 0 <= j < i ==> ps[j].isActive)
            && (p.isActive ==> p.hp == 100 && p.link == fd && SameString(p.username, pkt.username))
            && p.x == ps[i].x && p.y == ps[i].y && p.udpAddr == ps[i].udpAddr
  {
    LowestIff(ps, i);
    if pkt.kind == 1 {
      LoginTouchesOne(ps, pkt, fd, i);
      CopyIsTheSameString(pkt.username);
    } else {
      OthersTakeNothing(ps, pkt, fd, i);
    }
  }

  /** And given up by a packet of type 2 with its index, and by nothing else. */
  lemma GivenUpIff(ps: seq<Player<int>>, pkt: Packet, fd: int, i: nat)
    requires i < |ps| && ps[i].isActive
    ensures |OnTcp(ps, pkt, fd).players| == |ps|
    ensures var p := OnTcp(ps, pkt, fd).players[i];
            if pkt.kind == 2 && pkt.playerId == i then p == ps[i].(isActive := false, link := -1) else p == ps[i]
  {
  }

  /** A packet is answered with something if and only if it is a login that gets a slot, a logout with
      a slot's index, an attack (4) or an item (5), the last three only when somebody hears it. */
  lemma AnsweredIff(ps: seq<Player<int>>, pkt: Packet, fd: int)
    ensures OnTcp(ps, pkt, fd).sends != [] <==>
            || (pkt.kind == 1 && exists i :: 0 <= i < |ps| && !ps[i].isActive)
            || (pkt.kind == 2 && 0 <= pkt.playerId < |ps| && SomeoneThere(OnTcp(ps, pkt, fd).players))
            || ((pkt.kind == 4 || pkt.kind == 5) && SomeoneThere(ps))
  {
    CastIsHeard(ps, pkt);
    CastIsHeard(OnTcp(ps, pkt, fd).players, pkt);
  }

  /** The reply to a login is the packet itself, with the number of the slot it got. */
  lemma ReplyIsTheLogin(ps: seq<Player<int>>, pkt: Packet, fd: int)
    requires pkt.kind == 1 && LowestFree(ps) < |ps|
    ensures var e := OnTcp(ps, pkt, fd);
            var id := LowestFree(ps);
            && e.sends != []
            && e.sends[0] == ToTcp(fd, Packet(1, id, pkt.x, pkt.y, pkt.targetId, pkt.username, pkt.password))
  {
  }
}
