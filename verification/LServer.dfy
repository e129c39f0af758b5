/** The C game server (week13/lserver.c): a global array of players changed in place by scan
    loops, and one loop over the events that epoll_wait returned. */
module LServer {
  import opened Sequences
  import opened GameTable

  const NO_FD: int := -1
  const EMPTY := Player<int>.Player(0.0, 0.0, 0, false, NO_FD, None, NO_NAME)

  /** strncpy(dst, src, 32): up to the first NUL, the rest filled with NULs. */
  function StrNCpy(src: Name): Name {
    var n := IndexOf(src, '\0');
    src[..n] + seq(NAME_LEN - n, _ => '\0')
  }

  /** 32 bytes are written: those of the source up to its first NUL, and NULs from there on. */
  lemma CopiesUpToTheNul(src: Name)
    ensures |StrNCpy(src)| == 32
    ensures forall i :: 0 <= i < 32 ==> StrNCpy(src)[i] == if OverAt(src, i) then '\0' else src[i]
  {
    OverFromTheNul(src);
  }

  lemma CopyIsTheSameString(src: Name)
    ensures SameString(StrNCpy(src), src)
  {
    var dst := StrNCpy(src);
    CopiesUpToTheNul(src);
    OverFromTheNul(src);
    forall i: nat | i < 32 ensures OverAt(dst, i) <==> OverAt(src, i) {
      if OverAt(src, i) {
        assert dst[..i + 1][i] == '\0';
      } else {
        assert forall j :: 0 <= j <= i ==> dst[..i + 1][j] == src[j] != '\0';
      }
    }
  }

  /** free_player: the first slot that carries this descriptor. */
  function SlotOf(ps: seq<Player<int>>, fd: int): (i: nat)
    ensures i <= |ps|
    ensures forall j :: 0 <= j < i ==> ps[j].link != fd
    ensures i < |ps| ==> ps[i].link == fd
  {
    if ps == [] then 0
    else if ps[0].link == fd then 0
    else 1 + SlotOf(ps[1..], fd)
  }

  function Freed(ps: seq<Player<int>>, fd: int): seq<Player<int>> {
    var i := SlotOf(ps, fd);
    if i < |ps| then ps[i := Vacated(ps[i], NO_FD)] else ps
  }

  function OnTcp(ps: seq<Player<int>>, pkt: Packet, fd: int): Effect<int> {
    var pid := pkt.playerId;
    if pkt.kind == LOGIN then
      var id := LowestFree(ps);
      if id == |ps| then Effect(ps, [])
      else
        var seated := ps[id := Seated(ps[id], fd, StrNCpy(pkt.username))];
        var resp := pkt.(playerId := id);
        Effect(seated, [ToTcp(fd, resp)] + TcpCast(seated, resp, NO_FD))
    else if pkt.kind == LOGOUT then
      if pid < 0 || pid >= |ps| then Effect(ps, [])
      else
        var left := ps[pid := Vacated(ps[pid], NO_FD)];
        Effect(left, TcpCast(left, pkt, NO_FD))
    else if pkt.kind == ATTACK || pkt.kind == ITEM then Effect(ps, TcpCast(ps, pkt, NO_FD))
    else Effect(ps, [])
  }

  /** One ready descriptor as the event loop sees it. */
  datatype Ready =
    | NewConnection(cfd: int)
    | Datagram(pkt: Packet, src: Address)
    | Received(fd: int, pkt: Packet)
    | Hangup(fd: int)

  function Handle(ps: seq<Player<int>>, r: Ready): Effect<int> {
    match r
    case NewConnection(_) => Effect(ps, [])
    case Datagram(pkt, src) => OnUdp(ps, pkt, src)
    case Received(fd, pkt) => OnTcp(ps, pkt, fd)
    case Hangup(fd) => Effect(Freed(ps, fd), [])
  }

  function HandleAll(ps: seq<Player<int>>, batch: seq<Ready>): Effect<int> {
    if batch == [] then Effect(ps, [])
    else
      var before := HandleAll(ps, batch[..|batch| - 1]);
      var last := Handle(before.players, batch[|batch| - 1]);
      Effect(last.players, before.sends + last.sends)
  }

  lemma BatchGrows(ps: seq<Player<int>>, batch: seq<Ready>, i: nat)
    requires i < |batch|
    ensures var before := HandleAll(ps, batch[..i]);
            var last := Handle(before.players, batch[i]);
            HandleAll(ps, batch[..i + 1]) == Effect(last.players, before.sends + last.sends)
  {
    assert batch[..i + 1][..i] == batch[..i];
  }

  class Server {
    const players: array<Player<int>>
    var sent: seq<Send<int>>

    constructor ()
      ensures fresh(players) && sent == []
      ensures players.Length == 1000
      ensures forall i :: 0 <= i < 1000 ==> !players[i].isActive && players[i].link == -1 && players[i].udpAddr == None
    {
      players := new Player<int>[MAX_PLAYERS](_ => EMPTY);
      sent := [];
    }

    method AllocPlayer(fd: int) returns (id: int)
      modifies players
      ensures id == (if LowestFree(old(players[..])) < players.Length then LowestFree(old(players[..])) else -1)
      ensures players[..] == if id < 0 then old(players[..])
                             else old(players[..])[id := Seated(old(players[id]), fd, old(players[id]).username)]
    {
      var i := 0;
      while i < players.Length
        invariant 0 <= i <= players.Length
        invariant players[..] == old(players[..])
        invariant forall j :: 0 <= j < i ==> players[j].isActive
      {
        if !players[i].isActive {
          players[i] := players[i].(isActive := true);
          players[i] := players[i].(hp := 100);
          players[i] := players[i].(link := fd);
          return i;
        }
        i := i + 1;
      }
      return -1;
    }

    method FreePlayer(fd: int)
      modifies players
      ensures players[..] == Freed(old(players[..]), fd)
    {
      var i := 0;
      while i < players.Length
        invariant 0 <= i <= players.Length
        invariant players[..] == old(players[..])
        invariant forall j :: 0 <= j < i ==> players[j].link != fd
      {
        if players[i].link == fd {
          players[i] := players[i].(isActive := false);
          players[i] := players[i].(link := NO_FD);
          return;
        }
        i := i + 1;
      }
    }

    method BroadcastTcp(pkt: Packet)
      modifies this`sent
      ensures sent == old(sent) + TcpCast(players[..], pkt, NO_FD)
    {
      var i := 0;
      while i < players.Length
        invariant 0 <= i <= players.Length
        invariant sent == old(sent) + TcpCast(players[..i], pkt, NO_FD)
      {
        assert players[..i + 1][..i] == players[..i];
        if players[i].isActive && players[i].link != NO_FD {
          sent := sent + [ToTcp(players[i].link, pkt)];
        }
        i := i + 1;
      }
      assert players[..i] == players[..];
    }

    method BroadcastUdp(pkt: Packet)
      modifies this`sent
      ensures sent == old(sent) + UdpCast(players[..], pkt)
    {
      var i := 0;
      while i < players.Length
        invariant 0 <= i <= players.Length
        invariant sent == old(sent) + UdpCast(players[..i], pkt)
      {
        assert players[..i + 1][..i] == players[..i];
        if players[i].isActive && players[i].udpAddr.Some? {
          sent := sent + [ToUdp(players[i].udpAddr.value, pkt)];
        }
        i := i + 1;
      }
      assert players[..i] == players[..];
    }

    method TcpPacket(pkt: Packet, fd: int)
      modifies this`sent, players
      ensures players[..] == OnTcp(old(players[..]), pkt, fd).players
      ensures sent == old(sent) + OnTcp(old(players[..]), pkt, fd).sends
    {
      var pid := pkt.playerId;
      if pkt.kind == LOGIN {
        pid := AllocPlayer(fd);
        if pid < 0 { return; }
        players[pid] := players[pid].(username := StrNCpy(pkt.username));
        assert players[..] == OnTcp(old(players[..]), pkt, fd).players;
        var resp := pkt.(playerId := pid);
        sent := sent + [ToTcp(fd, resp)];
        BroadcastTcp(resp);
      } else if pkt.kind == LOGOUT {
        if pid < 0 || pid >= players.Length { return; }
        players[pid] := players[pid].(isActive := false);
        players[pid] := players[pid].(link := NO_FD);
        assert players[..] == OnTcp(old(players[..]), pkt, fd).players;
        BroadcastTcp(pkt);
      } else if pkt.kind == ATTACK || pkt.kind == ITEM {
        BroadcastTcp(pkt);
      }
    }

    method UdpPacket(pkt: Packet, src: Address)
      modifies this`sent, players
      ensures players[..] == OnUdp(old(players[..]), pkt, src).players
      ensures sent == old(sent) + OnUdp(old(players[..]), pkt, src).sends
    {
      var pid := pkt.playerId;
      if pid < 0 || pid >= players.Length || !players[pid].isActive { return; }
      players[pid] := players[pid].(x := pkt.x);
      players[pid] := players[pid].(y := pkt.y);
      players[pid] := players[pid].(udpAddr := Some(src));
      BroadcastUdp(pkt);
    }

    /** The body of the event loop, for one ready descriptor. */
    method Serve(r: Ready)
      modifies this`sent, players
      ensures players[..] == Handle(old(players[..]), r).players
      ensures sent == old(sent) + Handle(old(players[..]), r).sends
    {
      match r
      case NewConnection(_) =>
      case Datagram(pkt, src) => UdpPacket(pkt, src);
      case Received(fd, pkt) => TcpPacket(pkt, fd);
      case Hangup(fd) => FreePlayer(fd);
    }

    /** The event loop's inner loop: one batch of ready descriptors. */
    method ServeBatch(batch: seq<Ready>)
      modifies this`sent, players
      ensures players[..] == HandleAll(old(players[..]), batch).players
      ensures sent == old(sent) + HandleAll(old(players[..]), batch).sends
    {
      ghost var (was, before) := (players[..], sent);
      for i := 0 to |batch|
        invariant players[..] == HandleAll(was, batch[..i]).players
        invariant sent == before + HandleAll(was, batch[..i]).sends
      {
        BatchGrows(was, batch, i);
        ghost var last := Handle(players[..], batch[i]).sends;
        Associative(before, HandleAll(was, batch[..i]).sends, last);
        Serve(batch[i]);
      }
      assert batch[..|batch|] == batch;
    }
  }
}
