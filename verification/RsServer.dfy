/** The Rust game server's handlers (week13/server.rs), one at a time: the shared vector of
    players is changed in place. A connection's write half is identified by the connection's
    number, so a slot's link is Some(c) or None. */
module RsServer {
  import opened Sequences
  import opened GameTable

  type Link = Option<nat>

  const EMPTY := Player<Link>.Player(0.0, 0.0, 0, false, None, None, NO_NAME)

  /** `i as usize` for an i32: negative numbers become huge. */
  function AsUsize(i: int): (u: int)
    ensures -0x8000_0000 <= i < 0x8000_0000 ==>
              0 <= u < 0x1_0000_0000_0000_0000 && (u - i) % 0x1_0000_0000_0000_0000 == 0
  {
    if i < 0 then i + 0x1_0000_0000_0000_0000 else i
  }

  /** What on_tcp does and returns; `goOn` false ends the connection's thread. */
  datatype Handled = Handled(players: seq<Player<Link>>, sends: seq<Send<Link>>, myId: Option<nat>, goOn: bool)

  function OnTcp(ps: seq<Player<Link>>, pkt: Packet, me: nat, myId: Option<nat>): Handled {
    var pid := AsUsize(pkt.playerId);
    if pkt.kind == LOGIN then
      var id := LowestFree(ps);
      if id == |ps| then Handled(ps, [], myId, true)
      else
        var seated := ps[id := Seated(ps[id], Some(me), pkt.username)];
        var resp := pkt.(playerId := id);
        Handled(seated, [ToTcp(Some(me), resp)] + TcpCast(seated, resp, None), Some(id), true)
    else if pkt.kind == LOGOUT then
      if 0 <= pid < |ps| then
        var left := ps[pid := Vacated(ps[pid], None)];
        Handled(left, TcpCast(left, pkt, None), None, false)
      else Handled(ps, [], myId, false)
    else if pkt.kind == ATTACK || pkt.kind == ITEM then Handled(ps, TcpCast(ps, pkt, None), myId, true)
    else Handled(ps, [], myId, true)
  }

  function OnUdpUsize(ps: seq<Player<Link>>, pkt: Packet, src: Address): Effect<Link> {
    var pid := AsUsize(pkt.playerId);
    if !(0 <= pid < |ps|) || !ps[pid].isActive then Effect(ps, [])
    else
      var moved := ps[pid := ps[pid].(x := pkt.x, y := pkt.y, udpAddr := Some(src))];
      Effect(moved, UdpCast(moved, pkt))
  }

  class Server {
    const players: array<Player<Link>>
    var sent: seq<Send<Link>>

    constructor ()
      ensures fresh(players) && sent == []
      ensures players.Length == 1000
      ensures forall i :: 0 <= i < 1000 ==> players[i] == EMPTY
    {
      players := new Player<Link>[MAX_PLAYERS](_ => EMPTY);
      sent := [];
    }

    method AllocPlayer(write: nat, username: Name) returns (id: Option<nat>)
      modifies players
      ensures var free := LowestFree(old(players[..]));
              && id == (if free < players.Length then Some(free) else None)
              && players[..] == if id.None? then old(players[..])
                                else old(players[..])[free := Seated(old(players[..])[free], Some(write), username)]
    {
      var i := 0;
      while i < players.Length
        invariant 0 <= i <= players.Length
        invariant players[..] == old(players[..])
        invariant forall j :: 0 <= j < i ==> players[j].isActive
      {
        if !players[i].isActive {
          players[i] := players[i].(isActive := true);
          players[i] := players[i].(hp := 100);
          players[i] := players[i].(link := Some(write));
          players[i] := players[i].(username := username);
          return Some(i);
        }
        i := i + 1;
      }
      return None;
    }

    method FreePlayer(id: nat)
      requires id < players.Length
      modifies players
      ensures players[..] == old(players[..])[id := Vacated(old(players[id]), None)]
    {
      players[id] := players[id].(isActive := false);
      players[id] := players[id].(link := None);
    }

    method BroadcastTcp(pkt: Packet)
      modifies this`sent
      ensures sent == old(sent) + TcpCast(players[..], pkt, None)
    {
      for i := 0 to players.Length
        invariant sent == old(sent) + TcpCast(players[..i], pkt, None)
      {
        assert players[..i + 1][..i] == players[..i];
        if players[i].isActive && players[i].link.Some? {
          sent := sent + [ToTcp(players[i].link, pkt)];
        }
      }
      assert players[..players.Length] == players[..];
    }

    method BroadcastUdp(pkt: Packet)
      modifies this`sent
      ensures sent == old(sent) + UdpCast(players[..], pkt)
    {
      for i := 0 to players.Length
        invariant sent == old(sent) + UdpCast(players[..i], pkt)
      {
        assert players[..i + 1][..i] == players[..i];
        if players[i].isActive && players[i].udpAddr.Some? {
          sent := sent + [ToUdp(players[i].udpAddr.value, pkt)];
        }
      }
      assert players[..players.Length] == players[..];
    }

    method TcpPacket(pkt: Packet, write: nat, myId: Option<nat>) returns (id: Option<nat>, goOn: bool)
      modifies this`sent, players
      ensures var h := OnTcp(old(players[..]), pkt, write, myId);
              && players[..] == h.players && sent == old(sent) + h.sends
              && id == h.myId && goOn == h.goOn
    {
      id := myId;
      var pid := AsUsize(pkt.playerId);
      if pkt.kind == LOGIN {
        var slot := AllocPlayer(write, pkt.username);
        if slot.Some? {
          id := slot;
          var resp := pkt.(playerId := slot.value);
          sent := sent + [ToTcp(Some(write), resp)];
          BroadcastTcp(resp);
        }
      } else if pkt.kind == LOGOUT {
        if 0 <= pid < players.Length {
          FreePlayer(pid);
          BroadcastTcp(pkt);
          id := None;
        }
        return id, false;
      } else if pkt.kind == ATTACK {
        BroadcastTcp(pkt);
      } else if pkt.kind == ITEM {
        BroadcastTcp(pkt);
      }
      return id, true;
    }

    method UdpPacket(pkt: Packet, src: Address)
      modifies this`sent, players
      ensures players[..] == OnUdpUsize(old(players[..]), pkt, src).players
      ensures sent == old(sent) + OnUdpUsize(old(players[..]), pkt, src).sends
    {
      var pid := AsUsize(pkt.playerId);
      if !(0 <= pid < players.Length) { return; }
      if !players[pid].isActive { return; }
      players[pid] := players[pid].(x := pkt.x);
      players[pid] := players[pid].(y := pkt.y);
      players[pid] := players[pid].(udpAddr := Some(src));
      BroadcastUdp(pkt);
    }
  }
}
