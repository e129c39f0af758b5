/** The player table shared by the two game servers (week13/lserver.c and week13/server.rs):
    the record of a slot, the packet, and the operations both perform on the table.
    `Link` is what a server keeps to reach a player over TCP: a descriptor in C,
    an optional write half in Rust. */
module GameTable {
  import opened Sequences

  const MAX_PLAYERS: nat := 1000
  const NAME_LEN: nat := 32

  type Name = s: seq<char> | |s| == NAME_LEN witness seq(NAME_LEN, _ => '\0')
  type Address = nat

  const LOGIN := 1
  const LOGOUT := 2
  const ATTACK := 4
  const ITEM := 5

  datatype Packet = Packet(
    kind: int, playerId: int, x: real, y: real, targetId: int, username: Name, password: Name)

  datatype Player<Link> = Player(
    x: real, y: real, hp: int, isActive: bool, link: Link, udpAddr: Option<Address>, username: Name)

  datatype Send<To> = ToTcp(to: To, pkt: Packet) | ToUdp(addr: Address, pkt: Packet)

  /** The C string in the name is over at byte i: there is a NUL at or before it. */
  predicate OverAt(name: Name, i: nat)
    requires i < 32
  {
    '\0' in name[..i + 1]
  }

  /** The two hold the same C string: the same bytes up to the first NUL, which is at the same place. */
  ghost predicate SameString(a: Name, b: Name) {
    && (forall i: nat :: i < 32 ==> (OverAt(a, i) <==> OverAt(b, i)))
    && (forall i: nat :: i < 32 && !OverAt(b, i) ==> a[i] == b[i])
  }

  lemma OverFromTheNul(name: Name)
    ensures forall i: nat :: i < 32 ==> (OverAt(name, i) <==> IndexOf(name, '\0') <= i)
  {
    var n := IndexOf(name, '\0');
    forall i: nat | i < 32 ensures OverAt(name, i) <==> n <= i {
      if n <= i {
        assert name[..i + 1][n] == '\0';
      }
    }
  }

  const NO_NAME: Name := seq(NAME_LEN, _ => '\0')

  /** The slot a login gets: the lowest inactive one; |ps| when every slot is active. */
  function LowestFree<L>(ps: seq<Player<L>>): (i: nat)
    ensures i <= |ps|
    ensures forall j :: 0 <= j < i ==> ps[j].isActive
    ensures i < |ps| ==> !ps[i].isActive
  {
    if ps == [] then 0
    else if !ps[0].isActive then 0
    else 1 + LowestFree(ps[1..])
  }

  function Seated<L>(p: Player<L>, link: L, username: Name): Player<L> {
    p.(isActive := true, hp := 100, link := link, username := username)
  }

  function Vacated<L>(p: Player<L>, none: L): Player<L> {
    p.(isActive := false, link := none)
  }

  /** broadcast_tcp: one send per active slot that has a link, in slot order. */
  function TcpCast<L(==)>(ps: seq<Player<L>>, pkt: Packet, none: L): seq<Send<L>> {
    if ps == [] then []
    else
      var p := ps[|ps| - 1];
      TcpCast(ps[..|ps| - 1], pkt, none)
      + if p.isActive && p.link != none then [ToTcp(p.link, pkt)] else []
  }

  /** broadcast_udp: one datagram per active slot whose address is known, in slot order. */
  function UdpCast<L>(ps: seq<Player<L>>, pkt: Packet): seq<Send<L>> {
    if ps == [] then []
    else
      var p := ps[|ps| - 1];
      UdpCast(ps[..|ps| - 1], pkt)
      + if p.isActive && p.udpAddr.Some? then [ToUdp(p.udpAddr.value, pkt)] else []
  }

  /** What handling one event does: the new table and the sends, in order. */
  datatype Effect<L> = Effect(players: seq<Player<L>>, sends: seq<Send<L>>)

  /** on_udp: moves an active player, remembers its address, and tells everyone. */
  function OnUdp<L>(ps: seq<Player<L>>, pkt: Packet, src: Address): Effect<L> {
    var pid := pkt.playerId;
    if pid < 0 || pid >= |ps| || !ps[pid].isActive then Effect(ps, [])
    else
      var moved := ps[pid := ps[pid].(x := pkt.x, y := pkt.y, udpAddr := Some(src))];
      Effect(moved, UdpCast(moved, pkt))
  }
}
