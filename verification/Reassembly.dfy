/** Packet reassembly in the C# game server (`HandleTcpAsync` in week13/server.cs): reads fill a
    buffer of exactly one packet, however the network cuts the stream. */
module Reassembly {
  import opened Sequences

  const PACKET_SIZE: nat := 84
  const LOGIN := 1
  const LOGOUT := 2
  const LOGGED_OUT := -2

  type Byte = b: int | 0 <= b < 256

  /** The packet's Type field: its first four bytes, little-endian. */
  function KindOf(block: seq<Byte>): int
    requires |block| == PACKET_SIZE
  {
    var u := block[0] as int + 0x100 * (block[1] as int) + 0x1_0000 * (block[2] as int)
             + 0x100_0000 * (block[3] as int);
    if u < 0x8000_0000 then u else u - 0x1_0000_0000
  }

  /** OnTcp's return value. `granted` is what AllocPlayer returns if the packet is a login. */
  function NextId(block: seq<Byte>, myId: int, granted: int): int
    requires |block| == PACKET_SIZE
  {
    if KindOf(block) == LOGIN then if granted < 0 then myId else granted
    else if KindOf(block) == LOGOUT then LOGGED_OUT
    else myId
  }

  /** What one connection's handler does: the packets it hands to OnTcp, in order, and the slot
      it frees on the way out. */
  datatype Outcome = Outcome(packets: seq<seq<Byte>>, freed: Option<int>)

  /** grants(k) is what AllocPlayer returns for the k-th packet. */
  function Handled(stream: seq<Byte>, myId: int, grants: nat -> int, k: nat): Outcome
    decreases |stream|
  {
    if |stream| < PACKET_SIZE then Outcome([], if myId >= 0 then Some(myId) else None)
    else
      var block := stream[..PACKET_SIZE];
      var id := NextId(block, myId, grants(k));
      if id == LOGGED_OUT then Outcome([block], None)
      else
        var more := Handled(stream[PACKET_SIZE..], id, grants, k + 1);
        more.(packets := [block] + more.packets)
  }

  class NetworkStream {
    var rest: seq<Byte>

    constructor (rest: seq<Byte>)
      ensures this.rest == rest
    {
      this.rest := rest;
    }

    /** ReadAsync: at least one byte and as many as the network pleases; 0 at the end. */
    method Read(buf: array<Byte>, offset: nat, count: nat) returns (n: nat)
      requires count > 0 && offset + count <= buf.Length
      modifies this, buf
      ensures n <= count && n <= |old(rest)| && rest == old(rest)[n..]
      ensures n == 0 <==> old(rest) == []
      ensures buf[..offset] == old(buf[..offset]) && buf[offset..offset + n] == old(rest)[..n]
    {
      if rest == [] {
        return 0;
      }
      n :| 1 <= n <= count && n <= |rest|;
      for i := 0 to n
        invariant rest == old(rest)
        invariant buf[..offset] == old(buf[..offset])
        invariant buf[offset..offset + i] == rest[..i]
      {
        buf[offset + i] := rest[i];
        assert buf[offset..offset + i + 1] == buf[offset..offset + i] + [rest[i]];
      }
      rest := rest[n..];
    }
  }

  /** Fills the buffer with the next packet; false when the stream ends first. */
  method FillBuffer(stream: NetworkStream, buf: array<Byte>) returns (full: bool)
    requires buf.Length == PACKET_SIZE
    modifies stream, buf
    ensures full <==> |old(stream.rest)| >= PACKET_SIZE
    ensures full ==> buf[..] == old(stream.rest)[..PACKET_SIZE] && stream.rest == old(stream.rest)[PACKET_SIZE..]
  {
    var read := 0;
    while read < buf.Length
      invariant 0 <= read <= buf.Length && read <= |old(stream.rest)|
      invariant buf[..read] == old(stream.rest)[..read] && stream.rest == old(stream.rest)[read..]
      decreases buf.Length - read
    {
      var n := stream.Read(buf, read, buf.Length - read);
      if n == 0 {
        return false;
      }
      assert buf[..read + n] == buf[..read] + buf[read..read + n];
      read := read + n;
    }
    assert buf[..read] == buf[..];
    return true;
  }

  /** The outcome of a handler that has already handed over some packets. */
  function After(packets: seq<seq<Byte>>, more: Outcome): Outcome {
    more.(packets := packets + more.packets)
  }

  lemma AfterStep(packets: seq<seq<Byte>>, stream: seq<Byte>, myId: int, grants: nat -> int)
    requires |stream| >= PACKET_SIZE
    ensures var block := stream[..PACKET_SIZE];
            var id := NextId(block, myId, grants(|packets|));
            After(packets, Handled(stream, myId, grants, |packets|)) ==
            if id == LOGGED_OUT then Outcome(packets + [block], None)
            else After(packets + [block], Handled(stream[PACKET_SIZE..], id, grants, |packets| + 1))
  {
    var block := stream[..PACKET_SIZE];
    var id := NextId(block, myId, grants(|packets|));
    if id != LOGGED_OUT {
      Associative(packets, [block], Handled(stream[PACKET_SIZE..], id, grants, |packets| + 1).packets);
    }
  }

  /** Whatever the reads return, the outcome depends on the byte stream alone. */
  method HandleTcp(stream: NetworkStream, grants: nat -> int) returns (packets: seq<seq<Byte>>, freed: Option<int>)
    modifies stream
    ensures Outcome(packets, freed) == Handled(old(stream.rest), -1, grants, 0)
  {
    var myId := -1;
    var buf := new Byte[PACKET_SIZE];
    packets := [];
    ghost var all := Handled(stream.rest, -1, grants, 0);
    while true
      invariant fresh(buf)
      invariant all == After(packets, Handled(stream.rest, myId, grants, |packets|))
      decreases |stream.rest|
    {
      ghost var before := stream.rest;
      var full := FillBuffer(stream, buf);
      if !full {
        break;
      }
      AfterStep(packets, before, myId, grants);
      myId := NextId(buf[..], myId, grants(|packets|));
      packets := packets + [buf[..]];
      if myId == LOGGED_OUT {
        break;
      }
    }
    freed := if myId >= 0 then Some(myId) else None;
  }

  function Concat(blocks: seq<seq<Byte>>): seq<Byte> {
    if blocks == [] then [] else blocks[0] + Concat(blocks[1..])
  }

  /** These packets are, one after the other, the first blocks of the stream. */
  ghost predicate FirstBlocks(stream: seq<Byte>, packets: seq<seq<Byte>>) {
    && (forall i :: 0 <= i < |packets| ==> |packets[i]| == PACKET_SIZE)
    && |Concat(packets)| == PACKET_SIZE * |packets| <= |stream|
    && Concat(packets) == stream[..PACKET_SIZE * |packets|]
  }

  lemma OneMoreBlock(stream: seq<Byte>, more: seq<seq<Byte>>)
    requires |stream| >= PACKET_SIZE && FirstBlocks(stream[PACKET_SIZE..], more)
    ensures FirstBlocks(stream, [stream[..PACKET_SIZE]] + more)
  {
    var block, rest := stream[..PACKET_SIZE], stream[PACKET_SIZE..];
    assert ([block] + more)[1..] == more;
    assert stream[..PACKET_SIZE * (|more| + 1)] == block + rest[..PACKET_SIZE * |more|];
  }

  /** The packets handed over are the stream's successive full blocks: none is skipped or cut,
      a logout is the last, and otherwise only an incomplete block is left. */
  lemma {:induction false} PacketsAreTheBlocks(stream: seq<Byte>, myId: int, grants: nat -> int, k: nat)
    requires myId >= -1 && forall i :: grants(i) >= -1
    ensures var packets := Handled(stream, myId, grants, k).packets;
            && FirstBlocks(stream, packets)
            && (forall i :: 0 <= i < |packets| - 1 ==> KindOf(packets[i]) != LOGOUT)
            && (|stream| - PACKET_SIZE * |packets| < PACKET_SIZE
                || (packets != [] && KindOf(packets[|packets| - 1]) == LOGOUT))
    decreases |stream|
  {
    if |stream| >= PACKET_SIZE {
      var block, rest := stream[..PACKET_SIZE], stream[PACKET_SIZE..];
      var id := NextId(block, myId, grants(k));
      if id == LOGGED_OUT {
        OneMoreBlock(stream, []);
        assert [block] + [] == [block];
      } else {
        PacketsAreTheBlocks(rest, id, grants, k + 1);
        OneMoreBlock(stream, Handled(rest, id, grants, k + 1).packets);
      }
    }
  }

  function LastGrant(packets: seq<seq<Byte>>, myId: int, grants: nat -> int, k: nat): Option<int>
    requires forall i :: 0 <= i < |packets| ==> |packets[i]| == PACKET_SIZE
  {
    if packets == [] then if myId >= 0 then Some(myId) else None
    else
      var id := if KindOf(packets[0]) == LOGIN && grants(k) >= 0 then grants(k) else myId;
      LastGrant(packets[1..], id, grants, k + 1)
  }

  /** A slot is freed on the way out exactly when the handler did not end by a logout packet and
      some login on this connection got one; it is the last one granted. */
  lemma {:induction false} LastGrantIsFreed(stream: seq<Byte>, myId: int, grants: nat -> int, k: nat)
    requires myId >= -1 && forall i :: grants(i) >= -1
    ensures var o := Handled(stream, myId, grants, k);
            && (forall i :: 0 <= i < |o.packets| ==> |o.packets[i]| == PACKET_SIZE)
            && if o.packets != [] && KindOf(o.packets[|o.packets| - 1]) == LOGOUT then o.freed == None
               else o.freed == LastGrant(o.packets, myId, grants, k)
    decreases |stream|
  {
    if |stream| >= PACKET_SIZE {
      var block := stream[..PACKET_SIZE];
      var id := NextId(block, myId, grants(k));
      if id != LOGGED_OUT {
        LastGrantIsFreed(stream[PACKET_SIZE..], id, grants, k + 1);
        var more := Handled(stream[PACKET_SIZE..], id, grants, k + 1).packets;
        assert ([block] + more)[1..] == more;
      }
    }
  }

  // ---- Streams of typed packets -----------------------------------------------------------

  /** A packet as its sender means it: the type and the 80 bytes that follow it; and what
      AllocPlayer returns for it if it is a login. */
  datatype Typed = Typed(kind: int, rest: seq<Byte>, granted: int)

  predicate Sendable(p: Typed) {
    -0x8000_0000 <= p.kind < 0x8000_0000 && |p.rest| == 80
  }

  /** A 32-bit int in memory, lowest byte first. */
  function LittleEndian(v: int): seq<Byte>
    requires -0x8000_0000 <= v < 0x8000_0000
  {
    var u := if v < 0 then v + 0x1_0000_0000 else v;
    [u % 256, u / 256 % 256, u / 256 / 256 % 256, u / 256 / 256 / 256]
  }

  function Wire(p: Typed): seq<Byte>
    requires Sendable(p)
  {
    LittleEndian(p.kind) + p.rest
  }

  ghost predicate AllSendable(ps: seq<Typed>) {
    forall i :: 0 <= i < |ps| ==> Sendable(ps[i])
  }

  function Stream(ps: seq<Typed>): seq<Byte>
    requires AllSendable(ps)
  {
    if ps == [] then [] else Wire(ps[0]) + Stream(ps[1..])
  }

  /** The handler reads the type that the sender wrote. */
  lemma KindIsReadBack(p: Typed)
    requires Sendable(p)
    ensures |Wire(p)| == 84 && KindOf(Wire(p)) == p.kind
  {
    var block := Wire(p);
    assert forall i :: 0 <= i < 4 ==> block[i] == LittleEndian(p.kind)[i];
  }

  /** A login, type 1, that got a slot. */
  predicate GotSlot(p: Typed) {
    p.kind == 1 && p.granted >= 0
  }

  /** A logout, type 2, is among them. */
  predicate LogsOut(ps: seq<Typed>) {
    exists i :: 0 <= i < |ps| && ps[i].kind == 2
  }

  /** The slot of the last login that got one; myId when none did. */
  function LastSlot(ps: seq<Typed>, myId: int): int {
    if ps == [] then myId
    else if GotSlot(ps[|ps| - 1]) then ps[|ps| - 1].granted
    else LastSlot(ps[..|ps| - 1], myId)
  }

  lemma {:induction false} LastSlotFromFront(ps: seq<Typed>, myId: int)
    requires ps != []
    ensures LastSlot(ps, myId) == LastSlot(ps[1..], if GotSlot(ps[0]) then ps[0].granted else myId)
  {
    if |ps| > 1 {
      var front := ps[..|ps| - 1];
      LastSlotFromFront(front, myId);
      assert front[1..] == ps[1..][..|ps| - 2];
    }
  }

  lemma LogsOutFromFront(ps: seq<Typed>)
    requires ps != []
    ensures LogsOut(ps) <==> ps[0].kind == 2 || LogsOut(ps[1..])
  {
    if LogsOut(ps[1..]) {
      var i :| 0 <= i < |ps[1..]| && ps[1..][i].kind == 2;
      assert ps[i + 1].kind == 2;
    }
  }

  lemma FrontAndRest(front: seq<Byte>, rest: seq<Byte>)
    ensures (front + rest)[..|front|] == front && (front + rest)[|front|..] == rest
  {
  }

  lemma StreamSplits(ps: seq<Typed>, tail: seq<Byte>)
    requires AllSendable(ps) && ps != []
    ensures var stream := Stream(ps) + tail;
            |stream| >= 84 && stream[..84] == Wire(ps[0]) && stream[84..] == Stream(ps[1..]) + tail
  {
    var rest := Stream(ps[1..]) + tail;
    assert |Wire(ps[0])| == 84;
    Associative(Wire(ps[0]), Stream(ps[1..]), tail);
    assert Stream(ps) + tail == Wire(ps[0]) + rest;
    FrontAndRest(Wire(ps[0]), rest);
  }

  /** The id after a packet other than a logout. */
  function IdAfter(p: Typed, myId: int): int {
    if GotSlot(p) then p.granted else myId
  }

  lemma FirstIsServed(ps: seq<Typed>, tail: seq<Byte>, myId: int, grants: nat -> int, k: nat)
    requires AllSendable(ps) && ps != [] && grants(k) == ps[0].granted && myId >= -1
    ensures var o := Handled(Stream(ps) + tail, myId, grants, k);
            if ps[0].kind == 2 then o.freed == None
            else o.freed == Handled(Stream(ps[1..]) + tail, IdAfter(ps[0], myId), grants, k + 1).freed
  {
    StreamSplits(ps, tail);
    KindIsReadBack(ps[0]);
    assert NextId(Wire(ps[0]), myId, grants(k)) == if ps[0].kind == 2 then LOGGED_OUT else IdAfter(ps[0], myId);
  }

  /** What is freed for these packets. */
  function FreedFor(ps: seq<Typed>, myId: int): Option<int> {
    if LogsOut(ps) || LastSlot(ps, myId) < 0 then None else Some(LastSlot(ps, myId))
  }

  lemma FreedFromFront(ps: seq<Typed>, myId: int)
    requires ps != []
    ensures FreedFor(ps, myId) == if ps[0].kind == 2 then None else FreedFor(ps[1..], IdAfter(ps[0], myId))
  {
    LogsOutFromFront(ps);
    LastSlotFromFront(ps, myId);
  }

  lemma GrantsShift(ps: seq<Typed>, grants: nat -> int, k: nat)
    requires ps != [] && forall i :: 0 <= i < |ps| ==> grants(k + i) == ps[i].granted
    ensures forall i :: 0 <= i < |ps[1..]| ==> grants(k + 1 + i) == ps[1..][i].granted
  {
    forall i | 0 <= i < |ps[1..]| ensures grants(k + 1 + i) == ps[1..][i].granted {
      assert ps[1..][i] == ps[i + 1] && k + 1 + i == k + (i + 1);
    }
  }

  /** Type 1 and only type 1 is a login, 2 and only 2 a logout: a connection that sends no logout
      gives back the slot of its last login that got one, if there was one; after a logout none. */
  lemma {:induction false} TypedPacketsAreServed(ps: seq<Typed>, tail: seq<Byte>, myId: int, grants: nat -> int, k: nat)
    requires AllSendable(ps) && |tail| < 84 && myId >= -1
    requires forall i :: 0 <= i < |ps| ==> grants(k + i) == ps[i].granted
    ensures Handled(Stream(ps) + tail, myId, grants, k).freed == FreedFor(ps, myId)
    decreases |ps|
  {
    if ps == [] {
      assert Stream(ps) + tail == tail;
    } else {
      assert grants(k + 0) == ps[0].granted;
      var rest, id := ps[1..], IdAfter(ps[0], myId);
      FirstIsServed(ps, tail, myId, grants, k);
      FreedFromFront(ps, myId);
      if ps[0].kind != 2 {
        GrantsShift(ps, grants, k);
        TypedPacketsAreServed(rest, tail, id, grants, k + 1);
      }
    }
  }

  /** What HandleTcp does on a connection that sends these packets and then ends. */
  method HandleTyped(stream: NetworkStream, ghost ps: seq<Typed>, ghost tail: seq<Byte>, grants: nat -> int)
    returns (freed: Option<int>)
    requires AllSendable(ps) && |tail| < 84 && stream.rest == Stream(ps) + tail
    requires forall i :: 0 <= i < |ps| ==> grants(i) == ps[i].granted
    modifies stream
    ensures freed == FreedFor(ps, -1)
  {
    TypedPacketsAreServed(ps, tail, -1, grants, 0);
    var packets;
    packets, freed := HandleTcp(stream, grants);
  }
}
