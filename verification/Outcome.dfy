/** One peer of the file server alone: how recv cuts the data into chunks makes no difference. Two
    runs on the same bytes and the same inputs that cannot go on have come to the same place. */
module Outcome {
  import opened Sequences
  import opened Session
  import opened Solo
  import FileClient
  import FileServer
  import Upload

  /** Where a run has got to, and how many of its inputs it has taken. */
  datatype Place = Place(state: State, used: nat)

  /** The peer's next event when it receives file data byte by byte. */
  function NextEvent(peer: Peer, p: Place, inputs: seq<Event>): Option<Event> {
    var input := if p.used < |inputs| then Some(inputs[p.used]) else None;
    if peer.ServerSide? then
      match p.state.server
      case SLoop => input
      case SSend(_, _) => Some(ServerSends)
      case SSize(_) => Some(ServerReadsSize)
      case SData(_, size, received) =>
        Some(if Upload.ToRead(size, received) == 0 then ServerGivesUp else ServerReceives(1))
      case SClosed => None
    else
      match p.state.client
      case CInput => input
      case CSize(_, _) => Some(ClientSendsSize)
      case CData(_, _, _) => Some(ClientSendsChunk)
      case CClosed => None
      case _ => Some(ClientReads)
  }

  function Moved(p: Place, e: Event): Place
    requires Enabled(p.state, e)
  {
    Place(Apply(p.state, e), if IsInput(e) then p.used + 1 else p.used)
  }

  /** The event is no input, or the one whose turn it is. */
  predicate InTurn(p: Place, inputs: seq<Event>, e: Event) {
    IsInput(e) ==> p.used < |inputs| && inputs[p.used] == e
  }

  function Next(peer: Peer, p: Place, inputs: seq<Event>): Option<Place> {
    var e := NextEvent(peer, p, inputs);
    if e.Some? && By(peer, e.value) && Enabled(p.state, e.value) then
      Some(Moved(p, e.value))
    else None
  }

  function Mover(peer: Peer, inputs: seq<Event>): Place -> Option<Place> {
    p => Next(peer, p, inputs)
  }

  /** Where the byte-by-byte run is after n steps. */
  function Steps<T>(move: T -> Option<T>, start: T, n: nat): Option<T> {
    if n == 0 then Some(start)
    else
      var before := Steps(move, start, n - 1);
      if before.Some? then move(before.value) else None
  }

  /** The end of such a run, if it has one, is its last place. */
  lemma {:induction false} EndIsLast<T>(move: T -> Option<T>, start: T, n: nat, m: nat)
    requires Steps(move, start, n).Some? && move(Steps(move, start, n).value).None?
    requires Steps(move, start, m).Some?
    ensures m <= n
    decreases m
  {
    if m > n {
      EndIsLast(move, start, n, m - 1);
    }
  }

  /** A transfer under way is not complete. */
  predicate Incomplete(s: State) {
    s.server.SData? ==> s.server.received < s.server.size
  }

  /** The cast of what is left is never more than what is left. */
  lemma CastIsNoMore(size: int, received: nat)
    requires received < size
    ensures Upload.ToRead(size, received) <= size - received
    ensures Upload.ToRead(size, received) > 0 ==>
              Upload.ToRead(size, received + 1) >= Upload.ToRead(size, received) - 1
  {
    if Upload.ToRead(size, received) > 0 {
      Upload.ToIntShifts(size - received, 1);
    }
  }

  /** A chunk of n bytes is its first byte and then a chunk of n - 1. */
  lemma ChunkSplits(s: State, n: nat)
    requires Incomplete(s) && Enabled(s, ServerReceives(n)) && n > 1
    ensures Enabled(s, ServerReceives(1)) && Upload.ToRead(s.server.size, s.server.received) != 0
    ensures var t := Apply(s, ServerReceives(1));
            && Incomplete(t) && Enabled(t, ServerReceives(n - 1))
            && Apply(t, ServerReceives(n - 1)) == Apply(s, ServerReceives(n))
  {
    var SData(path, size, received) := s.server;
    CastIsNoMore(size, received);
    var t := Apply(s, ServerReceives(1));
    assert t.server == SData(path, size, received + 1) && t.c2s == s.c2s[1..];
    assert s.c2s[1..][n - 1..] == s.c2s[n..];
    assert s.c2s[..1] + s.c2s[1..][..n - 1] == s.c2s[..n];
    Associative(s.files[path], s.c2s[..1], s.c2s[1..][..n - 1]);
    assert t.files[path := s.files[path] + s.c2s[..n]] == s.files[path := s.files[path] + s.c2s[..n]];
  }

  lemma FirstByte(p: Place, inputs: seq<Event>, n: nat)
    requires Incomplete(p.state) && Enabled(p.state, ServerReceives(n))
    ensures Enabled(p.state, ServerReceives(1))
    ensures Next(ServerSide, p, inputs) == Some(Place(Apply(p.state, ServerReceives(1)), p.used))
    ensures n > 1 ==>
              var t := Apply(p.state, ServerReceives(1));
              && Incomplete(t) && Enabled(t, ServerReceives(n - 1))
              && Apply(t, ServerReceives(n - 1)) == Apply(p.state, ServerReceives(n))
  {
    if n > 1 {
      ChunkSplits(p.state, n);
    }
  }

  lemma {:induction false} ChunkIsBytes(start: Place, inputs: seq<Event>, k: nat, p: Place, n: nat) returns (m: nat)
    requires Steps(Mover(ServerSide, inputs), start, k) == Some(p)
    requires Incomplete(p.state) && Enabled(p.state, ServerReceives(n))
    ensures Steps(Mover(ServerSide, inputs), start, m) == Some(Place(Apply(p.state, ServerReceives(n)), p.used))
    decreases n
  {
    FirstByte(p, inputs, n);
    m := k + 1;
    if n > 1 {
      m := ChunkIsBytes(start, inputs, m, Place(Apply(p.state, ServerReceives(1)), p.used), n - 1);
    }
  }

  lemma StaysIncomplete(s: State, e: Event)
    requires Incomplete(s) && Enabled(s, e)
    ensures Incomplete(Apply(s, e))
  {
  }

  /** Of all events that are no chunk, a peer has one to choose from: the byte-by-byte run's. */
  lemma NoChoice(peer: Peer, p: Place, inputs: seq<Event>, e: Event)
    requires By(peer, e) && Enabled(p.state, e) && !e.ServerReceives?
    requires InTurn(p, inputs, e)
    ensures NextEvent(peer, p, inputs) == Some(e)
  {
  }

  /** The byte-by-byte run is there after n steps. */
  ghost predicate GetsThere(peer: Peer, start: State, inputs: seq<Event>, n: nat, p: Place) {
    Steps(Mover(peer, inputs), Place(start, 0), n) == Some(p) && Incomplete(p.state)
  }

  /** One event of a run, byte by byte. */
  lemma EventIsSteps(peer: Peer, start: State, inputs: seq<Event>, n: nat, p: Place, e: Event) returns (m: nat)
    requires GetsThere(peer, start, inputs, n, p)
    requires By(peer, e) && Enabled(p.state, e) && InTurn(p, inputs, e)
    ensures GetsThere(peer, start, inputs, m, Moved(p, e))
  {
    StaysIncomplete(p.state, e);
    if e.ServerReceives? {
      m := ChunkIsBytes(Place(start, 0), inputs, n, p, e.n);
    } else {
      NoChoice(peer, p, inputs, e);
      m := n + 1;
    }
  }

  /** Where the run of these events is. */
  function PlaceOf(start: State, es: seq<Event>): Place
    requires After(start, es).Some?
  {
    Place(After(start, es).value, |Inputs(es)|)
  }

  lemma LastEvent(peer: Peer, start: State, inputs: seq<Event>, es: seq<Event>)
    requires es != [] && AllBy(peer, es) && After(start, es).Some? && Inputs(es) <= inputs
    ensures var front, e := es[..|es| - 1], es[|es| - 1];
            && AllBy(peer, front) && By(peer, e) && After(start, front).Some? && Enabled(After(start, front).value, e)
            && Inputs(front) <= inputs && InTurn(PlaceOf(start, front), inputs, e)
            && PlaceOf(start, es) == Moved(PlaceOf(start, front), e)
  {
  }

  /** Every run gets to where some byte-by-byte run gets. */
  lemma {:induction false} RunIsByteByByte(peer: Peer, start: State, inputs: seq<Event>, es: seq<Event>)
    returns (n: nat)
    requires AllBy(peer, es) && After(start, es).Some? && Inputs(es) <= inputs && Incomplete(start)
    ensures GetsThere(peer, start, inputs, n, PlaceOf(start, es))
  {
    if es == [] {
      n := 0;
    } else {
      LastEvent(peer, start, inputs, es);
      n := RunIsByteByByte(peer, start, inputs, es[..|es| - 1]);
      n := EventIsSteps(peer, start, inputs, n, PlaceOf(start, es[..|es| - 1]), es[|es| - 1]);
    }
  }

  /** The peer cannot go on; the client may also be waiting for its user. */
  predicate Over(peer: Peer, t: State) {
    if peer.ServerSide? then FileServer.Blocked(t) else FileClient.Blocked(t)
  }

  lemma OverIsTheEnd(peer: Peer, p: Place, inputs: seq<Event>)
    requires Over(peer, p.state) && (peer.ClientSide? && p.state.client.CInput? ==> p.used == |inputs|)
    ensures Next(peer, p, inputs).None?
  {
  }

  /** Two runs of one peer on the same bytes, the second on the inputs of the first and perhaps
      more: when neither can go on, they have taken the same inputs and come to the same state. */
  lemma SameOutcome(peer: Peer, start: State, a: seq<Event>, b: seq<Event>)
    requires Incomplete(start) && AllBy(peer, a) && AllBy(peer, b)
    requires After(start, a).Some? && Over(peer, After(start, a).value)
    requires After(start, b).Some? && Over(peer, After(start, b).value)
    requires Inputs(a) <= Inputs(b)
    requires peer.ClientSide? && After(start, a).value.client.CInput? ==> Inputs(a) == Inputs(b)
    ensures After(start, a) == After(start, b) && Inputs(a) == Inputs(b)
  {
    var inputs := Inputs(b);
    var n := RunIsByteByByte(peer, start, inputs, a);
    var m := RunIsByteByByte(peer, start, inputs, b);
    OverIsTheEnd(peer, PlaceOf(start, a), inputs);
    OverIsTheEnd(peer, PlaceOf(start, b), inputs);
    EndIsLast(Mover(peer, inputs), Place(start, 0), n, m);
    EndIsLast(Mover(peer, inputs), Place(start, 0), m, n);
  }

  // ---- Any cut is possible -------------------------------------------------------------------

  function Receives(cuts: seq<nat>): seq<Event> {
    seq(|cuts|, i requires 0 <= i < |cuts| => ServerReceives(cuts[i]))
  }

  /** The server has received this much of an upload. */
  function Received(s: State, n: nat): State
    requires s.server.SData? && s.server.path in s.files && n <= |s.c2s|
  {
    var SData(path, size, received) := s.server;
    s.(c2s := s.c2s[n..], files := s.files[path := s.files[path] + s.c2s[..n]],
       server := if received + n < size then SData(path, size, received + n)
                 else SSend([Upload.UPLOAD_DONE, s.texts.commands], Loop))
  }

  lemma ChunkIsReceived(s: State, n: nat, k: nat)
    requires s.server.SData? && s.server.path in s.files && n + k <= |s.c2s| && 1 <= k <= 4096
    requires s.server.received + n + k <= s.server.size <= 0x7fff_ffff && 0 < n < s.server.size - s.server.received
    ensures Enabled(Received(s, n), ServerReceives(k))
    ensures Apply(Received(s, n), ServerReceives(k)) == Received(s, n + k)
  {
    var SData(path, size, received) := s.server;
    Upload.ToIntBounds(size - received - n);
    assert s.c2s[..n] + s.c2s[n..][..k] == s.c2s[..n + k] && s.c2s[n..][k..] == s.c2s[n + k..];
    Associative(s.files[path], s.c2s[..n], s.c2s[n..][..k]);
    assert Received(s, n).files[path := s.files[path] + s.c2s[..n + k]] == s.files[path := s.files[path] + s.c2s[..n + k]];
  }

  lemma FirstChunkIsReceived(s: State, k: nat)
    requires s.server.SData? && s.server.path in s.files && k <= |s.c2s| && 1 <= k <= 4096
    requires s.server.received + k <= s.server.size <= 0x7fff_ffff
    ensures Enabled(s, ServerReceives(k)) && Apply(s, ServerReceives(k)) == Received(s, k)
  {
    Upload.ToIntBounds(s.server.size - s.server.received);
  }

  lemma SumGrows(cuts: seq<nat>)
    requires cuts != [] && cuts[|cuts| - 1] > 0
    ensures Upload.Sum(cuts) > 0
  {
  }

  lemma AfterOneMore(s: State, es: seq<Event>, t: State, e: Event)
    requires After(s, es) == Some(t) && Enabled(t, e)
    ensures After(s, es + [e]) == Some(Apply(t, e))
  {
    assert (es + [e])[..|es|] == es;
  }

  /** However the connection cuts an upload into chunks of 1 to 4096 bytes, the server can take them
      one after the other; that is the same as taking all at once. */
  lemma {:induction false} AnyCutIsReceived(s: State, cuts: seq<nat>)
    requires s.server.SData? && s.server.path in s.files && cuts != []
    requires forall i :: 0 <= i < |cuts| ==> 1 <= cuts[i] <= 4096
    requires Upload.Sum(cuts) <= |s.c2s| && s.server.received + Upload.Sum(cuts) <= s.server.size <= 0x7fff_ffff
    ensures After(s, Receives(cuts)) == Some(Received(s, Upload.Sum(cuts)))
  {
    var front, k := cuts[..|cuts| - 1], cuts[|cuts| - 1];
    assert Receives(cuts) == Receives(front) + [ServerReceives(k)];
    if front == [] {
      FirstChunkIsReceived(s, k);
      AfterOneMore(s, Receives(front), s, ServerReceives(k));
    } else {
      AnyCutIsReceived(s, front);
      SumGrows(front);
      ChunkIsReceived(s, Upload.Sum(front), k);
      AfterOneMore(s, Receives(front), Received(s, Upload.Sum(front)), ServerReceives(k));
    }
  }
}
