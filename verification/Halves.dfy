/** An interleaved session, seen from either peer: the events of one peer, in order, are a run of
    that peer alone on the bytes the other one sent. What a peer does alone is settled by its
    bytes and inputs (module Outcome), so each peer's code, run by itself on the same bytes and
    inputs, ends in the session's state. */
module Halves {
  import opened Sequences
  import opened Lines
  import opened Session
  import opened Solo
  import FileClient
  import FileServer
  import Outcome
  import Upload

  /** The events of one peer. */
  function Own(peer: Peer, es: seq<Event>): seq<Event> {
    if es == [] then []
    else Own(peer, es[..|es| - 1]) + if By(peer, es[|es| - 1]) then [es[|es| - 1]] else []
  }

  /** What an event puts on the wire. */
  function Sent(s: State, e: Event): string
    requires Enabled(s, e)
  {
    match e
    case ServerSends => Framed(s.server.todo[0])
    case ClientTypes(input, _) =>
      if Classify(input).Load? && Classify(input).name !in s.locals then "" else Framed(input)
    case ClientSendsSize => Upload.SizeFrame(|s.client.content|)
    case ClientSendsChunk =>
      var CData(_, content, sent) := s.client;
      content[sent..if sent + BUF_SIZE < |content| then sent + BUF_SIZE else |content|]
    case _ => ""
  }

  /** Everything one peer has sent in a run. */
  function Output(init: State, es: seq<Event>, peer: Peer): string {
    if es == [] then ""
    else
      var front, e := es[..|es| - 1], es[|es| - 1];
      var before := Run(init, front);
      Output(init, front, peer)
      + if before.Some? && Enabled(before.value, e) && By(peer, e) then Sent(before.value, e) else ""
  }

  // ---- More input behind what there is --------------------------------------------------

  function Longer(peer: Peer, s: State, more: string): State {
    if peer.ServerSide? then s.(c2s := s.c2s + more) else s.(s2c := s.s2c + more)
  }

  lemma LongerIndex(stream: string, more: string)
    ensures IndexOf(stream, LF) < |stream| ==> IndexOf(stream + more, LF) == IndexOf(stream, LF)
    ensures IndexOf(stream, LF) == |stream| ==> IndexOf(stream + more, LF) >= |stream|
  {
    var k, longer := IndexOf(stream, LF), stream + more;
    assert forall i :: 0 <= i < |stream| ==> longer[i] == stream[i];
    if k < |stream| {
      IndexOfFirst(longer, LF, k);
    }
  }

  lemma LongerSlices(stream: string, more: string, i: nat, j: nat)
    requires i <= j <= |stream|
    ensures (stream + more)[..i] == stream[..i] && (stream + more)[j..] == stream[j..] + more
  {
  }

  lemma LongerLine(stream: string, more: string, size: nat)
    requires size > 0 && ReadLine(stream, size).Line?
    ensures var got := ReadLine(stream, size);
            ReadLine(stream + more, size) == Line(got.text, got.rest + more)
  {
    var k := IndexOf(stream, LF);
    LongerIndex(stream, more);
    if k < |stream| && k < size - 1 {
      LongerSlices(stream, more, k, k + 1);
      assert IndexOf(stream + more, LF) == k;
    } else {
      assert IndexOf(stream + more, LF) >= size - 1;
      LongerSlices(stream, more, size - 1, size - 1);
    }
  }

  lemma ServeLonger(s: State, cmd: Command, dirOpens: bool, names: seq<string>, fileOpens: bool, more: string)
    ensures Serve(Longer(ServerSide, s, more), cmd, dirOpens, names, fileOpens)
         == Longer(ServerSide, Serve(s, cmd, dirOpens, names, fileOpens), more)
  {
  }

  lemma CommandReadLonger(s: State, e: Event, more: string)
    requires e.ServerReads? && Enabled(s, e)
    ensures Enabled(Longer(ServerSide, s, more), e)
    ensures Apply(Longer(ServerSide, s, more), e) == Longer(ServerSide, Apply(s, e), more)
  {
    LongerLine(s.c2s, more, BUF_SIZE);
    var Line(buf, rest) := ReadLine(s.c2s, BUF_SIZE);
    ServeLonger(s.(c2s := rest), Classify(UpTo(buf, NUL)), e.dirOpens, e.names, e.fileOpens, more);
  }

  lemma DataLonger(s: State, e: Event, more: string)
    requires e.ServerReceives? && Enabled(s, e)
    ensures Enabled(Longer(ServerSide, s, more), e)
    ensures Apply(Longer(ServerSide, s, more), e) == Longer(ServerSide, Apply(s, e), more)
  {
    assert (s.c2s + more)[..e.n] == s.c2s[..e.n] && (s.c2s + more)[e.n..] == s.c2s[e.n..] + more;
  }

  lemma ServerStepsLonger(s: State, e: Event, more: string)
    requires ByServer(e) && Enabled(s, e)
    ensures Enabled(Longer(ServerSide, s, more), e)
    ensures Apply(Longer(ServerSide, s, more), e) == Longer(ServerSide, Apply(s, e), more)
  {
    if e.ServerReads? {
      CommandReadLonger(s, e, more);
    } else if e.ServerReadsSize? {
      LongerLine(s.c2s, more, Upload.SIZE_BUF);
    } else if e.ServerReceives? {
      DataLonger(s, e, more);
    }
  }

  /** A line from the server changes only where the client is, its files and its history. */
  ghost predicate OnlyClientMoves(s: State, t: State) {
    && t.texts == s.texts && t.server == s.server && t.files == s.files
    && t.c2s == s.c2s && t.s2c == s.s2c && t.down == s.down
  }

  lemma GetMoves(s: State, buf: string)
    requires s.client.CGet?
    ensures OnlyClientMoves(s, ClientTakes(s, buf))
  {
  }

  lemma TakesUpdates(s: State, buf: string)
    ensures OnlyClientMoves(s, ClientTakes(s, buf))
  {
    if s.client.CGet? {
      GetMoves(s, buf);
    }
  }

  lemma GetDepends(t: State, s: State, buf: string)
    requires t.client == s.client && t.locals == s.locals && s.client.CGet?
    ensures var (a, b) := (ClientTakes(t, buf), ClientTakes(s, buf)); a.client == b.client && a.locals == b.locals
  {
  }

  /** And what it makes of them depends on these alone. */
  lemma TakesDepends(t: State, s: State, buf: string)
    requires t.client == s.client && t.locals == s.locals
    ensures var (a, b) := (ClientTakes(t, buf), ClientTakes(s, buf)); a.client == b.client && a.locals == b.locals
  {
    if s.client.CGet? {
      GetDepends(t, s, buf);
    }
  }

  lemma TakesRecords(t: State, s: State, buf: string)
    requires t.client == s.client && t.files == s.files && t.done == s.done
    ensures ClientTakes(t, buf).done == ClientTakes(s, buf).done
  {
  }

  lemma SameMoves(s: State, a: State, b: State, more: string)
    requires OnlyClientMoves(s, a) && OnlyClientMoves(Longer(ClientSide, s, more), b)
    requires a.client == b.client && a.locals == b.locals && a.done == b.done
    ensures b == Longer(ClientSide, a, more)
  {
  }

  lemma TakesLonger(s: State, buf: string, more: string)
    ensures ClientTakes(Longer(ClientSide, s, more), buf) == Longer(ClientSide, ClientTakes(s, buf), more)
  {
    var t := Longer(ClientSide, s, more);
    TakesUpdates(s, buf);
    TakesUpdates(t, buf);
    TakesDepends(t, s, buf);
    TakesRecords(t, s, buf);
    SameMoves(s, ClientTakes(s, buf), ClientTakes(t, buf), more);
  }

  lemma LineReadLonger(s: State, e: Event, more: string)
    requires e.ClientReads? && Enabled(s, e)
    ensures Enabled(Longer(ClientSide, s, more), e)
    ensures Apply(Longer(ClientSide, s, more), e) == Longer(ClientSide, Apply(s, e), more)
  {
    LongerLine(s.s2c, more, BUF_SIZE);
    var Line(buf, rest) := ReadLine(s.s2c, BUF_SIZE);
    TakesLonger(s.(s2c := rest, down := if s.down == [] then [] else s.down[1..]), buf, more);
  }

  /** The user's line changes only where the client is and what it has sent. */
  lemma TypedUpdates(s: State, input: string, outputOpens: bool)
    requires Sendable(input)
    ensures var t := Typed(s, input, outputOpens);
            && t.texts == s.texts && t.server == s.server && t.files == s.files && t.locals == s.locals
            && t.s2c == s.s2c && t.down == s.down && t.done == s.done
  {
  }

  lemma TypedDepends(t: State, s: State, input: string, outputOpens: bool)
    requires Sendable(input) && t.locals == s.locals && t.c2s == s.c2s
    ensures var (a, b) := (Typed(t, input, outputOpens), Typed(s, input, outputOpens));
            a.client == b.client && a.c2s == b.c2s
  {
  }

  lemma TypedLonger(s: State, input: string, outputOpens: bool, more: string)
    requires Sendable(input)
    ensures Typed(Longer(ClientSide, s, more), input, outputOpens)
         == Longer(ClientSide, Typed(s, input, outputOpens), more)
  {
    TypedUpdates(s, input, outputOpens);
    TypedUpdates(Longer(ClientSide, s, more), input, outputOpens);
    TypedDepends(Longer(ClientSide, s, more), s, input, outputOpens);
  }

  lemma ClientStepsLonger(s: State, e: Event, more: string)
    requires !ByServer(e) && Enabled(s, e)
    ensures Enabled(Longer(ClientSide, s, more), e)
    ensures Apply(Longer(ClientSide, s, more), e) == Longer(ClientSide, Apply(s, e), more)
  {
    if e.ClientReads? {
      LineReadLonger(s, e, more);
    } else if e.ClientTypes? {
      TypedLonger(s, e.input, e.outputOpens, more);
    }
  }

  lemma {:induction false} RunsLonger(peer: Peer, s: State, es: seq<Event>, more: string)
    requires AllBy(peer, es) && After(s, es).Some?
    ensures After(Longer(peer, s, more), es) == Some(Longer(peer, After(s, es).value, more))
  {
    if es != [] {
      var front, e := es[..|es| - 1], es[|es| - 1];
      RunsLonger(peer, s, front, more);
      var before := After(s, front).value;
      if peer.ServerSide? {
        ServerStepsLonger(before, e, more);
      } else {
        ClientStepsLonger(before, e, more);
      }
    }
  }

  // ---- One peer's half of a state --------------------------------------------------------

  /** All that a peer's steps look at. */
  predicate SameHalf(peer: Peer, t: State, s: State) {
    if peer.ServerSide? then t.texts == s.texts && t.server == s.server && t.files == s.files && t.c2s == s.c2s
    else t.client == s.client && t.locals == s.locals && t.s2c == s.s2c
  }

  lemma ServeHalf(t: State, s: State, cmd: Command, dirOpens: bool, names: seq<string>, fileOpens: bool)
    requires SameHalf(ServerSide, t, s)
    ensures var (a, b) := (Serve(t, cmd, dirOpens, names, fileOpens), Serve(s, cmd, dirOpens, names, fileOpens));
            SameHalf(ServerSide, a, b) && a.s2c == t.s2c && b.s2c == s.s2c
  {
  }

  lemma CommandReadHalf(t: State, s: State, e: Event)
    requires SameHalf(ServerSide, t, s) && e.ServerReads? && Enabled(s, e)
    ensures Enabled(t, e) && SameHalf(ServerSide, Apply(t, e), Apply(s, e))
    ensures Apply(t, e).s2c == t.s2c && Apply(s, e).s2c == s.s2c
  {
    var Line(buf, rest) := ReadLine(s.c2s, BUF_SIZE);
    ServeHalf(t.(c2s := rest), s.(c2s := rest), Classify(UpTo(buf, NUL)), e.dirOpens, e.names, e.fileOpens);
  }

  lemma UploadHalf(t: State, s: State, e: Event)
    requires SameHalf(ServerSide, t, s) && Enabled(s, e)
    requires e.ServerReadsSize? || e.ServerReceives? || e.ServerGivesUp?
    ensures Enabled(t, e) && SameHalf(ServerSide, Apply(t, e), Apply(s, e))
    ensures Apply(t, e).s2c == t.s2c && Apply(s, e).s2c == s.s2c
  {
  }

  lemma ServerHalfSteps(t: State, s: State, e: Event)
    requires SameHalf(ServerSide, t, s) && ByServer(e) && Enabled(s, e)
    ensures Enabled(t, e) && SameHalf(ServerSide, Apply(t, e), Apply(s, e))
    ensures Apply(t, e).s2c == t.s2c + Sent(s, e) && Apply(s, e).s2c == s.s2c + Sent(s, e)
  {
    assert t.s2c + "" == t.s2c && s.s2c + "" == s.s2c;
    if e.ServerReads? {
      CommandReadHalf(t, s, e);
    } else if !e.ServerSends? {
      UploadHalf(t, s, e);
    }
  }

  lemma TakesHalf(t: State, s: State, buf: string)
    requires SameHalf(ClientSide, t, s)
    ensures var (a, b) := (ClientTakes(t, buf), ClientTakes(s, buf));
            SameHalf(ClientSide, a, b) && a.c2s == t.c2s && b.c2s == s.c2s
  {
    TakesUpdates(t, buf);
    TakesUpdates(s, buf);
    TakesDepends(t, s, buf);
  }

  lemma LineReadHalf(t: State, s: State, e: Event)
    requires SameHalf(ClientSide, t, s) && e.ClientReads? && Enabled(s, e)
    ensures Enabled(t, e) && SameHalf(ClientSide, Apply(t, e), Apply(s, e))
    ensures Apply(t, e).c2s == t.c2s && Apply(s, e).c2s == s.c2s
  {
    var Line(buf, rest) := ReadLine(s.s2c, BUF_SIZE);
    TakesHalf(t.(s2c := rest, down := if t.down == [] then [] else t.down[1..]),
              s.(s2c := rest, down := if s.down == [] then [] else s.down[1..]), buf);
  }

  lemma TypedHalf(t: State, s: State, e: Event)
    requires SameHalf(ClientSide, t, s) && e.ClientTypes? && Enabled(s, e)
    ensures Enabled(t, e) && SameHalf(ClientSide, Apply(t, e), Apply(s, e))
    ensures Apply(t, e).c2s == t.c2s + Sent(s, e) && Apply(s, e).c2s == s.c2s + Sent(s, e)
  {
    assert t.c2s + "" == t.c2s && s.c2s + "" == s.c2s;
  }

  lemma FileSentHalf(t: State, s: State, e: Event)
    requires SameHalf(ClientSide, t, s) && (e.ClientSendsSize? || e.ClientSendsChunk?) && Enabled(s, e)
    ensures Enabled(t, e) && SameHalf(ClientSide, Apply(t, e), Apply(s, e))
    ensures Apply(t, e).c2s == t.c2s + Sent(s, e) && Apply(s, e).c2s == s.c2s + Sent(s, e)
  {
    assert t.c2s + "" == t.c2s && s.c2s + "" == s.c2s;
  }

  lemma ClientHalfSteps(t: State, s: State, e: Event)
    requires SameHalf(ClientSide, t, s) && !ByServer(e) && Enabled(s, e)
    ensures Enabled(t, e) && SameHalf(ClientSide, Apply(t, e), Apply(s, e))
    ensures Apply(t, e).c2s == t.c2s + Sent(s, e) && Apply(s, e).c2s == s.c2s + Sent(s, e)
  {
    if e.ClientReads? {
      LineReadHalf(t, s, e);
      assert t.c2s + "" == t.c2s && s.c2s + "" == s.c2s;
    } else if e.ClientTypes? {
      TypedHalf(t, s, e);
    } else {
      FileSentHalf(t, s, e);
    }
  }

  lemma ServeLeavesClientHalf(s: State, cmd: Command, dirOpens: bool, names: seq<string>, fileOpens: bool)
    ensures SameHalf(ClientSide, Serve(s, cmd, dirOpens, names, fileOpens), s)
  {
  }

  lemma ServerLeavesClientHalf(s: State, e: Event)
    requires ByServer(e) && Enabled(s, e)
    ensures SameHalf(ClientSide, Apply(s, e), s.(s2c := s.s2c + Sent(s, e)))
  {
    assert s.s2c + "" == s.s2c;
    if e.ServerReads? {
      var Line(buf, rest) := ReadLine(s.c2s, BUF_SIZE);
      ServeLeavesClientHalf(s.(c2s := rest), Classify(UpTo(buf, NUL)), e.dirOpens, e.names, e.fileOpens);
    }
  }

  lemma TakesLeavesServerHalf(s: State, buf: string)
    ensures SameHalf(ServerSide, ClientTakes(s, buf), s)
  {
    TakesUpdates(s, buf);
  }

  lemma SendingLeavesServerHalf(s: State, e: Event)
    requires (e.ClientTypes? || e.ClientSendsSize? || e.ClientSendsChunk?) && Enabled(s, e)
    ensures SameHalf(ServerSide, Apply(s, e), s.(c2s := s.c2s + Sent(s, e)))
  {
    assert s.c2s + "" == s.c2s;
  }

  lemma ClientLeavesServerHalf(s: State, e: Event)
    requires !ByServer(e) && Enabled(s, e)
    ensures SameHalf(ServerSide, Apply(s, e), s.(c2s := s.c2s + Sent(s, e)))
  {
    if e.ClientReads? {
      var Line(buf, rest) := ReadLine(s.s2c, BUF_SIZE);
      TakesLeavesServerHalf(s.(s2c := rest, down := if s.down == [] then [] else s.down[1..]), buf);
      assert s.c2s + "" == s.c2s;
    } else {
      SendingLeavesServerHalf(s, e);
    }
  }

  // ---- The theorems ----------------------------------------------------------------------

  function Other(peer: Peer): Peer {
    if peer.ServerSide? then ClientSide else ServerSide
  }

  /** What this peer has put on its wire since it started with an empty one. */
  function OnWire(peer: Peer, t: State): string {
    if peer.ServerSide? then t.s2c else t.c2s
  }

  /** The peer's events are a run of that peer alone, on what the other one sent: it gets to the
      same place with the same files and the same input left, and has sent the same. */
  ghost predicate RunsAlone(peer: Peer, start: State, init: State, es: seq<Event>) {
    && AllBy(peer, Own(peer, es)) && Run(init, es).Some?
    && var t := After(Longer(peer, start, Output(init, es, Other(peer))), Own(peer, es));
    && t.Some? && SameHalf(peer, t.value, Run(init, es).value) && OnWire(peer, t.value) == Output(init, es, peer)
  }

  lemma LongerTwice(peer: Peer, s: State, a: string, b: string)
    ensures Longer(peer, Longer(peer, s, a), b) == Longer(peer, s, a + b)
  {
    if peer.ServerSide? {
      Associative(s.c2s, a, b);
    } else {
      Associative(s.s2c, a, b);
    }
  }

  /** One more event of this peer. */
  lemma OwnEvent(peer: Peer, start: State, own: seq<Event>, t: State, s: State, e: Event)
    requires After(start, own) == Some(t) && AllBy(peer, own) && SameHalf(peer, t, s) && By(peer, e) && Enabled(s, e)
    ensures AllBy(peer, own + [e]) && After(start, own + [e]).Some?
    ensures var u := After(start, own + [e]).value;
            SameHalf(peer, u, Apply(s, e)) && OnWire(peer, u) == OnWire(peer, t) + Sent(s, e)
  {
    assert (own + [e])[..|own|] == own;
    if peer.ServerSide? {
      ServerHalfSteps(t, s, e);
    } else {
      ClientHalfSteps(t, s, e);
    }
  }

  /** One more event of the other peer: only more input. */
  lemma OthersEvent(peer: Peer, start: State, own: seq<Event>, t: State, s: State, e: Event)
    requires After(start, own) == Some(t) && AllBy(peer, own) && SameHalf(peer, t, s) && !By(peer, e) && Enabled(s, e)
    ensures After(Longer(peer, start, Sent(s, e)), own) == Some(Longer(peer, t, Sent(s, e)))
    ensures SameHalf(peer, Longer(peer, t, Sent(s, e)), Apply(s, e))
    ensures OnWire(peer, Longer(peer, t, Sent(s, e))) == OnWire(peer, t)
  {
    RunsLonger(peer, start, own, Sent(s, e));
    if peer.ServerSide? {
      ClientLeavesServerHalf(s, e);
    } else {
      ServerLeavesClientHalf(s, e);
    }
  }

  lemma OutputGrows(init: State, es: seq<Event>, peer: Peer)
    requires es != [] && Run(init, es).Some?
    ensures var front, e := es[..|es| - 1], es[|es| - 1];
            && Run(init, front).Some? && Enabled(Run(init, front).value, e)
            && Run(init, es).value == Apply(Run(init, front).value, e)
            && Output(init, es, peer)
            == Output(init, front, peer) + (if By(peer, e) then Sent(Run(init, front).value, e) else "")
            && Own(peer, es) == Own(peer, front) + (if By(peer, e) then [e] else [])
  {
  }

  lemma NoInput(peer: Peer, s: State)
    ensures Longer(peer, s, "") == s
  {
    assert s.c2s + "" == s.c2s && s.s2c + "" == s.s2c;
  }

  lemma {:induction false} HalfIsARunAlone(peer: Peer, start: State, init: State, es: seq<Event>)
    requires Run(init, es).Some?
    requires SameHalf(peer, start, init) && OnWire(peer, start) == ""
    ensures RunsAlone(peer, start, init, es)
  {
    if es == [] {
      NoInput(peer, start);
    } else {
      var front, e := es[..|es| - 1], es[|es| - 1];
      OutputGrows(init, es, peer);
      OutputGrows(init, es, Other(peer));
      HalfIsARunAlone(peer, start, init, front);
      var input := Output(init, front, Other(peer));
      var s := Run(init, front).value;
      var t := After(Longer(peer, start, input), Own(peer, front)).value;
      if By(peer, e) {
        OwnEvent(peer, Longer(peer, start, input), Own(peer, front), t, s, e);
        assert input + "" == input;
      } else {
        OthersEvent(peer, Longer(peer, start, input), Own(peer, front), t, s, e);
        LongerTwice(peer, start, input, Sent(s, e));
        assert Own(peer, front) + [] == Own(peer, front);
        assert Output(init, front, peer) + "" == Output(init, front, peer);
      }
    }
  }

  /** These are runs from where HandleClient and the client's loop begin. */
  lemma BeginsWithInput(texts: Texts, inbox: string, files: map<string, string>)
    ensures Longer(ServerSide, FileServer.Begin(texts, "", files), inbox) == FileServer.Begin(texts, inbox, files)
    ensures Longer(ClientSide, FileClient.Begin(texts, "", files), inbox) == FileClient.Begin(texts, inbox, files)
  {
    assert "" + inbox == inbox;
  }

  /** Where a peer alone begins, with these bytes to read. */
  function BeginAlone(peer: Peer, inbox: string, files: map<string, string>): State {
    if peer.ServerSide? then FileServer.Begin(TEXTS, inbox, files) else FileClient.Begin(TEXTS, inbox, files)
  }

  /** The inputs a peer has taken in a session. */
  function InputsOf(peer: Peer, es: seq<Event>): seq<Event> {
    Inputs(Own(peer, es))
  }

  /** The peer, run alone on these bytes and inputs until it cannot go on, and the session have
      come to the same place: the same inputs taken, the same bytes sent, and the peer, its files
      and its unread bytes the same. */
  ghost predicate SamePlace(peer: Peer, init: State, es: seq<Event>, taken: seq<Event>, t: State)
    requires Run(init, es).Some?
  {
    && taken == InputsOf(peer, es)
    && SameHalf(peer, t, Run(init, es).value) && OnWire(peer, t) == Output(init, es, peer)
  }

  lemma AloneIsTheSession(peer: Peer, files: map<string, string>, locals: map<string, string>, es: seq<Event>,
                          o: Origin, t: State)
    requires var init := Start(files, locals);
             && Run(init, es).Some? && Outcome.Over(peer, Run(init, es).value)
             && o.start == BeginAlone(peer, Output(init, es, Other(peer)), if peer.ServerSide? then files else locals)
    requires o.peer == peer && Reaches(o, t) && Outcome.Over(peer, t)
    requires if peer.ServerSide? then o.inputs <= InputsOf(peer, es) || InputsOf(peer, es) <= o.inputs
             else o.inputs <= InputsOf(peer, es) && (t.client.CInput? ==> o.inputs == InputsOf(peer, es))
    ensures SamePlace(peer, Start(files, locals), es, o.inputs, t)
  {
    var init := Start(files, locals);
    var begin := BeginAlone(peer, "", if peer.ServerSide? then files else locals);
    HalfIsARunAlone(peer, begin, init, es);
    BeginsWithInput(TEXTS, Output(init, es, Other(peer)), if peer.ServerSide? then files else locals);
    var own := Own(peer, es);
    var alone :| AllBy(peer, alone) && Inputs(alone) == o.inputs && After(o.start, alone) == Some(t);
    if o.inputs <= Inputs(own) {
      Outcome.SameOutcome(peer, o.start, alone, own);
    } else {
      Outcome.SameOutcome(peer, o.start, own, alone);
    }
  }

  /** In every interleaving in which the server has come to where it cannot go on: wherever
      handle_client, run alone on the bytes the client sent and with the same answers from the
      file system, can end, it has served the same commands, its files are the session's and it
      has sent what the session's server sent. */
  lemma ServerIsAlone(files: map<string, string>, locals: map<string, string>, es: seq<Event>,
                      env: nat -> FileServer.Env, k: nat, t: State)
    requires var init := Start(files, locals);
             && Run(init, es).Some? && FileServer.Blocked(Run(init, es).value)
             && ServerReaches(FileServer.Commands(FileServer.Begin(TEXTS, Output(init, es, ClientSide), files), env, k), t)
    requires FileServer.Blocked(t)
    requires forall i :: 0 <= i < |InputsOf(ServerSide, es)| ==> InputsOf(ServerSide, es)[i] == FileServer.Read(env(i))
    ensures SamePlace(ServerSide, Start(files, locals), es, seq(k, (i: nat) => FileServer.Read(env(i))), t)
  {
    var init := Start(files, locals);
    var o := FileServer.Commands(FileServer.Begin(TEXTS, Output(init, es, ClientSide), files), env, k);
    AloneIsTheSession(ServerSide, files, locals, es, o, t);
  }

  /** And wherever the command loop, run alone on the bytes the server sent and with the session's
      typed lines, can end. */
  lemma ClientIsAlone(files: map<string, string>, locals: map<string, string>, es: seq<Event>,
                      typed: nat -> FileClient.Typing, k: nat, t: State)
    requires var init := Start(files, locals);
             && Run(init, es).Some? && FileClient.Blocked(Run(init, es).value)
             && ClientReaches(FileClient.TypedLines(FileClient.Begin(TEXTS, Output(init, es, ServerSide), locals), typed, k), t)
    requires FileClient.Blocked(t)
    requires k <= |InputsOf(ClientSide, es)| && (t.client.CInput? ==> k == |InputsOf(ClientSide, es)|)
    requires forall i :: 0 <= i < |InputsOf(ClientSide, es)| ==>
               InputsOf(ClientSide, es)[i] == FileClient.Types(typed(i))
    ensures SamePlace(ClientSide, Start(files, locals), es, seq(k, (i: nat) => FileClient.Types(typed(i))), t)
  {
    var init := Start(files, locals);
    var o := FileClient.TypedLines(FileClient.Begin(TEXTS, Output(init, es, ServerSide), locals), typed, k);
    AloneIsTheSession(ClientSide, files, locals, es, o, t);
  }

  /** What handle_client has sent on top if the connection ends inside an upload: a prompt. */
  function Prompted(server: Server, bytes: string): string {
    TextsAreProper();
    if server.SSize? || server.SData? then bytes + Framed(TEXTS.commands) else bytes
  }

  /** handle_client itself, given what an interleaved session's client sent: it leaves the
      session's files and has sent the session's bytes. */
  method ServeTheSession(h: FileServer.Handler, env: nat -> FileServer.Env, ghost locals: map<string, string>,
                         ghost es: seq<Event>)
    requires Run(Start(h.files, locals), es).Some? && FileServer.Blocked(Run(Start(h.files, locals), es).value)
    requires h.texts == TEXTS && h.sock.inbox == Output(Start(h.files, locals), es, ClientSide)
    requires forall i :: 0 <= i < |InputsOf(ServerSide, es)| ==> InputsOf(ServerSide, es)[i] == FileServer.Read(env(i))
    requires forall i :: AllSendable(env(i).names)
    requires FileServer.SizesFit(FileServer.Begin(TEXTS, h.sock.inbox, h.files), env)
    modifies h`files, h.sock
    ensures h.files == Run(Start(old(h.files), locals), es).value.files
    ensures var init := Start(old(h.files), locals);
            h.sock.outbox == old(h.sock.outbox)
                             + Prompted(Run(init, es).value.server, Output(init, es, ServerSide))
  {
    ghost var files := h.files;
    TextsAreProper();
    ghost var t, k := h.HandleClient(env);
    ServerIsAlone(files, locals, es, env, k, t);
  }

  /** The command loop itself, given what an interleaved session's server sent and the lines that
      were typed: it saves the session's files and has sent the session's bytes. */
  method PlayTheSession(c: FileClient.Console, typed: nat -> FileClient.Typing, available: nat,
                        ghost files: map<string, string>, ghost es: seq<Event>)
    requires Run(Start(files, c.locals), es).Some? && FileClient.Blocked(Run(Start(files, c.locals), es).value)
    requires c.sock.inbox == Output(Start(files, c.locals), es, ServerSide)
    requires available == |InputsOf(ClientSide, es)|
    requires forall i :: 0 <= i < available ==> InputsOf(ClientSide, es)[i] == FileClient.Types(typed(i))
    requires forall i :: FileClient.Typable(typed(i))
    requires FileClient.SizesFit(FileClient.Begin(TEXTS, c.sock.inbox, c.locals), typed)
    modifies c`locals, c.sock
    ensures var init := Start(files, old(c.locals));
            && c.locals == FileClient.Saved(Run(init, es).value)
            && c.sock.outbox == old(c.sock.outbox) + Output(init, es, ClientSide)
  {
    ghost var locals := c.locals;
    ghost var t, k := c.Run(typed, available, TEXTS);
    ClientIsAlone(files, locals, es, typed, k, t);
  }
}
