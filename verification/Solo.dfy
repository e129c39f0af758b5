/** One peer of the file server run by itself, against whatever its connection will deliver:
    the runs of the session's state machine (module Session) in which only that peer steps. */
module Solo {
  import opened Sequences
  import opened Session

  datatype Peer = ServerSide | ClientSide

  predicate By(peer: Peer, e: Event) {
    peer.ServerSide? <==> ByServer(e)
  }

  function After(s: State, es: seq<Event>): Option<State> {
    if es == [] then Some(s)
    else
      var before := After(s, es[..|es| - 1]);
      var e := es[|es| - 1];
      if before.Some? && Enabled(before.value, e) then Some(Apply(before.value, e)) else None
  }

  ghost predicate AllBy(peer: Peer, es: seq<Event>) {
    forall i :: 0 <= i < |es| ==> By(peer, es[i])
  }

  /** An event that takes an answer from the file system or a line from the user. */
  predicate IsInput(e: Event) {
    e.ServerReads? || e.ClientTypes?
  }

  function Inputs(es: seq<Event>): seq<Event> {
    if es == [] then []
    else Inputs(es[..|es| - 1]) + if IsInput(es[|es| - 1]) then [es[|es| - 1]] else []
  }

  /** Which peer runs, from where, and the inputs it has taken so far. */
  datatype Origin = Origin(peer: Peer, start: State, inputs: seq<Event>)

  /** That peer alone, on exactly those inputs, can get to t. */
  ghost predicate Reaches(o: Origin, t: State) {
    exists es :: AllBy(o.peer, es) && Inputs(es) == o.inputs && After(o.start, es) == Some(t)
  }

  lemma ReachesItself(peer: Peer, s: State)
    ensures Reaches(Origin(peer, s, []), s)
  {
    assert AllBy(peer, []) && Inputs([]) == [] && After(s, []) == Some(s);
  }

  function Took(o: Origin, e: Event): Origin {
    if IsInput(e) then o.(inputs := o.inputs + [e]) else o
  }

  lemma ReachesNext(o: Origin, t: State, e: Event)
    requires Reaches(o, t) && By(o.peer, e) && Enabled(t, e)
    ensures Reaches(Took(o, e), Apply(t, e))
  {
    var es :| AllBy(o.peer, es) && Inputs(es) == o.inputs && After(o.start, es) == Some(t);
    assert (es + [e])[..|es|] == es;
    assert Inputs(es + [e]) == Took(o, e).inputs by {
      assert o.inputs + [] == o.inputs;
    }
    assert AllBy(o.peer, es + [e]) && After(o.start, es + [e]) == Some(Apply(t, e));
  }

  ghost predicate ServerReaches(o: Origin, t: State) {
    o.peer.ServerSide? && Reaches(o, t)
  }

  ghost predicate ClientReaches(o: Origin, t: State) {
    o.peer.ClientSide? && Reaches(o, t)
  }
}
