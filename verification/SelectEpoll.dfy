/** The select server and the epoll server do the same for the same clients
    (week11/select_server against week11/epoll_server.c). */
module SelectEpoll {
  import opened Sequences
  import opened SelectServer
  import opened EpollServer

  /** The same message to the same recipients, each of them once on either side. */
  ghost predicate SameBroadcast(a: Broadcast, b: Broadcast) {
    && a.sender == b.sender && a.msg == b.msg
    && Distinct(a.to) && Distinct(b.to) && forall x :: x in a.to <==> x in b.to
  }

  /** The same clients connected: a set with a bound on one side, a table on the other. */
  ghost predicate SameClients(t: Table, c: Clients, server: int) {
    && Bounded(t) && server in t.master
    && Distinct(c.fds)
    && forall x :: x in c.fds <==> x in t.master && x != server
  }

  ghost predicate SameHistory(a: seq<Broadcast>, b: seq<Broadcast>) {
    |a| == |b| && forall i :: 0 <= i < |a| ==> SameBroadcast(a[i], b[i])
  }

  ghost predicate Agree(t: Table, c: Clients, server: int) {
    SameClients(t, c, server) && SameHistory(t.broadcasts, c.broadcasts)
  }

  /** accept returns a descriptor that is not open when the scan comes to the listening socket,
      and the epoll table has room for it. */
  ghost predicate ValidRound(t: Table, c: Clients, server: int, r: Round) {
    && r.ready <= t.master && Readable(r, server) && r.accepted >= 0
    && (server in r.ready ==> r.accepted !in Scanned(t, server, server, r).master)
    && (AscendingLists(r.ready, t.maxFd + 1);
        HasRoom(c, Ascending(r.ready, t.maxFd + 1), server, r))
  }

  lemma {:induction false} OthersDistinct(fds: seq<int>, sender: int)
    requires Distinct(fds)
    ensures Distinct(Others(fds, sender))
  {
    if fds != [] {
      var front := fds[..|fds| - 1];
      OthersDistinct(front, sender);
      var before := Others(front, sender);
      forall i | 0 <= i < |before| ensures before[i] != fds[|fds| - 1] {
        assert before[i] in before;
      }
    }
  }

  lemma SwapRemovedDistinct(fds: seq<int>, fd: int)
    requires Distinct(fds)
    ensures Distinct(SwapRemoved(fds, fd))
    ensures forall x :: x in SwapRemoved(fds, fd) <==> x in fds && x != fd
  {
    var j := IndexOf(fds, fd);
    var n := |fds| - 1;
    var r := SwapRemoved(fds, fd);
    if j < |fds| {
      forall x ensures x in r <==> x in fds && x != fd {
        if x in fds && x != fd {
          var i :| 0 <= i < |fds| && fds[i] == x;
          assert r[if i == n then j else i] == x;
        }
      }
    }
  }

  /** One ready descriptor, handled by both. */
  lemma EventAgrees(t: Table, c: Clients, fd: int, server: int, r: Round)
    requires Agree(t, c, server)
    requires if fd == server then r.accepted >= 0 && r.accepted !in t.master
             else fd in r.input && fd in t.master
    ensures Agree(Handle(t, fd, server, r), HandleEvent(c, fd, server, r), server)
  {
    if fd == server {
      assert forall x :: x in c.fds + [r.accepted] <==> x in c.fds || x == r.accepted;
    } else if r.input[fd] == "" {
      SwapRemovedDistinct(c.fds, fd);
    } else {
      OthersDistinct(c.fds, fd);
      AscendingLists(t.master - {server, fd}, t.maxFd + 1);
      assert SameBroadcast(
        Broadcast(fd, r.input[fd], Ascending(t.master - {server, fd}, t.maxFd + 1)),
        Broadcast(fd, r.input[fd], Others(c.fds, fd)));
    }
  }

  /** A descriptor the round has not come to yet is still there. */
  lemma {:induction false} UntouchedStays(t: Table, fds: seq<int>, x: int, server: int, r: Round)
    requires AllReadable(fds, server, r)
    requires x in t.master && x !in fds
    ensures x in HandleAll(t, fds, server, r).master
  {
    if fds != [] {
      UntouchedStays(t, fds[..|fds| - 1], x, server, r);
    }
  }

  /** What a scan has come past when it comes to its k-th member. */
  lemma {:induction false} PassedBefore(s: set<int>, hi: int, k: nat)
    requires k < |Ascending(s, hi)|
    ensures Ascending(s, hi)[..k] == Ascending(s, Ascending(s, hi)[k])
    decreases hi
  {
    var below := Ascending(s, hi - 1);
    if k < |below| {
      PassedBefore(s, hi - 1, k);
      assert Ascending(s, hi)[..k] == below[..k];
    } else {
      assert Ascending(s, hi)[..k] == below;
    }
  }

  /** When the scan comes to its n-th descriptor, that one is still there, or about to be accepted
      under a number that is free. */
  lemma ReadyInTurn(t: Table, c: Clients, server: int, r: Round, n: nat)
    requires ValidRound(t, c, server, r) && Bounded(t) && n < |Ascending(r.ready, t.maxFd + 1)|
    ensures var (before, fd) := (Ascending(r.ready, t.maxFd + 1)[..n], Ascending(r.ready, t.maxFd + 1)[n]);
            && AllReadable(before, server, r)
            && if fd == server then r.accepted !in HandleAll(t, before, server, r).master
               else fd in r.input && fd in HandleAll(t, before, server, r).master
  {
    AscendingLists(r.ready, t.maxFd + 1);
    var (before, fd) := (Ascending(r.ready, t.maxFd + 1)[..n], Ascending(r.ready, t.maxFd + 1)[n]);
    if fd == server {
      PassedBefore(r.ready, t.maxFd + 1, n);
    } else {
      UntouchedStays(t, before, fd, server, r);
    }
  }

  /** The two servers agree once they have handled these descriptors. */
  ghost predicate AgreeAfter(t: Table, c: Clients, server: int, r: Round, fds: seq<int>) {
    AllReadable(fds, server, r) && Agree(HandleAll(t, fds, server, r), HandleBatch(c, fds, server, r), server)
  }

  lemma OneMoreAgrees(t: Table, c: Clients, server: int, r: Round, fds: seq<int>, fd: int)
    requires AgreeAfter(t, c, server, r, fds)
    requires if fd == server then r.accepted >= 0 && r.accepted !in HandleAll(t, fds, server, r).master
             else fd in r.input && fd in HandleAll(t, fds, server, r).master
    ensures AgreeAfter(t, c, server, r, fds + [fd])
  {
    assert (fds + [fd])[..|fds|] == fds;
    EventAgrees(HandleAll(t, fds, server, r), HandleBatch(c, fds, server, r), fd, server, r);
  }

  lemma NextAgrees(t: Table, c: Clients, server: int, r: Round, n: nat)
    requires ValidRound(t, c, server, r) && Bounded(t) && n < |Ascending(r.ready, t.maxFd + 1)|
    requires AgreeAfter(t, c, server, r, Ascending(r.ready, t.maxFd + 1)[..n])
    ensures AgreeAfter(t, c, server, r, Ascending(r.ready, t.maxFd + 1)[..n + 1])
  {
    var all := Ascending(r.ready, t.maxFd + 1);
    ReadyInTurn(t, c, server, r, n);
    OneMoreAgrees(t, c, server, r, all[..n], all[n]);
    assert all[..n + 1] == all[..n] + [all[n]];
  }

  /** A whole round, up to its n-th event. */
  lemma {:induction false} RoundAgrees(t: Table, c: Clients, server: int, r: Round, n: nat)
    requires Agree(t, c, server) && ValidRound(t, c, server, r)
    requires n <= |Ascending(r.ready, t.maxFd + 1)|
    ensures AgreeAfter(t, c, server, r, Ascending(r.ready, t.maxFd + 1)[..n])
  {
    if n > 0 {
      RoundAgrees(t, c, server, r, n - 1);
      NextAgrees(t, c, server, r, n - 1);
    }
  }

  /** Both servers, fed the same rounds in ascending descriptor order. */
  datatype Pair = Pair(table: Table, clients: Clients)

  ghost function Serve(p: Pair, server: int, r: Round): Pair
    requires ValidRound(p.table, p.clients, server, r)
  {
    var fds := Ascending(r.ready, p.table.maxFd + 1);
    AscendingLists(r.ready, p.table.maxFd + 1);
    Pair(HandleAll(p.table, fds, server, r), HandleBatch(p.clients, fds, server, r))
  }

  ghost function Run(server: int, rounds: seq<Round>): Option<Pair> {
    if rounds == [] then Some(Pair(Table({server}, server, []), Clients([], [])))
    else
      var before := Run(server, rounds[..|rounds| - 1]);
      var r := rounds[|rounds| - 1];
      if before.Some? && ValidRound(before.value.table, before.value.clients, server, r)
      then Some(Serve(before.value, server, r)) else None
  }

  /** After any rounds the two servers have the same clients and have passed on the same
      messages to the same recipients, once each. */
  lemma {:induction false} ServersAgree(server: int, rounds: seq<Round>)
    requires server >= 0 && Run(server, rounds).Some?
    ensures Agree(Run(server, rounds).value.table, Run(server, rounds).value.clients, server)
  {
    if rounds != [] {
      var p := Run(server, rounds[..|rounds| - 1]).value;
      var r := rounds[|rounds| - 1];
      ServersAgree(server, rounds[..|rounds| - 1]);
      var fds := Ascending(r.ready, p.table.maxFd + 1);
      RoundAgrees(p.table, p.clients, server, r, |fds|);
      assert fds[..|fds|] == fds;
    }
  }

  /** A message goes to every connected client but its sender, and to no one else. */
  lemma EveryoneElseHears(t: Table, c: Clients, fd: int, server: int, r: Round)
    requires Agree(t, c, server) && fd in r.input && fd in t.master && fd != server && r.input[fd] != ""
    ensures var sent := HandleEvent(c, fd, server, r).broadcasts;
            && |sent| == |c.broadcasts| + 1
            && Distinct(sent[|c.broadcasts|].to)
            && forall x :: x in sent[|c.broadcasts|].to <==> x in t.master && x != server && x != fd
  {
    OthersDistinct(c.fds, fd);
  }

  /** Wherever the listening socket's number lies, the scan never comes to a connection it has
      accepted in the same round, not even under the number of one that has just hung up. */
  lemma AcceptedWaitsForNextRound(t: Table, server: int, r: Round, fd: int)
    requires r.ready <= t.master && Readable(r, server)
    requires server in r.ready && r.accepted !in Scanned(t, server, server, r).master
    requires fd in r.ready && fd > server
    ensures fd != r.accepted
  {
    AscendingLists(r.ready, server);
    UntouchedStays(t, Ascending(r.ready, server), fd, server, r);
  }
}
