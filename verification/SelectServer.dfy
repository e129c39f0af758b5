/** The broadcast server over select (week11/select_server): a descriptor set, a bound on its
    members, and a scan that may raise the bound while it runs. */
module SelectServer {
  /** One message passed on: who sent it and, in order, which descriptors were written to. */
  datatype Broadcast = Broadcast(sender: int, msg: string, to: seq<int>)

  /** What one call of select finds, and what the calls made on it return: the ready
      descriptors, what each ready client has sent ("" when it hung up), and the descriptor
      accept returns if the listening socket is ready. */
  datatype Round = Round(ready: set<int>, input: map<int, string>, accepted: int)

  datatype Table = Table(master: set<int>, maxFd: int, broadcasts: seq<Broadcast>)

  /** The members of s below hi, in ascending order: the order of a scan. */
  function Ascending(s: set<int>, hi: int): seq<int> {
    if hi <= 0 then []
    else
      var below := Ascending(s, hi - 1);
      if hi - 1 in s then below + [hi - 1] else below
  }

  /** It lists exactly those members, each of them once. */
  lemma {:induction false} AscendingLists(s: set<int>, hi: int)
    ensures forall x :: x in Ascending(s, hi) <==> x in s && 0 <= x < hi
    ensures forall i :: 0 <= i < |Ascending(s, hi)| ==> Ascending(s, hi)[i] in s && 0 <= Ascending(s, hi)[i] < hi
    ensures forall i, j :: 0 <= i < j < |Ascending(s, hi)| ==> Ascending(s, hi)[i] < Ascending(s, hi)[j]
  {
    if hi > 0 {
      AscendingLists(s, hi - 1);
    }
  }

  lemma {:induction false} AscendingBeyond(s: set<int>, hi: int, more: int)
    requires hi <= more && forall x :: x in s ==> x < hi
    ensures Ascending(s, more) == Ascending(s, hi)
    decreases more - hi
  {
    if hi < more {
      AscendingBeyond(s, hi, more - 1);
    }
  }

  predicate Readable(r: Round, server: int) {
    forall fd :: fd in r.ready && fd != server ==> fd in r.input
  }

  ghost predicate AllReadable(fds: seq<int>, server: int, r: Round) {
    forall i :: 0 <= i < |fds| && fds[i] != server ==> fds[i] in r.input
  }

  /** What the scan does at one ready descriptor. */
  function Handle(t: Table, fd: int, server: int, r: Round): Table
    requires fd != server ==> fd in r.input
  {
    if fd == server then
      Table(t.master + {r.accepted}, if t.maxFd < r.accepted then r.accepted else t.maxFd, t.broadcasts)
    else if r.input[fd] == "" then t.(master := t.master - {fd})
    else
      t.(broadcasts := t.broadcasts
                       + [Broadcast(fd, r.input[fd], Ascending(t.master - {server, fd}, t.maxFd + 1))])
  }

  ghost function HandleAll(t: Table, fds: seq<int>, server: int, r: Round): Table
    requires AllReadable(fds, server, r)
  {
    if fds == [] then t
    else Handle(HandleAll(t, fds[..|fds| - 1], server, r), fds[|fds| - 1], server, r)
  }

  /** The state of a scan that has come to fd, for a table as it was when the round began. */
  ghost function Scanned(t: Table, fd: int, server: int, r: Round): Table
    requires Readable(r, server)
  {
    AscendingLists(r.ready, fd);
    HandleAll(t, Ascending(r.ready, fd), server, r)
  }

  lemma ScanStep(t: Table, fd: int, server: int, r: Round)
    requires Readable(r, server) && fd >= 0
    ensures Scanned(t, fd + 1, server, r) ==
            if fd in r.ready then Handle(Scanned(t, fd, server, r), fd, server, r) else Scanned(t, fd, server, r)
  {
    AscendingLists(r.ready, fd);
    var before := Ascending(r.ready, fd);
    assert (before + [fd])[..|before|] == before;
  }

  ghost predicate Bounded(t: Table) {
    forall fd :: fd in t.master ==> 0 <= fd <= t.maxFd
  }

  class Server {
    const serverSocket: int
    var masterFds: set<int>
    var maxFd: int
    var broadcasts: seq<Broadcast>
    var handled: seq<int>     // history: the descriptors the scans have acted on

    ghost function Current(): Table
      reads this
    {
      Table(masterFds, maxFd, broadcasts)
    }

    ghost predicate Valid()
      reads this
    {
      Bounded(Current()) && serverSocket in masterFds
    }

    constructor (serverSocket: int)
      requires serverSocket >= 0
      ensures this.serverSocket == serverSocket && handled == []
      ensures Valid() && Current() == Table({serverSocket}, serverSocket, [])
    {
      this.serverSocket := serverSocket;
      masterFds := {serverSocket};
      maxFd := serverSocket;
      broadcasts := [];
      handled := [];
    }

    /** One turn of the server's loop: it ends although the bound can grow under it, and acts
        on each ready descriptor exactly once, in ascending order. */
    method ServeRound(r: Round)
      requires Valid() && r.ready <= masterFds && Readable(r, serverSocket)
      requires r.accepted >= 0
      modifies this
      ensures handled == old(handled) + Ascending(r.ready, old(maxFd) + 1)
      ensures Current() == Scanned(old(Current()), old(maxFd) + 1, serverSocket, r)
      ensures Valid() && maxFd >= old(maxFd)
    {
      var tempFds := r.ready;
      var currentFd := 0;
      assert Ascending(r.ready, 0) == [];
      while currentFd <= maxFd
        invariant 0 <= currentFd <= maxFd + 1 && old(maxFd) <= maxFd
        invariant handled == old(handled) + Ascending(r.ready, currentFd)
        invariant Current() == Scanned(old(Current()), currentFd, serverSocket, r)
        invariant Valid()
        decreases currentFd <= serverSocket, maxFd + 1 - currentFd
      {
        ScanStep(old(Current()), currentFd, serverSocket, r);
        if currentFd in tempFds {
          Act(currentFd, r);
        }
        currentFd := currentFd + 1;
      }
      AscendingBeyond(r.ready, old(maxFd) + 1, currentFd);
    }

    /** The body of the scan at a ready descriptor. */
    method Act(currentFd: int, r: Round)
      requires Valid() && 0 <= currentFd <= maxFd && r.accepted >= 0
      requires currentFd != serverSocket ==> currentFd in r.input
      modifies this
      ensures Current() == Handle(old(Current()), currentFd, serverSocket, r)
      ensures handled == old(handled) + [currentFd]
      ensures Valid() && maxFd >= old(maxFd) && (currentFd != serverSocket ==> maxFd == old(maxFd))
    {
      if currentFd == serverSocket {
        masterFds := masterFds + {r.accepted};
        if maxFd < r.accepted { maxFd := r.accepted; }
      } else {
        var message := r.input[currentFd];
        if message == "" {
          masterFds := masterFds - {currentFd};
        } else {
          Pass(currentFd, message);
        }
      }
      handled := handled + [currentFd];
    }

    /** The inner scan: write to every member but the listening socket and the sender. */
    method Pass(sender: int, message: string)
      requires maxFd >= 0
      modifies this`broadcasts
      ensures broadcasts == old(broadcasts)
                            + [Broadcast(sender, message, Ascending(masterFds - {serverSocket, sender}, maxFd + 1))]
    {
      var to := [];
      var targetFd := 0;
      while targetFd <= maxFd
        invariant 0 <= targetFd <= maxFd + 1
        invariant to == Ascending(masterFds - {serverSocket, sender}, targetFd)
      {
        if targetFd in masterFds && targetFd != serverSocket && targetFd != sender {
          to := to + [targetFd];
        }
        targetFd := targetFd + 1;
      }
      broadcasts := broadcasts + [Broadcast(sender, message, to)];
    }
  }
}
