/** The same broadcast server over epoll (week11/epoll_server.c): the connected clients in an
    unordered array, appended to on accept, and closed up by moving the last entry into the
    gap. */
module EpollServer {
  import opened Sequences
  import opened SelectServer

  const CAPACITY: nat := 100

  datatype Clients = Clients(fds: seq<int>, broadcasts: seq<Broadcast>)

  /** All but the sender, in table order. */
  function Others(fds: seq<int>, sender: int): (r: seq<int>)
    ensures forall x :: x in r <==> x in fds && x != sender
  {
    if fds == [] then []
    else
      var last := fds[|fds| - 1];
      assert fds == fds[..|fds| - 1] + [last];
      Others(fds[..|fds| - 1], sender) + if last != sender then [last] else []
  }

  /** The first fd replaced by the last entry, and the table one shorter. */
  function SwapRemoved(fds: seq<int>, fd: int): seq<int> {
    var j := IndexOf(fds, fd);
    if j < |fds| then fds[j := fds[|fds| - 1]][..|fds| - 1] else fds
  }

  function HandleEvent(c: Clients, fd: int, server: int, r: Round): Clients
    requires fd != server ==> fd in r.input
  {
    if fd == server then c.(fds := c.fds + [r.accepted])
    else if r.input[fd] == "" then c.(fds := SwapRemoved(c.fds, fd))
    else c.(broadcasts := c.broadcasts + [Broadcast(fd, r.input[fd], Others(c.fds, fd))])
  }

  ghost function HandleBatch(c: Clients, events: seq<int>, server: int, r: Round): Clients
    requires AllReadable(events, server, r)
  {
    if events == [] then c
    else HandleEvent(HandleBatch(c, events[..|events| - 1], server, r), events[|events| - 1], server, r)
  }

  /** Every accept in the batch finds room in the table, which the code does not check. */
  ghost predicate HasRoom(c: Clients, events: seq<int>, server: int, r: Round)
    requires AllReadable(events, server, r)
  {
    forall i :: 0 <= i < |events| && events[i] == server ==>
      |HandleBatch(c, events[..i], server, r).fds| < CAPACITY
  }

  /** The last entry has moved into the gap at j. */
  lemma GapIsFilled(was: seq<int>, now: seq<int>, fd: int, j: nat)
    requires j < |was| && was[j] == fd && forall k :: 0 <= k < j ==> was[k] != fd
    requires |now| == |was| - 1
    requires forall k :: 0 <= k < |now| ==> now[k] == was[if k == j then |was| - 1 else k]
    ensures now == SwapRemoved(was, fd)
  {
    IndexOfFirst(was, fd, j);
  }

  class Server {
    const serverSocket: int
    const clientSockets: array<int>
    var clientCount: int
    var broadcasts: seq<Broadcast>

    ghost predicate Valid()
      reads this
    {
      clientSockets.Length == CAPACITY && 0 <= clientCount <= CAPACITY
    }

    ghost function Current(): Clients
      requires Valid()
      reads this, clientSockets
    {
      Clients(clientSockets[..clientCount], broadcasts)
    }

    constructor (serverSocket: int)
      ensures Valid() && fresh(clientSockets) && clientSockets.Length == 100
      ensures this.serverSocket == serverSocket && Current() == Clients([], [])
    {
      this.serverSocket := serverSocket;
      clientSockets := new int[CAPACITY];
      clientCount := 0;
      broadcasts := [];
    }

    method ServeBatch(events: seq<int>, r: Round)
      requires Valid()
      requires AllReadable(events, serverSocket, r)
      requires HasRoom(Current(), events, serverSocket, r)
      modifies this, clientSockets
      ensures Valid()
      ensures Current() == HandleBatch(old(Current()), events, serverSocket, r)
    {
      for i := 0 to |events|
        invariant Valid()
        invariant Current() == HandleBatch(old(Current()), events[..i], serverSocket, r)
      {
        assert events[..i + 1][..i] == events[..i];
        var currentFd := events[i];
        if currentFd == serverSocket {
          clientSockets[clientCount] := r.accepted;
          clientCount := clientCount + 1;
        } else if r.input[currentFd] == "" {
          Remove(currentFd);
        } else {
          Pass(currentFd, r.input[currentFd]);
        }
      }
      assert events[..|events|] == events;
    }

    method Remove(fd: int)
      requires Valid()
      modifies this`clientCount, clientSockets
      ensures Valid()
      ensures Current() == Clients(SwapRemoved(old(Current()).fds, fd), broadcasts)
    {
      ghost var was := clientSockets[..clientCount];
      var j := 0;
      while j < clientCount
        invariant 0 <= j <= clientCount == old(clientCount)
        invariant clientSockets[..] == old(clientSockets[..])
        invariant forall k :: 0 <= k < j ==> was[k] != fd
      {
        if clientSockets[j] == fd {
          clientCount := clientCount - 1;
          clientSockets[j] := clientSockets[clientCount];
          GapIsFilled(was, clientSockets[..clientCount], fd, j);
          return;
        }
        j := j + 1;
      }
    }

    method Pass(sender: int, message: string)
      requires Valid()
      modifies this`broadcasts
      ensures Valid()
      ensures broadcasts == old(broadcasts)
                            + [Broadcast(sender, message, Others(clientSockets[..clientCount], sender))]
    {
      var to := [];
      var j := 0;
      while j < clientCount
        invariant 0 <= j <= clientCount
        invariant to == Others(clientSockets[..j], sender)
      {
        assert clientSockets[..j + 1][..j] == clientSockets[..j];
        if clientSockets[j] != sender {
          to := to + [clientSockets[j]];
        }
        j := j + 1;
      }
      broadcasts := broadcasts + [Broadcast(sender, message, to)];
    }
  }
}
