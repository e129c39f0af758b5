/** The chat server's socket table (week7/server.c): a fixed array, a count, and the three
    critical sections that touch them. Each method is the code between one
    pthread_mutex_lock and the matching unlock. */
module ChatTable {
  import opened Sequences

  const MAX_CLIENT: nat := 100
  const BUF_SIZE: nat := 1024

  type Message = seq<char>

  /** One write(2) call: which descriptor was given which bytes. */
  datatype Write = Write(fd: int, msg: Message)

  /** The writes of one send_msg: every registered socket once, in table order. */
  function Broadcast(socks: seq<int>, msg: Message): (w: seq<Write>)
    ensures |w| == |socks|
    ensures forall k :: 0 <= k < |socks| ==> w[k] == Write(socks[k], msg)
  {
    seq(|socks|, k requires 0 <= k < |socks| => Write(socks[k], msg))
  }

  /** The shift loop's result: everything from the gap on has moved one place left. */
  lemma ShiftedLeft(was: seq<int>, now: seq<int>, fd: int, i: nat)
    requires i < |was| && was[i] == fd && forall k :: 0 <= k < i ==> was[k] != fd
    requires |now| == |was| - 1
    requires forall k :: 0 <= k < |now| ==> now[k] == was[if k < i then k else k + 1]
    ensures now == Without(was, fd)
  {
    IndexOfFirst(was, fd, i);
  }

  class SocketTable {
    const clientSocks: array<int>
    var clientCount: int
    var written: seq<Write>

    ghost predicate Valid()
      reads this
    {
      clientSocks.Length == MAX_CLIENT && 0 <= clientCount <= MAX_CLIENT
    }

    ghost function Socks(): seq<int>
      requires Valid()
      reads this, clientSocks
    {
      clientSocks[..clientCount]
    }

    constructor ()
      ensures Valid() && Socks() == [] && written == []
      ensures fresh(clientSocks)
    {
      clientSocks := new int[MAX_CLIENT];
      clientCount := 0;
      written := [];
    }

    /** main, after accept: refuses when full, else appends. */
    method Register(fd: int) returns (ok: bool)
      requires Valid()
      modifies this`clientCount, clientSocks
      ensures Valid()
      ensures ok <==> |old(Socks())| < MAX_CLIENT
      ensures Socks() == if ok then old(Socks()) + [fd] else old(Socks())
    {
      if clientCount >= MAX_CLIENT {
        return false;
      }
      clientSocks[clientCount] := fd;
      clientCount := clientCount + 1;
      return true;
    }

    /** main, after malloc or pthread_create failed: drops whatever entry is last. */
    method Rollback()
      requires Valid() && clientCount > 0
      modifies this`clientCount
      ensures Valid()
      ensures Socks() == old(Socks())[..|old(Socks())| - 1]
    {
      clientCount := clientCount - 1;
    }

    /** The end of handle_clnt: find the handler's own socket and shift the rest left. */
    method Unregister(fd: int)
      requires Valid()
      modifies this`clientCount, clientSocks
      ensures Valid()
      ensures Socks() == Without(old(Socks()), fd)
    {
      ghost var was := Socks();
      var i := 0;
      while i < clientCount
        invariant 0 <= i <= clientCount == old(clientCount)
        invariant clientSocks[..] == old(clientSocks[..])
        invariant forall k :: 0 <= k < i ==> was[k] != fd
      {
        if fd == clientSocks[i] {
          var j := i;
          while j < clientCount - 1
            invariant i <= j <= clientCount - 1 && clientCount == old(clientCount)
            invariant forall k :: 0 <= k < clientCount ==>
                        clientSocks[k] == was[if i <= k < j then k + 1 else k]
          {
            clientSocks[j] := clientSocks[j + 1];
            j := j + 1;
          }
          clientCount := clientCount - 1;
          ShiftedLeft(was, clientSocks[..clientCount], fd, i);
          return;
        }
        i := i + 1;
      }
    }

    /** send_msg: one write per registered socket while the mutex is held. */
    method SendMsg(msg: Message)
      requires Valid()
      modifies this`written
      ensures Valid() && Socks() == old(Socks())
      ensures written == old(written) + Broadcast(Socks(), msg)
    {
      var i := 0;
      while i < clientCount
        invariant 0 <= i <= clientCount
        invariant written == old(written) + Broadcast(Socks(), msg)[..i]
      {
        written := written + [Write(clientSocks[i], msg)];
        i := i + 1;
      }
    }
  }
}
