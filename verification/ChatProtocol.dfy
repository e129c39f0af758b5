/** Every interleaving of the chat server's threads (week7/server.c).

    The accept thread and one handler thread per connection take turns; a step is one
    system call or one critical section, and each write(2) of a broadcast is its own step.
    A thread that wants the mutex can step only while the mutex is free. Descriptors are
    reused by the kernel, so connections get an identity of their own: their index in
    `clients`. The fields marked "history" are bookkeeping that no step reads. */
module ChatProtocol {
  import opened Sequences
  import opened ChatTable

  datatype Entry = Entry(sender: nat, msg: Message)

  /** Where a handler thread is. Sending(m, k): holds the mutex, k writes done. */
  datatype Stage =
    | Unstarted | Reading
    | WantSend(msg: Message) | Sending(msg: Message, next: nat)
    | WantLeave | Leaving
    | Left | Gone

  datatype Client = Client(
    fd: int,
    stage: Stage,
    read: seq<Message>,   // history: what its handler has read, in order
    got: seq<Entry>,      // history: what has been written to it
    joined: nat,          // history: length of the log when it was registered
    left: nat)            // history: length of the log when it was unregistered

  /** Where the accept thread is, and for which connection. */
  datatype MainStage =
    | Accepting
    | WantAdd(c: nat) | Adding(c: nat) | Refusing(c: nat)
    | Starting(c: nat)
    | Aborting(c: nat) | WantUndo(c: nat) | Undoing(c: nat)

  datatype Mutex = Free | HeldByMain | HeldBy(c: nat)

  datatype State = State(
    socks: seq<int>,          // client_socks[0..client_count]
    mutex: Mutex,
    main: MainStage,
    clients: seq<Client>,
    open: map<int, nat>,      // open descriptors and the connection each one is
    owners: seq<nat>,         // history: the connection behind each entry of socks
    log: seq<Entry>)          // history: broadcasts in the order they took the mutex

  datatype Event =
    | Accept(fd: int)
    | MainLocks
    | MainAdds
    | MainClosesRefused
    | MainStarts(ok: bool)      // malloc and pthread_create both succeed, or not
    | MainClosesAborted
    | MainUndoes
    | Read(c: nat, msg: Message)
    | Hangup(c: nat)
    | Locks(c: nat)
    | Writes(c: nat)
    | EndsSend(c: nat)
    | Leaves(c: nat)
    | Closes(c: nat)

  const INIT := State([], Free, Accepting, [], map[], [], [])

  predicate Enabled(s: State, e: Event) {
    match e
    case Accept(fd) => s.main.Accepting? && fd >= 0 && fd !in s.open
    case MainLocks => (s.main.WantAdd? || s.main.WantUndo?) && s.mutex.Free?
    case MainAdds => s.main.Adding? && s.main.c < |s.clients|
    case MainClosesRefused => s.main.Refusing? && s.main.c < |s.clients|
    case MainStarts(_) => s.main.Starting? && s.main.c < |s.clients|
    case MainClosesAborted => s.main.Aborting? && s.main.c < |s.clients|
    case MainUndoes => s.main.Undoing? && |s.socks| > 0
    case Read(c, msg) => c < |s.clients| && s.clients[c].stage.Reading? && 0 < |msg| <= BUF_SIZE
    case Hangup(c) => c < |s.clients| && s.clients[c].stage.Reading?
    case Locks(c) =>
      && c < |s.clients| && s.mutex.Free?
      && (s.clients[c].stage.WantSend? || s.clients[c].stage.WantLeave?)
    case Writes(c) => c < |s.clients| && s.clients[c].stage.Sending? && s.clients[c].stage.next < |s.socks|
    case EndsSend(c) => c < |s.clients| && s.clients[c].stage.Sending? && s.clients[c].stage.next >= |s.socks|
    case Leaves(c) => c < |s.clients| && s.clients[c].stage.Leaving?
    case Closes(c) => c < |s.clients| && s.clients[c].stage.Left?
  }

  function Set(s: State, c: nat, stage: Stage): State
    requires c < |s.clients|
  {
    s.(clients := s.clients[c := s.clients[c].(stage := stage)])
  }

  /** close(2). */
  function CloseFd(s: State, fd: int): State {
    s.(open := s.open - {fd})
  }

  /** write(2) of the broadcast entry e; a closed descriptor takes nothing. */
  function WriteFd(s: State, fd: int, e: Entry): State {
    if fd in s.open && s.open[fd] < |s.clients| then
      var d := s.open[fd];
      s.(clients := s.clients[d := s.clients[d].(got := s.clients[d].got + [e])])
    else s
  }

  function Apply(s: State, e: Event): State
    requires Enabled(s, e)
  {
    match e
    case Accept(fd) =>
      s.(clients := s.clients + [Client(fd, Unstarted, [], [], 0, 0)],
         open := s.open[fd := |s.clients|], main := WantAdd(|s.clients|))
    case MainLocks =>
      s.(mutex := HeldByMain,
         main := if s.main.WantAdd? then Adding(s.main.c) else Undoing(s.main.c))
    case MainAdds =>
      var c := s.main.c;
      if |s.socks| >= MAX_CLIENT then
        s.(mutex := Free, main := Refusing(c))
      else
        s.(mutex := Free, main := Starting(c),
           socks := s.socks + [s.clients[c].fd], owners := s.owners + [c],
           clients := s.clients[c := s.clients[c].(joined := |s.log|)])
    case MainClosesRefused =>
      CloseFd(s, s.clients[s.main.c].fd).(main := Accepting)
    case MainStarts(ok) =>
      var c := s.main.c;
      if ok then Set(s, c, Reading).(main := Accepting)
      else s.(main := Aborting(c))
    case MainClosesAborted =>
      CloseFd(s, s.clients[s.main.c].fd).(main := WantUndo(s.main.c))
    case MainUndoes =>
      s.(mutex := Free, main := Accepting, socks := s.socks[..|s.socks| - 1],
         owners := Without(s.owners, s.main.c))
    case Read(c, msg) =>
      var t := Set(s, c, WantSend(msg));
      t.(clients := t.clients[c := t.clients[c].(read := t.clients[c].read + [msg])])
    case Hangup(c) => Set(s, c, WantLeave)
    case Locks(c) =>
      match s.clients[c].stage {
        case WantSend(msg) =>
          Set(s, c, Sending(msg, 0)).(mutex := HeldBy(c), log := s.log + [Entry(c, msg)])
        case _ => Set(s, c, Leaving).(mutex := HeldBy(c))
      }
    case Writes(c) =>
      var Sending(msg, k) := s.clients[c].stage;
      var w := Broadcast(s.socks, msg)[k];
      WriteFd(Set(s, c, Sending(msg, k + 1)), w.fd, Entry(c, w.msg))
    case EndsSend(c) => Set(s, c, Reading).(mutex := Free)
    case Leaves(c) =>
      var t := Set(s, c, Left).(mutex := Free, socks := Without(s.socks, s.clients[c].fd),
                                owners := Without(s.owners, c));
      t.(clients := t.clients[c := t.clients[c].(left := |s.log|)])
    case Closes(c) => CloseFd(Set(s, c, Gone), s.clients[c].fd)
  }

  // ---- What every step keeps --------------------------------------------------------

  predicate Started(stage: Stage) {
    !stage.Unstarted?
  }

  /** The accept thread has put c in the table and not yet handed it over or taken it out. */
  predicate MainHolds(s: State, c: nat) {
    (s.main.Starting? || s.main.Aborting? || s.main.WantUndo? || s.main.Undoing?) && s.main.c == c
  }

  predicate MainClosed(s: State, c: nat) {
    (s.main.WantUndo? || s.main.Undoing?) && s.main.c == c
  }

  predicate Registered(s: State, c: nat)
    requires c < |s.clients|
  {
    var stage := s.clients[c].stage;
    (Started(stage) && !stage.Left? && !stage.Gone?) || MainHolds(s, c)
  }

  predicate IsOpen(s: State, c: nat)
    requires c < |s.clients|
  {
    var stage := s.clients[c].stage;
    if Started(stage) then !stage.Gone?
    else !s.main.Accepting? && s.main.c == c && !MainClosed(s, c)
  }

  predicate Broadcasting(s: State) {
    s.mutex.HeldBy? && s.mutex.c < |s.clients| && s.clients[s.mutex.c].stage.Sending?
  }

  /** How much of the log has been written to the k-th table entry. */
  function Served(s: State, k: nat): int {
    if Broadcasting(s) && s.clients[s.mutex.c].stage.next <= k then |s.log| - 1 else |s.log|
  }

  ghost predicate IsSegment(c: Client, log: seq<Entry>, upTo: int) {
    c.joined <= upTo <= |log| && c.got == log[c.joined..upTo]
  }

  /** The messages of one sender, in log order. */
  function SentBy(log: seq<Entry>, c: nat): seq<Message> {
    if log == [] then []
    else
      var rest := SentBy(log[..|log| - 1], c);
      var last := log[|log| - 1];
      if last.sender == c then rest + [last.msg] else rest
  }

  function Unsent(stage: Stage): seq<Message> {
    if stage.WantSend? then [stage.msg] else []
  }

  /** What holds of connection c: whether its descriptor is open, whether it holds the
      mutex, whether it is in the table, and how its history relates to the log. */
  ghost predicate ClientOk(s: State, c: nat)
    requires c < |s.clients|
  {
    var client := s.clients[c];
    && (IsOpen(s, c) <==> client.fd in s.open && s.open[client.fd] == c)
    && (s.mutex == HeldBy(c) <==> client.stage.Sending? || client.stage.Leaving?)
    && (Registered(s, c) <==> c in s.owners)
    && client.read == SentBy(s.log, c) + Unsent(client.stage)
    && (client.stage.Left? || client.stage.Gone? ==> IsSegment(client, s.log, client.left))
  }

  /** What holds of the k-th table entry. */
  ghost predicate EntryOk(s: State, k: nat)
    requires k < |s.owners| == |s.socks|
  {
    var c := s.owners[k];
    && c < |s.clients|
    && s.socks[k] == s.clients[c].fd
    && (!MainClosed(s, c) ==> IsSegment(s.clients[c], s.log, Served(s, k)))
  }

  ghost predicate FdOk(s: State, fd: int)
    requires fd in s.open
  {
    s.open[fd] < |s.clients| && s.clients[s.open[fd]].fd == fd
  }

  ghost predicate MainOk(s: State) {
    && (s.mutex.HeldByMain? <==> s.main.Adding? || s.main.Undoing?)
    && (!s.main.Accepting? ==>
          && s.main.c < |s.clients|
          && !Started(s.clients[s.main.c].stage)
          && (s.main.WantAdd? || s.main.Adding? ==> s.clients[s.main.c].got == [])
          && (MainHolds(s, s.main.c) ==> |s.owners| > 0 && s.owners[|s.owners| - 1] == s.main.c)
          && (MainClosed(s, s.main.c) ==> s.clients[s.main.c].fd !in s.open))
  }

  ghost predicate LogOk(s: State) {
    && (s.mutex.HeldBy? ==> s.mutex.c < |s.clients|)
    && (Broadcasting(s) ==>
          var st := s.clients[s.mutex.c].stage;
          st.next <= |s.socks| && |s.log| > 0 && s.log[|s.log| - 1] == Entry(s.mutex.c, st.msg))
    && (forall j :: 0 <= j < |s.log| ==> s.log[j].sender < |s.clients|)
  }

  ghost predicate Inv(s: State) {
    && |s.socks| == |s.owners| <= MAX_CLIENT
    && Distinct(s.owners)
    && MainOk(s)
    && LogOk(s)
    && (forall c :: 0 <= c < |s.clients| ==> ClientOk(s, c))
    && (forall k :: 0 <= k < |s.owners| ==> EntryOk(s, k))
    && (forall fd :: fd in s.open ==> FdOk(s, fd))
  }

  lemma {:induction false} NothingSentYet(log: seq<Entry>, c: nat)
    requires forall j :: 0 <= j < |log| ==> log[j].sender != c
    ensures SentBy(log, c) == []
  {
    if log != [] {
      NothingSentYet(log[..|log| - 1], c);
    }
  }

  /** Every entry of the table is a known connection. */
  lemma OwnersKnown(s: State)
    requires Inv(s)
    ensures forall k :: 0 <= k < |s.owners| ==> s.owners[k] < |s.clients|
  {
    forall k | 0 <= k < |s.owners| ensures s.owners[k] < |s.clients| {
      assert EntryOk(s, k);
    }
  }

  /** The k-th table entry is an open descriptor of the connection that registered it, except
      while the accept thread is taking that very connection out again; then the number is not
      open at all, so it cannot have been reused. */
  lemma EntryIsOpen(s: State, k: nat)
    requires Inv(s) && k < |s.socks|
    ensures var c := s.owners[k];
            if MainClosed(s, c) then s.socks[k] !in s.open
            else s.socks[k] in s.open && s.open[s.socks[k]] == c
  {
    assert EntryOk(s, k);
    assert ClientOk(s, s.owners[k]);
  }

  /** A handler looking for its own descriptor stops at its own entry. */
  lemma FindsItself(s: State, c: nat)
    requires Inv(s) && c < |s.clients| && s.clients[c].stage.Leaving?
    ensures IndexOf(s.socks, s.clients[c].fd) == IndexOf(s.owners, c) < |s.owners|
  {
    assert ClientOk(s, c);
    var k := IndexOf(s.owners, c);
    assert EntryOk(s, k);
    forall j | 0 <= j < k ensures s.socks[j] != s.clients[c].fd {
      EntryIsOpen(s, j);
      assert EntryOk(s, j);
    }
  }

  /** The last entry is the connection the accept thread is rolling back. */
  lemma UndoDropsItsOwn(s: State)
    requires Inv(s) && s.main.Undoing?
    ensures |s.socks| > 0
    ensures s.socks[..|s.socks| - 1] == RemoveAt(s.socks, IndexOf(s.owners, s.main.c))
    ensures s.owners[..|s.owners| - 1] == Without(s.owners, s.main.c)
  {
    assert s.owners[|s.owners| - 1] == s.main.c;
  }

  lemma KeepsShape(s: State, e: Event)
    requires Inv(s) && Enabled(s, e)
    ensures var t := Apply(s, e);
            |t.socks| == |t.owners| <= MAX_CLIENT && Distinct(t.owners)
  {
    match e
    case MainAdds => OwnersKnown(s); assert ClientOk(s, s.main.c);
    case MainUndoes => UndoDropsItsOwn(s);
    case Leaves(c) => FindsItself(s, c); WithoutDistinct(s.owners, c);
    case _ =>
  }

  predicate ByMain(e: Event) {
    e.Accept? || e.MainLocks? || e.MainAdds? || e.MainClosesRefused? || e.MainStarts?
    || e.MainClosesAborted? || e.MainUndoes?
  }

  lemma MainKeepsMain(s: State, e: Event)
    requires Inv(s) && Enabled(s, e) && ByMain(e)
    ensures MainOk(Apply(s, e))
  {
    if e.MainClosesAborted? {
      assert ClientOk(s, s.main.c);
    }
  }

  lemma WriteKeepsMain(s: State, e: Event)
    requires Inv(s) && Enabled(s, e) && e.Writes?
    ensures MainOk(Apply(s, e))
  {
    assert ClientOk(s, e.c);
    if !s.main.Accepting? {
      assert ClientOk(s, s.main.c);
    }
    EntryIsOpen(s, s.clients[e.c].stage.next);
  }

  /** A handler's own entry is cut out of the table, and nothing else changes but its stage. */
  ghost predicate CutOut(s: State, t: State, c: nat)
    requires c < |s.clients|
  {
    var j := IndexOf(s.owners, c);
    && |s.socks| == |s.owners| && j < |s.owners|
    && t.owners == RemoveAt(s.owners, j) && t.socks == RemoveAt(s.socks, j)
    && t.log == s.log && t.main == s.main && t.open == s.open
    && s.mutex == HeldBy(c) && t.mutex.Free? && s.clients[c].stage.Leaving?
    && t.clients == s.clients[c := s.clients[c].(stage := Left, left := |s.log|)]
  }

  lemma LeavingCutsOut(s: State, c: nat)
    requires Inv(s) && Enabled(s, Leaves(c))
    ensures CutOut(s, Apply(s, Leaves(c)), c)
  {
    assert ClientOk(s, c);
    FindsItself(s, c);
  }

  lemma CutKeepsMain(s: State, t: State, c: nat)
    requires MainOk(s) && c < |s.clients| && CutOut(s, t, c)
    ensures MainOk(t)
  {
    if !s.main.Accepting? && MainHolds(s, s.main.c) {
      var n := |s.owners| - 1;
      assert s.owners[n] == s.main.c != c;
      assert t.owners[n - 1] == s.owners[n];
    }
  }

  lemma LeavingKeepsMain(s: State, e: Event)
    requires Inv(s) && Enabled(s, e) && e.Leaves?
    ensures MainOk(Apply(s, e))
  {
    LeavingCutsOut(s, e.c);
    CutKeepsMain(s, Apply(s, e), e.c);
  }

  lemma HandlersKeepMain(s: State, e: Event)
    requires Inv(s) && Enabled(s, e) && !ByMain(e) && !e.Writes? && !e.Leaves?
    ensures MainOk(Apply(s, e))
  {
    assert ClientOk(s, e.c);
    if !s.main.Accepting? {
      assert ClientOk(s, s.main.c);
    }
  }

  lemma MainKeepsLog(s: State, e: Event)
    requires Inv(s) && Enabled(s, e) && ByMain(e)
    ensures LogOk(Apply(s, e))
  {
  }

  lemma LockKeepsLog(s: State, e: Event)
    requires Inv(s) && Enabled(s, e) && e.Locks?
    ensures LogOk(Apply(s, e))
  {
    assert ClientOk(s, e.c);
  }

  lemma HandlersKeepLog(s: State, e: Event)
    requires Inv(s) && Enabled(s, e) && !ByMain(e)
    ensures LogOk(Apply(s, e))
  {
    if e.Locks? {
      LockKeepsLog(s, e);
    } else if e.Leaves? {
      LeavingCutsOut(s, e.c);
    } else {
      assert ClientOk(s, e.c);
    }
  }

  /** What an event does to the open descriptors. */
  lemma OpenMoves(s: State, e: Event)
    requires Enabled(s, e)
    ensures var t := Apply(s, e);
            if e.Accept? then
              && t.open == s.open[e.fd := |s.clients|]
              && |t.clients| == |s.clients| + 1 && t.clients[|s.clients|].fd == e.fd
            else forall fd :: fd in t.open ==> fd in s.open && t.open[fd] == s.open[fd]
  {
  }

  lemma FdsStay(s: State, e: Event, d: nat)
    requires Enabled(s, e) && d < |s.clients|
    ensures |s.clients| <= |Apply(s, e).clients| && Apply(s, e).clients[d].fd == s.clients[d].fd
  {
  }

  lemma KeepsFd(s: State, e: Event, fd: int)
    requires Inv(s) && Enabled(s, e) && fd in Apply(s, e).open
    ensures FdOk(Apply(s, e), fd)
  {
    OpenMoves(s, e);
    if fd in s.open && s.open[fd] == Apply(s, e).open[fd] {
      assert FdOk(s, fd);
      FdsStay(s, e, s.open[fd]);
    }
  }

  lemma AcceptKeepsClient(s: State, e: Event, d: nat)
    requires Inv(s) && Enabled(s, e) && e.Accept? && d <= |s.clients|
    ensures ClientOk(Apply(s, e), d)
  {
    if d < |s.clients| { assert ClientOk(s, d); }
    OwnersKnown(s);
    NothingSentYet(s.log, |s.clients|);
  }

  lemma MainClosingKeepsClient(s: State, e: Event, d: nat)
    requires Inv(s) && Enabled(s, e) && d < |s.clients|
    requires e.MainClosesRefused? || e.MainClosesAborted?
    ensures ClientOk(Apply(s, e), d)
  {
    assert ClientOk(s, d);
    assert ClientOk(s, s.main.c);
  }

  lemma MainKeepsClient(s: State, e: Event, d: nat)
    requires Inv(s) && Enabled(s, e) && d < |s.clients|
    requires e.MainLocks? || e.MainStarts?
    ensures ClientOk(Apply(s, e), d)
  {
    assert ClientOk(s, d);
    assert ClientOk(s, s.main.c);
  }

  lemma AddKeepsClient(s: State, e: Event, d: nat)
    requires Inv(s) && Enabled(s, e) && e.MainAdds? && d < |s.clients|
    ensures ClientOk(Apply(s, e), d)
  {
    assert ClientOk(s, d);
    assert ClientOk(s, s.main.c);
  }

  lemma UndoKeepsClient(s: State, e: Event, d: nat)
    requires Inv(s) && Enabled(s, e) && e.MainUndoes? && d < |s.clients|
    ensures ClientOk(Apply(s, e), d)
  {
    assert ClientOk(s, d);
    assert ClientOk(s, s.main.c);
    UndoDropsItsOwn(s);
    WithoutDistinct(s.owners, s.main.c);
  }

  lemma WriteKeepsClient(s: State, e: Event, d: nat)
    requires Inv(s) && Enabled(s, e) && e.Writes? && d < |s.clients|
    ensures ClientOk(Apply(s, e), d)
  {
    assert ClientOk(s, d);
    assert ClientOk(s, e.c);
    EntryIsOpen(s, s.clients[e.c].stage.next);
  }

  lemma LeavingKeepsClient(s: State, e: Event, d: nat)
    requires Inv(s) && Enabled(s, e) && e.Leaves? && d < |s.clients|
    ensures ClientOk(Apply(s, e), d)
  {
    assert ClientOk(s, d);
    assert ClientOk(s, e.c);
    WithoutDistinct(s.owners, e.c);
    assert EntryOk(s, IndexOf(s.owners, e.c));
  }

  lemma LockKeepsClient(s: State, e: Event, d: nat)
    requires Inv(s) && Enabled(s, e) && e.Locks? && d < |s.clients|
    ensures ClientOk(Apply(s, e), d)
  {
    assert ClientOk(s, d);
    assert ClientOk(s, e.c);
    assert forall x :: (s.log + [x])[..|s.log|] == s.log;
  }

  lemma ClosingKeepsClient(s: State, e: Event, d: nat)
    requires Inv(s) && Enabled(s, e) && e.Closes? && d < |s.clients|
    ensures ClientOk(Apply(s, e), d)
  {
    assert ClientOk(s, d);
    assert ClientOk(s, e.c);
  }

  lemma HandlersKeepClient(s: State, e: Event, d: nat)
    requires Inv(s) && Enabled(s, e) && (e.Read? || e.Hangup? || e.EndsSend?) && d < |s.clients|
    ensures ClientOk(Apply(s, e), d)
  {
    assert ClientOk(s, d);
    assert ClientOk(s, e.c);
  }

  lemma TableChangeKeepsEntry(s: State, e: Event, k: nat)
    requires Inv(s) && Enabled(s, e) && (e.MainAdds? || e.MainUndoes?)
    requires k < |Apply(s, e).owners| == |Apply(s, e).socks|
    ensures EntryOk(Apply(s, e), k)
  {
    if k < |s.owners| {
      assert EntryOk(s, k);
      assert ClientOk(s, s.owners[k]);
    }
    if e.MainUndoes? {
      UndoDropsItsOwn(s);
    }
  }

  /** The accept thread's other steps leave table, log and deliveries as they are. */
  lemma MainLeavesTable(s: State, e: Event)
    requires Enabled(s, e) && ByMain(e) && !e.MainAdds? && !e.MainUndoes?
    ensures var t := Apply(s, e);
            && t.socks == s.socks && t.owners == s.owners && t.log == s.log && |s.clients| <= |t.clients|
            && (forall d :: 0 <= d < |s.clients| ==>
                  && t.clients[d].fd == s.clients[d].fd && t.clients[d].got == s.clients[d].got
                  && t.clients[d].joined == s.clients[d].joined)
            && (forall d: nat :: MainClosed(s, d) ==> MainClosed(t, d))
  {
  }

  lemma MainLeavesServed(s: State, e: Event, k: nat)
    requires Inv(s) && Enabled(s, e) && ByMain(e) && !e.MainAdds? && !e.MainUndoes?
    ensures Served(Apply(s, e), k) == Served(s, k)
  {
    if s.mutex.HeldBy? {
      assert ClientOk(s, s.mutex.c);
    }
  }

  lemma MainKeepsEntry(s: State, e: Event, k: nat)
    requires Inv(s) && Enabled(s, e) && ByMain(e) && !e.MainAdds? && !e.MainUndoes?
    requires k < |Apply(s, e).owners| == |Apply(s, e).socks|
    ensures EntryOk(Apply(s, e), k)
  {
    assert EntryOk(s, k);
    MainLeavesTable(s, e);
    MainLeavesServed(s, e, k);
  }

  /** One write: the connection at that table entry gets the message being broadcast. */
  lemma WriteDelivers(s: State, c: nat)
    requires Inv(s) && Enabled(s, Writes(c))
    ensures var k := s.clients[c].stage.next;
            var d := s.owners[k];
            var t := Apply(s, Writes(c));
            && s.mutex == HeldBy(c) && |s.log| > 0 && d < |s.clients|
            && |t.clients| == |s.clients| && t.clients[c].stage == Sending(s.clients[c].stage.msg, k + 1)
            && t.socks == s.socks && t.owners == s.owners && t.log == s.log && t.mutex == s.mutex && t.main == s.main
            && (!MainClosed(s, d) ==> t.clients[d].got == s.clients[d].got + [s.log[|s.log| - 1]])
            && (forall x :: 0 <= x < |s.clients| ==>
                  && t.clients[x].fd == s.clients[x].fd && t.clients[x].joined == s.clients[x].joined
                  && (x != d || MainClosed(s, d) ==> t.clients[x].got == s.clients[x].got))
  {
    assert ClientOk(s, c);
    EntryIsOpen(s, s.clients[c].stage.next);
    assert EntryOk(s, s.clients[c].stage.next);
  }

  lemma SegmentGrows(log: seq<Entry>, from: nat)
    requires from < |log|
    ensures log[from..|log| - 1] + [log[|log| - 1]] == log[from..|log|]
  {
  }

  lemma WriteKeepsEntry(s: State, e: Event, k: nat)
    requires Inv(s) && Enabled(s, e) && e.Writes? && k < |Apply(s, e).owners| == |Apply(s, e).socks|
    ensures EntryOk(Apply(s, e), k)
  {
    WriteDelivers(s, e.c);
    assert EntryOk(s, k);
    var d := s.owners[k];
    if k == s.clients[e.c].stage.next && !MainClosed(s, d) {
      SegmentGrows(s.log, s.clients[d].joined);
    }
  }

  lemma CutKeepsEntry(s: State, t: State, c: nat, k: nat, from: nat)
    requires c < |s.clients| && CutOut(s, t, c) && k < |t.owners| == |t.socks|
    requires from == (if k < IndexOf(s.owners, c) then k else k + 1) < |s.owners| && EntryOk(s, from)
    ensures EntryOk(t, k)
  {
    assert t.owners[k] == s.owners[from] && t.socks[k] == s.socks[from];
    assert !Broadcasting(s) && !Broadcasting(t);
  }

  lemma LeavingKeepsEntry(s: State, e: Event, k: nat)
    requires Inv(s) && Enabled(s, e) && e.Leaves? && k < |Apply(s, e).owners| == |Apply(s, e).socks|
    ensures EntryOk(Apply(s, e), k)
  {
    LeavingCutsOut(s, e.c);
    var from := if k < IndexOf(s.owners, e.c) then k else k + 1;
    assert EntryOk(s, from);
    CutKeepsEntry(s, Apply(s, e), e.c, k, from);
  }

  lemma SegmentStays(c: Client, log: seq<Entry>, next: Entry, upTo: int)
    requires IsSegment(c, log, upTo)
    ensures IsSegment(c, log + [next], upTo)
  {
    assert (log + [next])[c.joined..upTo] == log[c.joined..upTo];
  }

  lemma LockKeepsEntry(s: State, e: Event, k: nat)
    requires Inv(s) && Enabled(s, e) && e.Locks? && k < |Apply(s, e).owners| == |Apply(s, e).socks|
    ensures EntryOk(Apply(s, e), k)
  {
    assert ClientOk(s, e.c);
    assert EntryOk(s, k);
    var owner := s.clients[s.owners[k]];
    if s.clients[e.c].stage.WantSend? && !MainClosed(s, s.owners[k]) {
      SegmentStays(owner, s.log, Entry(e.c, s.clients[e.c].stage.msg), Served(s, k));
    }
  }

  lemma HandlersKeepEntry(s: State, e: Event, k: nat)
    requires Inv(s) && Enabled(s, e) && !ByMain(e) && !e.Writes? && !e.Leaves? && !e.Locks?
    requires k < |Apply(s, e).owners| == |Apply(s, e).socks|
    ensures EntryOk(Apply(s, e), k)
  {
    assert ClientOk(s, e.c);
    assert EntryOk(s, k);
    assert ClientOk(s, s.owners[k]);
  }

  lemma KeepsClient(s: State, e: Event, d: nat)
    requires Inv(s) && Enabled(s, e) && d < |Apply(s, e).clients|
    ensures ClientOk(Apply(s, e), d)
  {
    if e.Accept? { AcceptKeepsClient(s, e, d); }
    else if e.MainUndoes? { UndoKeepsClient(s, e, d); }
    else if e.MainAdds? { AddKeepsClient(s, e, d); }
    else if e.MainLocks? || e.MainStarts? { MainKeepsClient(s, e, d); }
    else if ByMain(e) { MainClosingKeepsClient(s, e, d); }
    else if e.Writes? { WriteKeepsClient(s, e, d); }
    else if e.Leaves? { LeavingKeepsClient(s, e, d); }
    else if e.Locks? { LockKeepsClient(s, e, d); }
    else if e.Closes? { ClosingKeepsClient(s, e, d); }
    else { HandlersKeepClient(s, e, d); }
  }

  lemma KeepsEntry(s: State, e: Event, k: nat)
    requires Inv(s) && Enabled(s, e) && k < |Apply(s, e).owners| == |Apply(s, e).socks|
    ensures EntryOk(Apply(s, e), k)
  {
    if e.MainAdds? || e.MainUndoes? { TableChangeKeepsEntry(s, e, k); }
    else if ByMain(e) { MainKeepsEntry(s, e, k); }
    else if e.Locks? { LockKeepsEntry(s, e, k); }
    else if e.Writes? { WriteKeepsEntry(s, e, k); }
    else if e.Leaves? { LeavingKeepsEntry(s, e, k); }
    else { HandlersKeepEntry(s, e, k); }
  }

  lemma StepKeepsInv(s: State, e: Event)
    requires Inv(s) && Enabled(s, e)
    ensures Inv(Apply(s, e))
  {
    var t := Apply(s, e);
    KeepsShape(s, e);
    if ByMain(e) { MainKeepsLog(s, e); } else { HandlersKeepLog(s, e); }
    if ByMain(e) { MainKeepsMain(s, e); }
    else if e.Writes? { WriteKeepsMain(s, e); }
    else if e.Leaves? { LeavingKeepsMain(s, e); }
    else { HandlersKeepMain(s, e); }
    forall fd | fd in t.open ensures FdOk(t, fd) { KeepsFd(s, e, fd); }
    forall d: nat | d < |t.clients| ensures ClientOk(t, d) { KeepsClient(s, e, d); }
    forall k: nat | k < |t.owners| ensures EntryOk(t, k) { KeepsEntry(s, e, k); }
  }

  // ---- Whole runs ---------------------------------------------------------------------

  /** The state after a run, or None when some event was not possible where it stands. */
  function Run(es: seq<Event>): Option<State> {
    if es == [] then Some(INIT)
    else
      var before := Run(es[..|es| - 1]);
      var e := es[|es| - 1];
      if before.Some? && Enabled(before.value, e) then Some(Apply(before.value, e)) else None
  }

  lemma {:induction false} RunsKeepInv(es: seq<Event>)
    requires Run(es).Some?
    ensures Inv(Run(es).value)
  {
    if es != [] {
      RunsKeepInv(es[..|es| - 1]);
      StepKeepsInv(Run(es[..|es| - 1]).value, es[|es| - 1]);
    }
  }

  /** How far into the log connection c has been served. */
  function Heard(s: State, c: nat): int
    requires c < |s.clients|
  {
    if s.clients[c].stage.Left? || s.clients[c].stage.Gone? then s.clients[c].left
    else Served(s, IndexOf(s.owners, c))
  }

  /** c has been sent the contiguous piece of the log from its registration to Heard. That is
      the log's end unless c was unregistered, or one broadcast is still on its way to c. */
  ghost predicate HearsOneSegment(s: State, c: nat)
    requires c < |s.clients|
  {
    var client := s.clients[c];
    && client.joined <= Heard(s, c) <= |s.log|
    && client.got == s.log[client.joined..Heard(s, c)]
    && (!client.stage.Left? && !client.stage.Gone? ==>
          Heard(s, c) == |s.log| || (Broadcasting(s) && Heard(s, c) == |s.log| - 1))
  }

  /** Total order: holds of every connection whose handler ever started, at any moment. */
  lemma {:induction false} EveryoneHearsOneSegment(es: seq<Event>, c: nat)
    requires Run(es).Some? && c < |Run(es).value.clients|
    requires Started(Run(es).value.clients[c].stage)
    ensures HearsOneSegment(Run(es).value, c)
  {
    RunsKeepInv(es);
    var s := Run(es).value;
    assert ClientOk(s, c);
    if !s.clients[c].stage.Left? && !s.clients[c].stage.Gone? {
      assert EntryOk(s, IndexOf(s.owners, c));
    }
  }

  /** The p-th message of the log is the one c received p - joined messages after joining. */
  ghost predicate HeardAt(client: Client, log: seq<Entry>, p: int) {
    && 0 <= p < |log|
    && 0 <= p - client.joined < |client.got|
    && client.got[p - client.joined] == log[p]
  }

  lemma LinesUp(client: Client, log: seq<Entry>, upTo: int, p: int)
    requires client.joined <= p < upTo <= |log| && client.got == log[client.joined..upTo]
    ensures HeardAt(client, log, p)
  {
  }

  /** Two connections see the messages they both see in the same order and without gaps:
      both streams line up with the log at every position both have heard. */
  lemma {:induction false} SameOrderForAll(es: seq<Event>, c: nat, d: nat, p: int)
    requires Run(es).Some? && c < |Run(es).value.clients| && d < |Run(es).value.clients|
    requires var s := Run(es).value;
             && Started(s.clients[c].stage) && s.clients[c].joined <= p < Heard(s, c)
             && Started(s.clients[d].stage) && s.clients[d].joined <= p < Heard(s, d)
    ensures var s := Run(es).value;
            HeardAt(s.clients[c], s.log, p) && HeardAt(s.clients[d], s.log, p)
  {
    var s := Run(es).value;
    EveryoneHearsOneSegment(es, c);
    EveryoneHearsOneSegment(es, d);
    LinesUp(s.clients[c], s.log, Heard(s, c), p);
    LinesUp(s.clients[d], s.log, Heard(s, d), p);
  }

  /** Nothing read is lost or reordered: the log holds each sender's messages in the order
      its handler read them, all but one still waiting for the mutex. */
  lemma {:induction false} SendersKeepTheirOrder(es: seq<Event>, c: nat)
    requires Run(es).Some? && c < |Run(es).value.clients|
    ensures var s := Run(es).value;
            s.clients[c].read == SentBy(s.log, c) + Unsent(s.clients[c].stage)
  {
    RunsKeepInv(es);
    assert ClientOk(Run(es).value, c);
  }

  /** The last entry is the connection being rolled back, and it is its only one: dropping it
      is removing that connection. */
  ghost predicate LastIsOwn(s: State, c: nat) {
    var n := |s.socks| - 1;
    && n >= 0 && |s.owners| == n + 1 && s.owners[n] == c < |s.clients| && s.socks[n] == s.clients[c].fd
    && IndexOf(s.owners, c) == n
  }

  /** The blind `client_count--` of the accept thread takes out exactly the connection it put
      in, whichever handlers have left in between. */
  lemma {:induction false} RollbackIsExact(es: seq<Event>, s: State)
    requires Run(es) == Some(s) && s.main.Undoing?
    ensures LastIsOwn(s, s.main.c)
  {
    RunsKeepInv(es);
    UndoDropsItsOwn(s);
    assert EntryOk(s, |s.owners| - 1);
  }

  /** The next write goes to a connection whose handler has not unregistered, through a
      descriptor that is open and still that connection's own; the exception is the connection
      the accept thread is rolling back, whose closed number stays unused meanwhile. */
  ghost predicate WriteIsSafe(s: State, c: nat)
    requires Enabled(s, Writes(c))
  {
    var k := s.clients[c].stage.next;
    && k < |s.owners| && s.owners[k] < |s.clients|
    && var d := s.owners[k];
    && s.socks[k] == s.clients[d].fd
    && !s.clients[d].stage.Left? && !s.clients[d].stage.Gone?
    && if MainClosed(s, d) then s.socks[k] !in s.open
       else s.socks[k] in s.open && s.open[s.socks[k]] == d
  }

  lemma {:induction false} WritesAreSafe(es: seq<Event>, c: nat)
    requires Run(es).Some? && Enabled(Run(es).value, Writes(c))
    ensures WriteIsSafe(Run(es).value, c)
  {
    RunsKeepInv(es);
    var s := Run(es).value;
    var k := s.clients[c].stage.next;
    EntryIsOpen(s, k);
    assert EntryOk(s, k);
    assert ClientOk(s, s.owners[k]);
  }

  /** The table at any moment: within bounds, its descriptors pairwise distinct, a registered
      descriptor closed exactly when the accept thread is rolling that connection back, and a
      handler that is leaving, or the rollback, finds precisely its own entry. */
  ghost predicate SoundTable(s: State) {
    && |s.socks| == |s.owners| <= MAX_CLIENT
    && Distinct(s.socks)
    && (forall k :: 0 <= k < |s.socks| ==> (s.socks[k] !in s.open <==> MainClosed(s, s.owners[k])))
    && (forall c: nat :: c < |s.clients| && s.clients[c].stage.Leaving? ==>
          IndexOf(s.socks, s.clients[c].fd) == IndexOf(s.owners, c) < |s.owners|)
    && (s.main.Undoing? && s.main.c < |s.clients| ==>
          && |s.socks| > 0
          && s.socks[|s.socks| - 1] == s.clients[s.main.c].fd
          && s.owners[|s.owners| - 1] == s.main.c)
  }

  lemma TableIsSound(es: seq<Event>)
    requires Run(es).Some?
    ensures SoundTable(Run(es).value)
  {
    RunsKeepInv(es);
    var s := Run(es).value;
    forall j, k | 0 <= j < k < |s.socks| ensures s.socks[j] != s.socks[k] {
      EntryIsOpen(s, j);
      EntryIsOpen(s, k);
      assert EntryOk(s, j);
      assert EntryOk(s, k);
    }
    forall k | 0 <= k < |s.socks|
      ensures s.socks[k] !in s.open <==> MainClosed(s, s.owners[k])
    {
      EntryIsOpen(s, k);
    }
    forall c: nat | c < |s.clients| && s.clients[c].stage.Leaving?
      ensures IndexOf(s.socks, s.clients[c].fd) == IndexOf(s.owners, c) < |s.owners|
    {
      FindsItself(s, c);
    }
    if s.main.Undoing? {
      assert EntryOk(s, |s.socks| - 1);
    }
  }

  /** The one window in which a registered descriptor is closed does occur. */
  lemma RollbackWindowIsReal()
    ensures var s := Run([Accept(4), MainLocks, MainAdds, MainStarts(false), MainClosesAborted]);
            s.Some? && s.value.socks == [4] && 4 !in s.value.open && s.value.mutex.Free?
  {
    var a: seq<Event> := [Accept(4)];
    var b := a + [MainLocks];
    var c := b + [MainAdds];
    var d := c + [MainStarts(false)];
    var e := d + [MainClosesAborted];
    assert a[..0] == [] && b[..1] == a && c[..2] == b && d[..3] == c && e[..4] == d;
    assert Run(a) == Some(Apply(INIT, Accept(4)));
    assert Run(b).Some? && Run(c).Some? && Run(d).Some?;
    assert e == [Accept(4), MainLocks, MainAdds, MainStarts(false), MainClosesAborted];
  }
}
