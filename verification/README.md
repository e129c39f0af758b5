# Game-networking servers: a verified model

The repository holds small network programs in C, Rust and C#. Five of them carry a protocol
or shared state, and these are modelled here, each from its own code:

- the threaded chat server (`week7/server.c`): a table of sockets behind one mutex, an accept
  thread that may have to take an entry back, and one handler thread per connection;
- the game server (`week13/lserver.c`, an event loop, and `week13/server.rs`, threads with two
  levels of locks): a lowest-free-slot player table and a login, logout, move, attack and item
  protocol, implemented twice;
- the file server and its client (`week5`): newline framing, a command session, a text download
  and a length-prefixed binary upload;
- one broadcast service over select and over epoll (`week11`);
- packet reassembly (`week13/server.cs`) and a key=value message (`week6`).

## How it is built

Code that changes things in place is a class or a method with loops here too (`SocketTable`,
the two game servers' `Server`, `Socket`, `Handler`, `Console`, `SelectServer.Server`,
`EpollServer.Server`, `FillBuffer`, `Serve`). Each such method is proved equal to a function on
values, and the protocol theorems are about those functions. Interleavings are state machines:
an event names who steps, `Enabled` says when, `Apply` says what happens, and `Run` folds a
sequence of events. The main theorems about a machine are about all its runs; where a property
fails for some, a theorem about one event says from which states on which events it is lost, and
one about runs that it holds throughout if and only if no such event occurs. Fields marked
"history" are bookkeeping that no step reads.

| modules | what they model |
|---|---|
| Sequences, Decimal | removal from a sequence; printf's %d and %ld, atol, sscanf's %d |
| ChatTable, ChatProtocol, ChatProgress, ChatDelivery | week7/server.c: the critical sections as code; all interleavings of the threads; that they never get stuck; who is let in and what is delivered |
| GameTable, LServer, LServerRuns, Packets | week13/lserver.c: the table and the event loop as code; all its runs with reused descriptors; what each packet type does |
| RsServer, RsThreads, RsSequential | week13/server.rs: its handlers as code; all interleavings of its threads; that the two agree |
| RsOrder | week13/server.rs: the global order of the TCP broadcasts, in every interleaving |
| Simulation, RsSerial | the C and the Rust game server side by side; that the Rust side is a run of the threads |
| Lines, Download, Upload | week5: framing, download and upload, as code and as functions on byte streams |
| Session, Lockstep, Liveness | week5: all interleavings of server and client; what they keep; that every command ends |
| Filing, Commands, Wording | week5: where transfers end up, under which names; what each typed command comes to; the bytes on the wire |
| Solo, FileServer, FileClient | week5: handle_client and the client's command loop as code, each proved to be a run of the session machine |
| Outcome, Halves | week5: what a peer does alone is settled by its bytes and inputs; that every interleaved session is two such runs |
| SelectServer, EpollServer, SelectEpoll | week11: the two servers as code, and that they agree |
| Reassembly, VarText | week13/server.cs's read loop; week6's printer and parser |

Three bridges tie code to machine. `ChatTable`'s methods, called on the machine's table, do what its
steps do (`ChatDelivery.AddStep`, `UndoStep`, `LeaveStep`). `RsSequential` shows that the small steps of `RsThreads` add up to
the handlers that `RsServer`'s methods compute, and `RsSerial` that the Rust side of `Simulation`
is a serial run of those threads. `FileServer.Handler.HandleClient` and `FileClient.Console.Run`
are proved to be runs of `Session`'s two peers on exactly the same inputs. `Halves` shows that
either peer's events in an interleaved session are such a run, on the bytes the other peer sent, and
`Outcome` that two such runs that cannot go on have ended in the same state. So the code, run alone,
ends where the session's peer ends (`Halves.ServeTheSession`, `Halves.PlayTheSession`).

## Assumptions

- A blocking send or write delivers all its bytes. accept never returns a descriptor that is
  still open. A read returns at least one byte or reports the end of the stream; how many bytes
  is left open everywhere.
- In the session machine a peer's step is one line sent, one line received, or one chunk of
  file data sent or received; a receive waits until what it needs has arrived.
- Between two lock operations a thread runs without interruption where the lock protects
  everything it touches; each write(2) of a chat broadcast, and each lock operation of a Rust
  broadcast, is a step of its own.
- A recv in lserver.c yields one whole packet, as its code assumes; server.rs uses read_exact.
- Bytes of text are characters. Floats are reals and are only copied. The number of player
  slots is a parameter wherever it does not matter that it is 1000.

## Where the code does not do what one might expect

Each of these is a lemma or part of a contract, next to the exact condition under which the code
does meet the property.

- A registered chat socket can be closed: between close and the rollback of its entry
  (`ChatProtocol.RollbackWindowIsReal`). `ChatProtocol.TableIsSound` says that a registered socket
  is closed exactly in that window, and `ChatProtocol.EntryIsOpen` that the number cannot have been
  reused meanwhile.
- A client that logs in twice and hangs up leaves a slot of lserver.c active on a closed descriptor
  (`LServerRuns.SecondLoginLeaksASlot`), until the number is used again and a stranger's hang-up
  frees the slot (`LServerRuns.LeakedSlotGoesToAStranger`). Meanwhile the stranger hears broadcasts
  without having logged in (`LServerRuns.LeakedSlotAnswersAStranger`). Active slots stay on open
  descriptors throughout a run exactly when no connection hangs up that two active slots carry
  (`LServerRuns.OpenIffNoSharedHangup`, `LServerRuns.RunsStayOpenIff`), and their descriptors stay
  distinct exactly when nobody is granted a login while holding a slot
  (`LServerRuns.DistinctIffPolite`, `LServerRuns.RunsStayDistinctIff`).
- The two game servers part (`Simulation.DivergenceIsReal`, `Simulation.HangupDivergenceIsReal`).
  Over every run of any clients they have the same table and have sent the same after each event if
  and only if none of these occurs (`Simulation.RunsAgreeIff`): a hang-up while the active slots
  linked to the connection are not exactly the active one, if any, that its live Rust thread
  remembers; a logout with an id that is no slot while the thread remembers an active slot; after a
  connection's logout, a packet that lserver.c still acts on.
- In server.rs a logout with somebody else's id frees that player's slot
  (`RsSerial.StrangersLogoutIsReal`), and a second granted login makes the thread forget its first
  slot (`RsSerial.SecondLoginLosesASlot`). Handled alone, a packet keeps slots and threads matched if
  and only if it is neither a granted login of a connection that remembers a slot nor a logout with
  the id of a slot the connection does not remember, when somebody is in that slot or the connection
  remembers another one (`RsSequential.PacketKeepsMatchIff`). In every interleaving they match
  throughout if and only if no thread comes to grant or free a slot in that way
  (`RsThreads.RunsMatchIff`). Another connection's packet takes a slot away if and only if it is a
  logout with that slot's id (`RsSequential.SlotSurvivesPacketIff`).
- send_line marks a line of 4095 bytes with a NUL instead of a newline; framing is faithful for
  exactly the lines of at most 4094 bytes without a newline (`Lines.FramingRoundTrips`).
- A download is exact for precisely the files that `Download.Downloadable` describes
  (`Download.DownloadIsExactIff`).
- The `(int)` cast in the upload loop is harmless, at every point the loop can get to, for exactly
  the sizes that fit an int (`Upload.ReadSizesAreSoundIff`). A larger file is cut to the cast of its
  size and not acknowledged, so it goes through if and only if its size is an int
  (`Upload.UploadIsExactIff`).
- If the connection ends inside an upload the server still sends its prompt
  (`FileServer.Handler.HandleClient`).
- A field of the key=value message whose line shares a read with the END line keeps the value 0
  (`VarText.FieldArrivesIff`, `VarText.ReadsDecideFields`).

## Model

| member | source | states |
|---|---|---|
| `ChatTable.SocketTable.Register` | week7/server.c:49-56 | accepts exactly while fewer than MAX_CLIENT sockets are registered, and then appends the new one |
| `ChatTable.SocketTable.Rollback` | week7/server.c:62-64 | drops the last entry and nothing else |
| `ChatTable.SocketTable.Unregister` | week7/server.c:104-114 | the nested search and shift loops remove the first entry with that socket and keep the order of the others |
| `ChatTable.SocketTable.SendMsg` | week7/server.c:122-128 | every registered socket gets the message once, in table order, and the table stays as it is |
| `ChatProtocol.EveryoneHearsOneSegment` | week7/server.c:93-128 | in every interleaving what was written to a connection is one contiguous piece of a single global log, from its registration to its removal, each message once |
| `ChatProtocol.SameOrderForAll` | week7/server.c:122-128 | two connections line up with the log at every position both have heard: common messages come in the same order, without gaps |
| `ChatProtocol.SendersKeepTheirOrder` | week7/server.c:100-102 | the log holds each sender's messages in the order its handler read them, all but one still waiting for the mutex |
| `ChatProtocol.RollbackIsExact` | week7/server.c:58-80 | when the accept thread is about to decrement the count, the last entry is the connection it is rolling back, and its only one, whatever removals ran in between |
| `ChatProtocol.EntryIsOpen` | week7/server.c:41-80 | every entry is an open descriptor of the connection that registered it, except the one being rolled back, whose number is not open at all |
| `ChatProtocol.FindsItself` | week7/server.c:104-113 | a handler that is leaving finds, as the first entry with its socket, its own |
| `ChatProtocol.TableIsSound` | week7/server.c:49-114 | at any moment: the entries are pairwise distinct, closed exactly while being rolled back, leavers and rollback find precisely their own entry; never more than MAX_CLIENT of them |
| `ChatDelivery.AdmitsUpToTheLimit` | week7/server.c:49-56 | in every run, under the mutex, a connection becomes the last entry if and only if there are fewer than 100, and is turned away if and only if there are 100 |
| `ChatDelivery.AddStep` | week7/server.c:49-56 | Register, on the machine's table, lets in and turns away exactly as the machine's step does and leaves the same table |
| `ChatDelivery.UndoStep` | week7/server.c:62-64 | Rollback leaves the table that the machine's rollback leaves |
| `ChatDelivery.LeaveStep` | week7/server.c:104-114 | Unregister leaves the table that the machine's leaving handler leaves |
| `ChatDelivery.TableFills` | week7/server.c:41-91 | for every n up to 100 some run has n registered connections, each with its handler reading |
| `ChatDelivery.FullTableTurnsAway` | week7/server.c:50-53 | and one in which the hundred and first is turned away |
| `ChatDelivery.IdleMeansDelivered` | week7/server.c:93-128 | whenever all threads wait for clients, each connection being read has been sent the whole log from its registration on, and its own messages are in the log |
| `ChatDelivery.EveryMessageIsDelivered` | week7/server.c:100-102 | from any state, any message of 1 to 1024 bytes of any connection being read: the threads can finish by themselves, and then every connection that was being read has been sent it |
| `ChatDelivery.EveryHangupIsCleanedUp` | week7/server.c:104-120 | from any state, any connection being read can hang up, and once the threads have finished it is out of the table and closed |
| `ChatProtocol.WritesAreSafe` | week7/server.c:122-128 | no broadcast writes to a socket whose handler has unregistered or whose number now belongs to another connection |
| `ChatProtocol.RollbackWindowIsReal` | week7/server.c:71-77 | a run in which a registered socket is closed while the mutex is free |
| `ChatProgress.OnlyTheMutexBlocks` | week7/server.c:41-128 | a busy handler can step, or whoever holds the mutex can |
| `ChatProgress.NoDeadlock` | week7/server.c:41-128 | in every state any clients can bring about, unless the accept thread and all handlers wait for a client, some thread can step |
| `ChatProgress.StepUsesUpWork` | week7/server.c:41-128 | every step nobody outside causes strictly lowers a bound on the work left; a connection, a message and a hang-up raise it by a constant |
| `ChatProgress.StepsArePaidFor` | week7/server.c:41-128 | in every interleaving the threads take at most 6 steps for each connection, MAX_CLIENT + 2 for each message and 3 for each hang-up |
| `ChatProgress.SilenceLeadsToIdle` | week7/server.c:41-128 | once the clients fall silent only so many more steps happen, under any scheduling |
| `ChatProtocol.StepKeepsInv` | week7/server.c:41-128 | every event of every thread keeps the invariant that ties table, mutex, descriptors, log and per-connection histories together |
| `ChatProtocol.RunsKeepInv` | week7/server.c:41-120 | that invariant holds after every run |
| `GameTable.LowestFree` | week13/lserver.c:97-107 | the slot a login gets is inactive and all below it are active; there is none when all are active |
| `LServer.SlotOf` | week13/lserver.c:109-118 | the first slot that carries the descriptor |
| `LServer.CopiesUpToTheNul` | week13/lserver.c:139 | the stored user name has, at each of its 32 bytes, the packet's byte if no NUL has come by then, and NUL otherwise |
| `LServer.CopyIsTheSameString` | week13/lserver.c:139 | so it is the same C string |
| `Packets.TakenIff` | week13/lserver.c:133-139 | a slot is taken by a packet of type 1, when it is the lowest free one, and by nothing else; it gets 100 hit points, the connection and the user name |
| `Packets.GivenUpIff` | week13/lserver.c:147-151 | it is given up by a packet of type 2 with its index, and by no other packet |
| `Packets.AnsweredIff` | week13/lserver.c:133-163 | something is sent for exactly: a login that gets a slot, a logout with a slot's index, types 4 and 5, the last three when somebody is there |
| `Packets.ReplyIsTheLogin` | week13/lserver.c:140-142 | the reply is the login packet with the number of the slot |
| `LServer.Server.constructor` | week13/lserver.c:38-42 | starts with MAX_PLAYERS inactive slots without descriptors |
| `LServer.Server.AllocPlayer` | week13/lserver.c:97-107 | seats the descriptor in the lowest free slot and returns it, or -1 without any change |
| `LServer.Server.FreePlayer` | week13/lserver.c:109-118 | vacates the first slot with that descriptor, if there is one |
| `LServer.Server.BroadcastTcp` | week13/lserver.c:120-124 | one send per active slot with a descriptor, in slot order |
| `LServer.Server.BroadcastUdp` | week13/lserver.c:126-131 | one datagram per active slot whose address is known, in slot order |
| `LServer.Server.TcpPacket` | week13/lserver.c:133-163 | the table and the sends after any packet: login, logout, attack, item, or none of these |
| `LServer.Server.UdpPacket` | week13/lserver.c:165-173 | moves an active player, remembers the address and tells everyone; otherwise nothing |
| `LServer.Server.Serve` | week13/lserver.c:69-92 | one ready descriptor: an accept, a datagram, a packet or a hang-up |
| `LServer.Server.ServeBatch` | week13/lserver.c:67-94 | a batch of ready descriptors is the events one after the other |
| `LServerRuns.ActiveIsLinked` | week13/lserver.c:38-163 | in every run a slot is active exactly when its descriptor is not -1 |
| `LServerRuns.HighestIdIsPeak` | week13/lserver.c:97-118 | in every run the highest id assigned plus one is the peak number of active slots, and no slot from there on is active |
| `LServerRuns.RefusedOnlyWhenFull` | week13/lserver.c:133-138 | a login has no effect exactly when all slots are active |
| `LServerRuns.DistinctIffPolite` | week13/lserver.c:97-163 | one event keeps the descriptors of active slots distinct if and only if it is not a granted login of a connection that holds a slot |
| `LServerRuns.RunsStayDistinctIff` | week13/lserver.c:67-163 | in every run they stay distinct throughout if and only if no event is such a login |
| `LServerRuns.SecondLoginLeaksASlot` | week13/lserver.c:82-118 | two logins and a hang-up leave a slot active on a closed descriptor |
| `LServerRuns.OpenIffNoSharedHangup` | week13/lserver.c:82-118 | one event keeps active slots on open descriptors if and only if it is not the hang-up of a connection that two active slots carry |
| `LServerRuns.RunsStayOpenIff` | week13/lserver.c:67-163 | in every run they stay open throughout if and only if no event is such a hang-up |
| `LServerRuns.LeakedSlotGoesToAStranger` | week13/lserver.c:82-118 | the leaked slot is freed by the hang-up of the next connection that gets the number, though that one never logged in |
| `LServerRuns.LeakedSlotAnswersAStranger` | week13/lserver.c:120-163 | the next connection that gets the number is sent a broadcast as its first packet, without having logged in |
| `LServerRuns.CastReachesEachOnce` | week13/lserver.c:120-124 | with distinct descriptors a broadcast reaches every logged-in connection exactly once and no other one |
| `LServerRuns.CastReachesTheLoggedIn` | week13/lserver.c:120-124 | whatever the table, a broadcast reaches a connection if and only if that is logged in |
| `LServerRuns.LoginSends` | week13/lserver.c:136-146 | a granted login sends its connection the reply and then the broadcast, everyone else logged in the broadcast, nobody else anything |
| `LServerRuns.OtherSends` | week13/lserver.c:67-173 | whatever clients do, an event other than its own granted login sends to a connection only if that is logged in |
| `LServerRuns.RunsKeepAnswered` | week13/lserver.c:67-163 | while no connection that two slots carry hangs up, active slots are on open descriptors and whoever is logged in has been answered |
| `LServerRuns.PoliteRunsKeepInv` | week13/lserver.c:67-163 | when connections log in only while holding no slot, that is so, and the descriptors are distinct besides |
| `LServerRuns.FirstPacketIsLoginReply` | week13/lserver.c:133-146 | while no connection that two slots carry hangs up, the first packet a connection is ever sent is its own login reply, with the id of a slot that is then its own, even when descriptors are reused |
| `RsServer.Server.constructor` | week13/server.rs:49-51 | starts with MAX_PLAYERS default players |
| `RsServer.Server.AllocPlayer` | week13/server.rs:107-119 | seats the write half and the name in the lowest free slot, or changes nothing |
| `RsServer.Server.FreePlayer` | week13/server.rs:121-125 | vacates exactly the slot with that index |
| `RsServer.Server.BroadcastTcp` | week13/server.rs:127-136 | one write per active slot with a write half, in slot order |
| `RsServer.Server.BroadcastUdp` | week13/server.rs:138-147 | one datagram per active slot whose address is known, in slot order |
| `RsServer.Server.TcpPacket` | week13/server.rs:149-181 | slots, sends, remembered id and whether to go on, after any packet |
| `RsServer.Server.UdpPacket` | week13/server.rs:183-199 | moves an active player and tells everyone; a negative id is a huge one |
| `RsThreads.RunsKeepLocks` | week13/server.rs:57-199 | in every interleaving each lock is held by exactly the thread that is in its critical section, and indices stay in range |
| `RsThreads.NoDeadlock` | week13/server.rs:107-199 | whenever some thread is not just waiting for a packet, some thread can step |
| `RsThreads.InternalStepsUseUpWork` | week13/server.rs:107-199 | every step no client causes strictly lowers a bound on the work left |
| `RsThreads.SilenceLeadsToIdle` | week13/server.rs:75-199 | once the clients fall silent only so many more steps happen, under any scheduling |
| `RsThreads.FreesOnlyItsOwn` | week13/server.rs:121-125 | from matching slots and threads, a step that breaks no match frees the thread's own slot, or an empty one |
| `RsThreads.MatchedIff` | week13/server.rs:107-181 | in every interleaving, whatever clients send, a step keeps slots and threads matched one to one if and only if it neither seats a thread that remembers a slot nor frees a slot the thread does not remember when somebody is in it or the thread remembers another one |
| `RsThreads.RunsMatchIff` | week13/server.rs:75-181 | every run: they match throughout if and only if no step does so |
| `RsThreads.RunsKeepTenants` | week13/server.rs:75-181 | in such runs each thread's grants and frees fit the slot it holds |
| `RsThreads.PoliteRunsNeverBreak` | week13/server.rs:149-181 | clients that log in only without an id and log out with their own, or with one that is no slot, cause no such step, however the threads interleave |
| `RsThreads.EachTenancyIsFreedOnceByItsOwner` | week13/server.rs:75-181 | while slots and threads match, each connection is granted at most one slot; it is freed at most once, only by that connection's thread, and exactly once by the time the thread is done |
| `RsThreads.OneTenantPerSlot` | week13/server.rs:107-125 | while slots and threads match, an active slot has exactly one tenant, even while the slot's last tenant is still broadcasting its logout |
| `RsThreads.StrangersLogoutFreesTheSlot` | week13/server.rs:161-168 | a logout with another player's id frees that player's slot |
| `RsThreads.SlotIsLostIff` | week13/server.rs:121-125 | in every interleaving, whatever clients send, another thread's step takes a slot away if and only if that thread is in free_player with the slot's index |
| `RsOrder.StepKeepsOrder` | week13/server.rs:127-136 | every step of every thread keeps the invariant that ties the log of broadcasts, the one under way and what each connection has been sent together |
| `RsOrder.EveryPlayerHearsOneSegment` | week13/server.rs:127-136 | in every interleaving, while slots and threads match, the broadcasts have one global order, and each player is sent one contiguous piece of it, from the seating to the loss of the slot |
| `RsSequential.UninterruptedIsOnTcp` | week13/server.rs:149-181 | a thread nobody interrupts handles a packet as on_tcp read on its own: same slots, same packets to the same connections in order, same id, same decision to go on |
| `RsSequential.EndGivesSlotBack` | week13/server.rs:87-90 | a thread that ends gives back the slot it still remembers |
| `RsSequential.PacketKeepsMatchIff` | week13/server.rs:149-181 | a packet handled alone keeps slots and threads matched if and only if it is neither a granted login of a connection that remembers a slot nor a stranger's logout: with the id of a slot it does not remember, when somebody is in that slot or it remembers another |
| `RsSequential.SlotSurvivesPacketIff` | week13/server.rs:161-168 | another connection's packet leaves a player's slot alone if and only if it is not a logout with that slot's id |
| `RsSequential.UninterruptedIsOnUdp` | week13/server.rs:183-199 | the UDP thread, if nobody interrupts it, handles a datagram as on_udp read on its own |
| `RsSerial.SecondLoginLosesASlot` | week13/server.rs:152-159 | a run in which a connection is granted two slots and its thread ends having freed one |
| `RsSerial.StrangersLogoutIsReal` | week13/server.rs:161-168 | a run in which a logout with another player's id has freed that player's slot |
| `RsSerial.WorldIsASerialRun` | week13/server.rs:75-199 | every run of the simulation's Rust side is a run of the threads in which each event is finished before the next |
| `RsSerial.ThreadedServerAgreesWithC` | week13/server.rs:57-199 | for every run of any clients without an event on which the servers part, a run of the Rust threads ends with the C server's table and has sent the same packets to the same connections in the same order |
| `Simulation.RunsAgreeIff` | week13/server.rs:75-199 | for every run of any clients: both servers hold the same table, slot by slot, and have sent the same packets to the same recipients in the same order, after each event, if and only if no event is one on which they part |
| `Simulation.EventAgreesIff` | week13/server.rs:75-199 | whatever a client does, servers that agree go on agreeing if and only if it is not such an event |
| `Simulation.PacketAgreesIff` | week13/lserver.c:133-163 | for a connection Rust still reads, any packet keeps them in agreement if and only if it is not a logout with an id that is no slot while the thread remembers an active slot |
| `Simulation.LatePacketAgreesIff` | week13/lserver.c:133-163 | for a connection Rust no longer reads, if and only if C has nothing to do for the packet |
| `Simulation.HangupDiverges` | week13/lserver.c:82-118 | a hang-up parts them when the active slots linked to the connection are not exactly what its live thread remembers |
| `Simulation.StepSimulates` | week13/lserver.c:67-173 | one event of a well-behaved client keeps the servers in agreement and every live thread knowing its slot |
| `Simulation.ServersAgree` | week13/server.rs:75-199 | so in every run of well-behaved clients they agree after each event |
| `Simulation.SameFreedSlot` | week13/lserver.c:109-118 | when they are, scanning for the descriptor in C and the remembered id in Rust name the same slot |
| `Simulation.SameTcpCast` | week13/lserver.c:120-124 | the two TCP broadcasts reach the same connections in the same order |
| `Simulation.EveryReadyIsAnEvent` | week13/lserver.c:67-94 | the events considered are all that the C server can be told of |
| `Simulation.OutOfRangeLogoutDiverges` | week13/server.rs:161-168 | such a logout leaves the slot active in C and frees it in Rust |
| `Simulation.DivergenceIsReal` | week13/server.rs:161-168 | a login and then a logout with an id that is no slot: the servers agree up to the logout and then no more |
| `Simulation.HangupDivergenceIsReal` | week13/server.rs:75-90 | two logins and then a hang-up: they agree up to the hang-up and then no more |
| `Lines.ReadLine` | week5/Icommon.h:38-54 | a line is shorter than the buffer, holds no newline, and something of the stream is always consumed |
| `Lines.Socket.SendLine` | week5/Icommon.h:32-36 | the bytes on the wire, including the NUL that ends a line one byte too long |
| `Lines.Socket.RecvLine` | week5/Icommon.h:38-54 | the byte loop returns the next line in the buffer with its terminator and leaves what follows it unread; -1 at the end of the stream |
| `Lines.FramingRoundTrips` | week5/Icommon.h:32-54 | what was sent as a line is received as that line, whatever follows, if and only if it has no newline and at most 4094 bytes |
| `Lines.ReadFirst` | week5/Icommon.h:38-54 | of a queue of sent lines exactly the first is taken |
| `Decimal.PrintParses` | week5/Iclient.c:125-126 | any printed integer is read back, whatever follows it other than a digit |
| `Decimal.DigitsAreDecimal` | week5/Iclient.c:125-126 | the printed digits are the number's decimal digits, the last one last, without a zero in front |
| `Decimal.ParsesPast` | week5/Iserver.c:143 | white space and a plus sign in front of a number are passed over |
| `Decimal.NoDigitNoNumber` | week5/Iserver.c:143 | without a digit there is no number and atol gives 0 |
| `Download.FgetsLength` | week5/Iserver.c:112-113 | fgets takes at least one byte, never more than the buffer holds |
| `Download.SendFile` | week5/Iserver.c:112-119 | the fgets loop sends the file line by line and then the END line |
| `Download.Receive` | week5/Iclient.c:70-74 | the client's loop writes and consumes exactly what the stream says |
| `Download.GoodFilesArrive` | week5/Iserver.c:110-119 | a downloadable file arrives with at most a final newline added, and the END line is the last thing consumed |
| `Download.BadFilesDoNotArrive` | week5/Iserver.c:110-119 | any other file does not |
| `Download.DownloadIsExactIff` | week5/Iclient.c:55-78 | a download is exact if and only if the file has no NUL and its lines are 1 to 4094 bytes long and none is START or the END marker |
| `Upload.ReadSizesAreSoundIff` | week5/Iserver.c:155-159 | at every point the loop can get to, the read asks for 1 to 4096 bytes and not beyond the file, if and only if the size fits an int |
| `Upload.AsksForTheRest` | week5/Iserver.c:156-157 | of a size that is an int the server asks for all that is left, up to 4096 bytes |
| `Upload.ReceiveData` | week5/Iserver.c:152-173 | however recv cuts the stream, exactly size bytes are stored and the next byte is left unread; of a size that is no int, as many bytes as its cast says; the loop ends |
| `Upload.ReceiveFile` | week5/Iserver.c:137-176 | the size line, the data and the answer, on every path |
| `Upload.CmdUpload` | week5/Iserver.c:122-178 | the stored file, the replies and what is left unread, on every path of the upload |
| `Upload.SendUpload` | week5/Iclient.c:125-147 | the client sends the size line and then the whole file |
| `Upload.SizeLineIsRead` | week5/Iserver.c:137-143 | the server reads off exactly the size line, and the number printed on it |
| `Upload.UploadRoundTrips` | week5/Iclient.c:125-147 | what the client sends for a file is stored as that file and nothing after it is touched; an empty file is answered FAILED |
| `Upload.UploadIsExactIff` | week5/Iserver.c:155-176 | a file that is not empty is stored whole and acknowledged if and only if its size fits an int |
| `Session.TextsAreProper` | week5/Icommon.h:56-58 | the server's fixed lines are carried whole and cannot be taken for the END marker |
| `Lockstep.RunsKeepInv` | week5/Iserver.c:52-178 | in every interleaving of an admissible session the invariant that describes both peers, both streams and the files holds |
| `Lockstep.StepKeepsInv` | week5/Iclient.c:18-166 | every step of either peer keeps it |
| `Lockstep.PeersStayInLockstep` | week5/Iclient.c:18-22 | whenever the client is at its loop head and the server is blocked, exactly one COMMANDS line is unread and nothing is on its way to the server |
| `Lockstep.NobodyWaitsForEver` | week5/Iclient.c:18-166 | unless the client waits for its user or has quit, one of the two peers can step |
| `Lockstep.FinishedTransfersAreExact` | week5/Iserver.c:100-178 | every finished download wrote the server's file and every finished upload stored the client's, whatever the interleaving |
| `Lockstep.FileIsListed` | week5/Iserver.c:112-119 | the lines sent for a downloadable file are clean and spell it out |
| `Liveness.StepsGetCloser` | week5/Iclient.c:18-166 | every step but the user's strictly lowers a lexicographic measure: commands pending, then work left |
| `Liveness.OneCommandIsRead` | week5/Iserver.c:57-77 | without the user at most one command is read |
| `Liveness.QuietStretchIsShort` | week5/Iserver.c:52-178 | between two moments with as much pending, at most the work left is the number of steps, in every interleaving |
| `Liveness.SessionsComeBack` | week5/Iclient.c:18-166 | from any point of an admissible session the client gets back to its user |
| `Filing.PathsAreLiteral` | week5/Iserver.c:102 | the server's file of a name is ./Files/ and the name, the client's download downloaded_ and the name; only what does not fit the buffer is cut |
| `Filing.NamesAreKeptApart` | week5/Iserver.c:124 | different names that fit are different files, on either side |
| `Filing.StepKeepsFiled` | week5/Iserver.c:52-178 | every step of either peer keeps the files equal to the transfers finished so far, one after the other |
| `Filing.FileIsTheLastUpload` | week5/Iserver.c:122-178 | in every interleaving the server's file of a name is what the last finished upload of that name sent, or what was there before if there was none |
| `Filing.FileIsTheLastDownload` | week5/Iclient.c:55-78 | and the client's downloaded_ file what the last finished download of that name got |
| `Filing.UploadComesBack` | week5/Iserver.c:100-178 | what was uploaded under a name comes back when that name is downloaded, whatever was transferred in between |
| `Commands.CommandsAreSpelled` | week5/Iserver.c:57-72 | the commands by their words: list, get and load with a space and a name, quit |
| `Commands.GetDelivers` | week5/Iclient.c:55-78 | from any point of a session, in every interleaving: after a get the client has the server's file under downloaded_<name>, up to a final newline, and nothing else has changed |
| `Commands.LoadDelivers` | week5/Iclient.c:90-154 | after a load the server has the client's file under its name, if it could open it, and nothing else has changed |
| `Commands.OthersChangeNothing` | week5/Iserver.c:57-77 | any other command changes no file |
| `Commands.EveryCommandEnds` | week5/Iclient.c:18-166 | any line of 1 to 4094 bytes may be typed, a get of a downloadable file, a load of a file whose size is an int, and the client can get back to its user |
| `Wording.PromptIsSpelledOut` | week5/Icommon.h:56-58 | the bytes of the prompt |
| `Wording.ListIsSpelled` | week5/Iserver.c:80-98 | the lines that answer a list |
| `Wording.GetIsSpelled` | week5/Iserver.c:100-120 | the lines that answer a get |
| `Wording.RefusalsAreSpelled` | week5/Iserver.c:72-130 | the lines that answer a refused upload and an unknown command |
| `Wording.DownloadIsSpelledOut` | week5/Iserver.c:108-119 | a downloadable file goes over the wire as it is, up to a final newline, between the START and the END line |
| `Wording.UploadIsSpelledOut` | week5/Iclient.c:125-147 | an upload goes over the wire as its size in decimal, a newline and the file |
| `Wording.VerdictsAreSpelledOut` | week5/Iserver.c:146-176 | it is answered UPLOAD DONE, or FAILED when the file is empty |
| `Wording.SizeLineLimit` | week5/Iserver.c:137-138 | a size line is taken whole if and only if it has at most 126 bytes |
| `FileServer.FileLinesOnTheWire` | week5/Iserver.c:112-119 | the session machine's lines of a file are the bytes the download code sends |
| `FileServer.ServesAnswer` | week5/Iserver.c:57-77 | from a readable command the machine's server gets to its loop head with the answer and the prompt sent |
| `FileServer.UploadRuns` | week5/Iserver.c:122-178 | on an upload the machine's server does what the upload code does, on each of its paths |
| `FileServer.Handler.SendCommandList` | week5/Icommon.h:56-58 | sends the COMMANDS line |
| `FileServer.Handler.CmdList` | week5/Iserver.c:80-98 | sends the error line, or the heading, the names in order and the END line |
| `FileServer.Handler.CmdGet` | week5/Iserver.c:100-120 | sends the error line, or START, the file's lines and the END line |
| `FileServer.Handler.CmdUplode` | week5/Iserver.c:122-178 | replaces the file with what was received, and answers |
| `FileServer.Handler.HandleClient` | week5/Iserver.c:52-78 | every execution is a run of the machine's server on the same file system, to the point where it is blocked or closed, with the same files and the same bytes sent |
| `FileClient.GetRuns` | week5/Iclient.c:70-76 | the machine's client writes what the download loop writes |
| `FileClient.LoadRuns` | week5/Iclient.c:96-154 | after a load command the machine's client does what the code does, on each of its paths |
| `FileClient.Console.CmdList` | week5/Iclient.c:44-54 | sends the command and reads up to the END line, a blank line or the end |
| `FileClient.Console.CmdGet` | week5/Iclient.c:55-78 | sends the command and, if its output opens, saves the download |
| `FileClient.Console.CmdLoad` | week5/Iclient.c:90-154 | sends the command, the upload only after READY, and reads the verdict |
| `FileClient.Console.CmdOther` | week5/Iclient.c:156-165 | sends the command and reads one line |
| `FileClient.Console.Run` | week5/Iclient.c:18-166 | every execution is a run of the machine's client on the same typed lines, to the point where it is blocked or closed, with the same local files and the same bytes sent |
| `Outcome.RunIsByteByByte` | week5/Iserver.c:155-164 | every run of one peer gets to where the run that receives byte by byte gets |
| `Outcome.SameOutcome` | week5/Iserver.c:52-178 | two runs of one peer on the same bytes and inputs that cannot go on have ended in the same state, however recv cut the data |
| `Outcome.AnyCutIsReceived` | week5/Iserver.c:155-164 | however the connection cuts an upload into chunks of 1 to 4096 bytes, the server can take them, and it is the same as taking all at once |
| `Halves.RunsLonger` | week5/Icommon.h:38-54 | more input behind what there is changes nothing of what a peer has done |
| `Halves.HalfIsARunAlone` | week5/Iserver.c:52-178 | in every interleaving the events of one peer are a run of that peer alone on the bytes the other one sent |
| `Halves.AloneIsTheSession` | week5/Iserver.c:52-178 | a peer run alone on what the other one sent and on its own inputs, until it cannot go on, ends where the session's peer ends |
| `Halves.ServerIsAlone` | week5/Iserver.c:52-78 | wherever handle_client, run alone on the client's bytes with the same answers from the file system, can end, it has served the session's commands, with the session's files and the same bytes sent |
| `Halves.ServeTheSession` | week5/Iserver.c:52-78 | a call of handle_client on those bytes leaves the session's files and sends the session's bytes |
| `Halves.ClientIsAlone` | week5/Iclient.c:18-166 | likewise the command loop, run alone on the server's bytes with the session's typed lines |
| `Halves.PlayTheSession` | week5/Iclient.c:18-166 | a call of the command loop on those bytes saves the session's files and sends the session's bytes |
| `SelectServer.AscendingLists` | week11/select_server:29-30 | a scan order lists exactly the ready descriptors, ascending, each once |
| `SelectServer.Server.constructor` | week11/select_server:20-23 | starts with the listening socket alone, which is also the bound |
| `SelectServer.Server.ServeRound` | week11/select_server:25-56 | a round ends although max_fd can grow under it, acts on each ready descriptor exactly once in ascending order, and keeps every member within max_fd |
| `SelectServer.Server.Act` | week11/select_server:31-53 | accepts, closes, or passes the message on |
| `SelectServer.Server.Pass` | week11/select_server:47-51 | writes to every member but the listening socket and the sender, once each, ascending |
| `EpollServer.Server.constructor` | week11/epoll_server.c:26-27 | starts with an empty table |
| `EpollServer.Server.ServeBatch` | week11/epoll_server.c:29-67 | a batch is its events one after the other |
| `EpollServer.Server.Remove` | week11/epoll_server.c:51-56 | the first entry with the descriptor is replaced by the last one and the table is one shorter |
| `EpollServer.Server.Pass` | week11/epoll_server.c:59-63 | writes to every entry but the sender, in table order |
| `SelectEpoll.SwapRemovedDistinct` | week11/epoll_server.c:51-56 | moving the last entry into the gap removes exactly that descriptor and keeps the others distinct |
| `SelectEpoll.EventAgrees` | week11/select_server:31-53 | one ready descriptor keeps the two servers in agreement |
| `SelectEpoll.RoundAgrees` | week11/epoll_server.c:32-66 | so does a round, up to any point in it |
| `SelectEpoll.ServersAgree` | week11/select_server:25-56 | over any rounds both servers have the same clients connected and have sent each message to the same recipients |
| `SelectEpoll.EveryoneElseHears` | week11/epoll_server.c:59-63 | those recipients are every connected client except the sender, once each |
| `SelectEpoll.AcceptedWaitsForNextRound` | week11/select_server:26-35 | a descriptor accepted in a round is not acted on in that round |
| `Reassembly.NetworkStream.Read` | week13/server.cs:66 | a read returns some of the next bytes, as many as it likes |
| `Reassembly.FillBuffer` | week13/server.cs:64-69 | fills the buffer with the next packet and consumes just that, or reports that the stream ended first |
| `Reassembly.HandleTcp` | week13/server.cs:58-79 | whatever the reads return, the packets handed over and the slot freed depend on the byte stream alone |
| `Reassembly.PacketsAreTheBlocks` | week13/server.cs:63-72 | the packets are the successive full blocks of the stream; a logout is the last, and otherwise only an incomplete block is left over |
| `Reassembly.LastGrantIsFreed` | week13/server.cs:70-77 | the slot freed on the way out is the last one granted, and none after a logout packet |
| `Reassembly.KindIsReadBack` | week13/server.cs:8-9 | the type the handler acts on is the 32-bit int in the packet's first four bytes, lowest byte first |
| `Reassembly.TypedPacketsAreServed` | week13/server.cs:58-79 | for packets of any types: 1 and only 1 is a login, 2 and only 2 a logout; without a logout the slot of the last login that got one is freed, after one none |
| `Reassembly.HandleTyped` | week13/server.cs:58-79 | which is what HandleTcp does on such a stream, however the reads cut it |
| `VarText.Serve` | week6/var_server.c:44-64 | the read loop and its token loop compute the message that the reads determine |
| `VarText.LineIsParsed` | week6/var_server.c:56-61 | a printed line sets its own field to the printed value and no other field |
| `VarText.TextIsLiteral` | week6/var_client.c:32-33 | the printed text, letter by letter |
| `VarText.KeySetsItsField` | week6/var_server.c:56-61 | each of the six keys with a printed number behind it sets the field in its place and no other |
| `VarText.KeyedLineIsParsed` | week6/var_server.c:56-61 | any line that begins with a key sets that field to the number behind it, and nothing if there is none |
| `VarText.OtherLineIsIgnored` | week6/var_server.c:56-61 | a line that begins with none of the keys changes nothing |
| `VarText.HasEndIff` | week6/var_server.c:47 | END is found wherever it stands, and nothing else is taken for it |
| `VarText.TokensSplit` | week6/var_server.c:54-62 | newlines, however many, only separate the tokens |
| `VarText.ChunksAreTheSplits` | week6/var_client.c:31-36 | reads of whole lines are a split of the printed text if and only if they are one of the splits considered |
| `VarText.ReadsAreParsed` | week6/var_server.c:44-64 | after these reads exactly the fields before END's read are set |
| `VarText.FieldArrivesIff` | week6/var_server.c:44-64 | a field arrives if and only if its line comes in a read before the one with END, or its value is 0 |
| `VarText.ReadsDecideFields` | week6/var_server.c:44-64 | however the printed text is cut at line ends, exactly the fields before the read with END are set |

## Left out

- Socket set-up, bind, listen, connect, epoll_ctl and name lookup: foreign calls without logic of their own.
- printf output, logs, percentages and what the user reads on the screen.
- Send and write failures, short writes, errno, and the error returns of fseek and ftell.
- ChatProtocol: read errors other than a hang-up end a handler the same way and are not told apart from it.
- LServer.Server.ServeBatch: a recv or recvfrom that yields less than a whole packet, whose handling would read uninitialised bytes; a failed accept.
- Simulation.ServersAgree: compares the servers one event at a time; what interleavings add is the subject of RsThreads and RsOrder. Clients log in once, log out with their own id and send nothing afterwards; RunsAgreeIff says exactly which other events make a difference.
- RsThreads.EachTenancyIsFreedOnceByItsOwner: needs runs in which slots and threads match; RunsMatchIff says exactly which runs those are.
- RsOrder.EveryPlayerHearsOneSegment: needs the same runs, since a connection with two slots is sent each broadcast twice.
- RsThreads: lock poisoning after a panic.
- Upload.CmdUpload: announced sizes that turn negative in the cast to int, for which recv would be told to write past the server's buffer: what then happens is undefined.
- Upload.ReceiveData: the same sizes.
- Upload.ReceiveFile: the same sizes.
- Upload.UploadIsExactIff: files of such a size.
- FileServer.UploadRuns: the same sizes.
- FileServer.Handler.CmdUplode: the same sizes.
- FileServer.Handler.HandleClient: sessions that announce such a size.
- Upload.SendUpload: files longer than a long can say, which ftell cannot report; FileClient.Console.Run and Upload.SizeLineIsRead leave out the same files.
- Decimal.PrintParses: the overflow of atol and %d is not modelled; numbers are unbounded.
- Lockstep.PeersStayInLockstep: sessions with blank or over-long commands, a get of a file that does not exist or cannot be downloaded exactly, a load of a missing local file, or an unreadable directory; there the peers stop agreeing.
- Session: other processes changing the files during a session; a file is read as it was when it was opened.
- SelectServer.Server.ServeRound: descriptors beyond FD_SETSIZE, and a failed accept, whose -1 FD_SET does not define.
- SelectServer.Server.Act: a failed accept, for the same reason.
- SelectServer.Server.Pass: a read error (-1), which both broadcast servers take for a message of that length.
- EpollServer.Server.ServeBatch: a client beyond the hundredth, which the code stores past the end of its array; a read error (-1).
- SelectEpoll.ServersAgree: a failed accept, more than 100 clients, and ready descriptors in another order than ascending. Descriptors that are ready at the same time are one batch, also when there are more than the 50 that epoll_wait returns at once.
- Reassembly.HandleTcp: the shared player array of server.cs, whose allocations are a parameter here; an exception in OnTcp.
- VarText.FieldArrivesIff: reads that cut a line in two.
- week13/wserver.c (the same table logic over IOCP), week13/client.c and client.cs (scripted drivers), and the echo and single-command demos of the other weeks, which would only add easy members.
