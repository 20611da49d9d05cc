# QuickComm: a verified model

QuickComm is an epoll TCP server: one thread accepts clients and receives
packets, a pool of workers processes them, a sender thread and the epoll write
handler push replies out, a recycler returns closed connections to the pool
after a wait, and a monitor closes clients that stop sending heartbeats. This
project models those parts in Dafny and proves what they are for.

    dafny verify dfyconfig.toml

| file | what it models |
|---|---|
| `Common.dfy` | what several modules share |
| `Bytes.dfy` | network byte order |
| `Crc32.dfy` | the bit-serial CRC-32 of section 8.1.1.6.2 of ITU-T V.42, and the class that builds and uses the table |
| `Framing.dfy` | the one-shot parser of a packet stream, and the receive state machine that refines it |
| `Logic.dfy` | the checks on a received packet, its dispatch, and the replies |
| `Sending.dfy` | the send engine as atomic steps of all its threads, and what every run keeps |
| `SendQueue.dfy` | the send engine with fields updated in place, refining those steps |
| `Timer.dfy` | the timer multimap with its cached size and head |
| `Pool.dfy`, `PoolRuns.dfy` | the connection pool, admission, deferred reclamation and the heartbeat as steps of all their threads, and what every run keeps |
| `Server.dfy` | the same pool with lists and counters updated in place, refining those steps |
| `ThreadPool.dfy` | the worker pool with its mutex and condition variable, the owners of receive buffers, and the class that refines the steps |
| `Printf.dfy` | the bounded formatter |

A shared component is written twice: as a state machine whose steps are
functions on values, over which invariants and properties of runs are proved,
and as a class whose methods follow the source statement by statement and
promise exactly the state that those functions give. Kernel results (`recv`,
`send`, `accept4`, `epoll_ctl`, `time`) are parameters of the steps, so every
statement holds for every kernel answer except those named under "Left out".
`Next` of a step is what one thread does without another seeing it half done.

Five properties a reader might expect are false of the code. For each there is
a concrete input or run, and the exact condition under which it holds:

- Replies can overtake each other. If the write handler finishes while the
  sender's scan has already skipped a message of the same connection
  (net/qc_socket.cc:681-686 against net/qc_socket_request.cc:316), the same scan
  can send a later one first: `PingOvertakesLogin` is such a run. `OrderStep`:
  a step keeps the order if and only if it is not a scan that sends a packet of
  an idle connection past a different one it left behind. `OvertakingExactly`:
  after such a completion the rest of the scan can do that if and only if it has
  still to look at a packet that differs from one left behind. `FifoRun`: while
  no handler completes like that, no step does it.
- The sender can sleep although it has work. The write handler posts the
  semaphore before it lowers `iThrowsendCount`
  (net/qc_socket_request.cc:310 against :316); the comment there asks for that
  order. `LostWakeUpIsReachable` is such a run. `WakeLostExactly`: after the
  decrement the sender, left alone, can end up blocked with a live message of an
  idle connection queued if and only if the semaphore is zero and it has passed
  over a live message of the handler's connection.
- `msgSend` closes the connection of a message without comparing sequence
  numbers (net/qc_socket.cc:335-341). `CloseExactly`: the pool stays partitioned
  if and only if the connection is an active client or already recycling.
  `StaleMessageCloses` is a run after which msgSend closes a connection that was
  recycled, and `StaleCloseBreaks` shows what that does to the pool of a server
  with the built-in configuration.
- `qc_event_accept` gives up after the lease when the socket cannot be made
  non-blocking (net/qc_socket_accept.cc:119-126). `AcceptExactly`: the counters
  stay right if and only if that does not happen; `LostLease` is the case of
  the first client of that server.
- A server does not always take worker_connections clients. `FullHouse`: with
  W of them, W clients can be online at once if and only if there are at most
  4W + 1 listeners, because listeners count towards the 5W connections beyond
  which a client is refused unless W connections are free
  (net/qc_socket_accept.cc:94-103).

## Model

| member | source | states |
|---|---|---|
| Bytes.HtonsRoundTrip | net/qc_socket_request.cc:148 | a 16-bit length written by htons is what ntohs reads, for every value below 65536 |
| Bytes.NtohsRoundTrip | net/qc_socket_request.cc:148 | the octets ntohs reads are those htons writes |
| Bytes.NtohsOrder | net/qc_socket_request.cc:148 | network byte order: 16-bit numbers compare as their octets do on the wire, the first octet counting more |
| Bytes.NtohsLast | net/qc_socket_request.cc:148 | with a first octet of zero the number is the second octet |
| Bytes.HtonsOrder | service/qc_slogic.cc:218 | smaller numbers get octets that come first on the wire |
| Bytes.HtonlRoundTrip | service/qc_slogic.cc:85 | a checksum written by htonl is what ntohl reads |
| Bytes.NtohlRoundTrip | service/qc_slogic.cc:85 | the octets ntohl reads are those htonl writes |
| Bytes.NtohlOrder | service/qc_slogic.cc:85 | 32-bit numbers compare as their four octets do on the wire, the first octet counting most |
| Bytes.NtohlLast | service/qc_slogic.cc:85 | with three first octets of zero the number is the last octet |
| Bytes.HtonlOrder | service/qc_slogic.cc:225 | smaller numbers get octets that come first on the wire |
| Crc32.ReversedBit | misc/qc_crc32.cc:24-37 | bit k of the reversed word is bit 31 - k of the word |
| Crc32.ReversedTwice | misc/qc_crc32.cc:24-37 | reflecting 32 bits is its own inverse |
| Crc32.MirrorIsReversed | misc/qc_crc32.cc:24-37 | the reflection of any number of low bits is the full reversal shifted down |
| Crc32.TableStepReversed | misc/qc_crc32.cc:63 | reflection carries a left-shift table step to a right-shift step with the reversed polynomial |
| Crc32.Table.constructor | misc/qc_crc32.cc:39-70 | after construction every entry is eight right-shift steps of its index with the reversed polynomial |
| Crc32.Table.Reflect | misc/qc_crc32.cc:24-37 | the loop that moves one bit at a time gives the low bits of the word in opposite order |
| Crc32.Table.Init | misc/qc_crc32.cc:39-70 | fills the whole table in place with those entries |
| Crc32.Table.InitEntry | misc/qc_crc32.cc:48-67 | fills one entry and leaves the others alone |
| Crc32.SerialIsSteps | misc/qc_crc32.cc:84-85 | feeding up to 32 bits one by one is XORing them in at once and clocking as often |
| Crc32.OctetStep | misc/qc_crc32.cc:85 | one table-driven step equals the bit-serial register fed with the octet's eight bits, for every register and octet |
| Crc32.Table.GetCrc | misc/qc_crc32.cc:73-88 | on every buffer the result is the bit-serial reflected CRC-32 with initial and final XOR 0xffffffff |
| Crc32.BitStepBack | misc/qc_crc32.cc:85 | the register's clock can be run backwards |
| Crc32.BitStepInjective | misc/qc_crc32.cc:85 | two different registers never meet after a clock |
| Crc32.SerialInjective | misc/qc_crc32.cc:84-85 | two different registers fed with the same bits stay different |
| Crc32.WindowDetected | misc/qc_crc32.cc:84-85 | bit strings that differ only inside some window of at most 32 bits leave different registers |
| Crc32.BurstDetected | misc/qc_crc32.cc:73-88 | damage confined to 32 consecutive bits always changes the checksum |
| Crc32.FourOctetsDetected | misc/qc_crc32.cc:73-88 | damage confined to four consecutive octets always changes the checksum |
| Crc32.CheckValue | misc/qc_crc32.cc:39-88 | the checksum of the digits 1 to 9 is the published check value 0xcbf43926 |
| Framing.ParseShape | net/qc_socket_request.cc:140-198 | the one-shot parser yields only packets whose header announces their own length, and a leftover that is an incomplete packet |
| Framing.HeaderDecides | net/qc_socket_request.cc:151-197 | a header is dropped if its first two octets, most significant first, give fewer than 8 or more than 29000, is a packet if they give 8, and otherwise waits for its body |
| Framing.HeaderOnly | net/qc_socket_request.cc:178-188 | a header that starts with the octets 0 and 8 is a whole packet |
| Framing.ParseAppend | net/qc_socket_request.cc:15-99 | parsing a stream is parsing its beginning and then the leftover followed by the rest |
| Framing.ChunkingIndependence | net/qc_socket_request.cc:15-99 | parsing chunk by chunk, which is what ReceiveStream is proved to do, gives for every split of every stream the packets and the leftover of the one-shot parser |
| Framing.Connection.ReceiveStream | net/qc_socket_request.cc:15-220 | with flood checks off, for every stream and every split into recv results of 1 to irecvlen octets, the packets handed to the pool, each for the current lease, and the leftover are those of the one-shot parser |
| Framing.OctetByOctet | net/qc_socket_request.cc:102-138 | every stream has such a split, whatever is held |
| Framing.SameStreamSamePackets | net/qc_socket_request.cc:15-99 | two ways to cut the same stream give the same chunk-by-chunk result, and so by ReceiveStream the same packets and leftover |
| Framing.PacketsDelivered | net/qc_socket_request.cc:15-99 | whole packets sent back to back are recovered one by one from any chunks |
| Framing.ParseResynchronises | net/qc_socket_request.cc:151-163 | a header with a bad length costs its own eight octets and nothing else |
| Framing.Connection.GetOneToUse | net/qc_socket_conn.cc:21-38 | a lease starts in a clean receiving state whatever the previous one left |
| Framing.Connection.StateOfHeld | net/qc_socket_request.cc:25-90 | the state and the number of octets wanted next depend only on the octets held |
| Framing.Connection.RecvProc | net/qc_socket_request.cc:102-138 | what recv returned is stored behind the held octets; peer close and hard errors close the connection, retry conditions do not |
| Framing.Connection.ProcP1 | net/qc_socket_request.cc:140-198 | a complete header is dropped, becomes a bodiless packet, or starts a body, exactly as the parser decides |
| Framing.Connection.ProcLast | net/qc_socket_request.cc:200-220 | a finished packet is queued for the workers, or freed if the client floods, and the connection waits for a header |
| Framing.Connection.ReadRequestHandler | net/qc_socket_request.cc:15-99 | one readable event queues the packets, and keeps the leftover, that the parser finds in the held octets and the chunk |
| Logic.ImageFields | service/qc_slogic.cc:156-231 | length, code, checksum and body of a reply are read back as written |
| Logic.ImageOctets | include/qc_comm.h:16-27 | octets 0-1 are the length, 2-3 the code and 4-7 the checksum, each most significant octet first, and the body follows |
| Logic.ImageOnly | service/qc_slogic.cc:73-99 | a packet passes the checksum test if and only if it is, octet for octet, what a sender builds from the code and body read from it |
| Logic.CalledExactly | service/qc_slogic.cc:67-124 | a handler is called if and only if the lease is still the same and the packet is what a sender builds from some code with a handler and some body; it is called with exactly that code and body |
| Logic.DamageIsDropped | service/qc_slogic.cc:90-99 | a packet that would be accepted is dropped once its body is damaged within 32 consecutive bits |
| Logic.RepliesRoundTrip | service/qc_slogic.cc:67-266 | any sequence of replies, concatenated and cut into any chunks, comes out with the same codes and bodies in order and passes every check |
| Logic.AnsweredExactly | service/qc_slogic.cc:30-42 | a request is answered if and only if it is live and is the packet of a ping without a body, a registration of 100 octets or a login of 96; the reply has the same code and body length and carries what the handler found in its memory |
| Logic.AnswersAreAccepted | service/qc_slogic.cc:67-281 | every such reply is a well-formed packet with the request's code that the same checks accept |
| Logic.LogicSocket.WriteHeader | service/qc_slogic.cc:162-170 | the header octets written in place are those of the reply's image |
| Logic.LogicSocket.SendNoBodyPkgToClient | service/qc_slogic.cc:156-173 | the reply is the bodiless image with the given code, for the connection and sequence number of the request |
| Logic.LogicSocket.SendBodyPkgToClient | service/qc_slogic.cc:209-230 | the reply is the image of the body left in the allocated memory, with its checksum |
| Logic.LogicSocket.HandlePing | service/qc_slogic.cc:268-281 | a ping without a body is noted at the current time and answered; one with a body is neither |
| Logic.LogicSocket.HandleRegister | service/qc_slogic.cc:176-231 | a body of the right length is converted and terminated in place and answered; any other is ignored |
| Logic.LogicSocket.HandleLogIn | service/qc_slogic.cc:232-266 | the same for a login |
| Logic.LogicSocket.ThreadRecvProcFunc | service/qc_slogic.cc:67-124 | the reply to a packet, if any, is the one that AnsweredExactly characterises, and a ping is noted |
| Sending.InvStep | net/qc_socket.cc:315-357 | every step of every sending thread keeps the invariant of the send engine |
| Sending.EveryRun | net/qc_socket.cc:639-783 | so does every run of every interleaving |
| Sending.Backlog | net/qc_socket.cc:323-347 | in every reachable state live queued messages are at most iSendCount, which stays in 0..401; no queued header is ahead of its connection; the queue counter is the queue length, at most 50001 |
| Sending.BacklogExact | net/qc_socket.cc:688 | in every reachable state a lease's send count is exactly the number of its live queued messages plus those of earlier leases counted against it; equivalently, what was counted less what was taken from the queue |
| Sending.PromptBacklog | net/qc_socket.cc:345-688 | in a run without messages of earlier leases the send count is the number of live queued messages |
| Sending.SendLimits | net/qc_socket.cc:323-357 | msgSend closes a leased connection if and only if at most 50000 messages are queued and more than 400 count against the connection, queues the message if and only if neither limit is passed, and counts every other as discarded |
| Sending.AllGiven | net/qc_socket.cc:345-347 | unless something was discarded, msgSend queued for a lease exactly what it was given for it, in order |
| Sending.ScanMoves | net/qc_socket.cc:660-772 | one step of the scan takes a live message of an idle connection, leaves one of a busy connection behind, and touches no other connection |
| Sending.ScanErases | net/qc_socket.cc:666-675 | a message of an earlier lease is erased, counted out, and nothing is sent for it |
| Sending.StartedTakes | net/qc_socket.cc:711-761 | the socket gets as much of a packet just taken as it has room for, and the connection is busy unless that is all |
| Sending.ResumedTakes | net/qc_socket_request.cc:267-318 | the socket gets as much of the rest as it has room for, and the handler posts exactly when that is all |
| Sending.CloseEnds | net/qc_socket.cc:359-379 | a close leaves nothing for the sender to wait for and retires the sequence number; recycling drops what was in hand |
| Sending.HandOffKept | net/qc_socket.cc:681-765 | for a leased connection iThrowsendCount is 0 or 1, and 1 exactly when an unsent rest exists and EPOLLOUT is registered |
| Sending.SendStream | net/qc_socket.cc:655-781 | in every run in which no scan jumps: octets accepted by the socket, the rest of the packet in hand and the queued live messages together are everything msgSend queued in this lease, in order |
| Sending.SendStreamUnordered | net/qc_socket_request.cc:267-318 | in every run whatever: the socket receives whole packets, each queued message exactly once, never interleaved |
| Sending.ClientReads | net/qc_socket_request.cc:267-318 | a client that parses what it was sent, in any chunks, reads exactly the packets taken from the queue |
| Sending.OrderStep | net/qc_socket.cc:660-696 | a step keeps the queueing order of every connection if and only if it is not a scan that sends a packet of an idle connection past a different one it left behind |
| Sending.OrderRun | net/qc_socket.cc:655-781 | a run without such a step keeps the order |
| Sending.FifoStep | net/qc_socket.cc:681-686 | unless a handler completes behind a scan that skipped its connection, a skipped connection stays busy and no step jumps |
| Sending.FifoRun | net/qc_socket.cc:655-781 | a run without such a completion has no jump, so the order is kept throughout |
| Sending.OvertakingExactly | net/qc_socket_request.cc:316 | after such a completion the rest of the scan can break the connection's order if and only if a packet still ahead of it differs from one it left behind |
| Sending.OvertakingIsReachable | net/qc_socket_request.cc:316 | for any two different replies, a run from start-up after which the later has gone out and the earlier has not |
| Sending.PingOvertakesLogin | net/qc_socket_request.cc:316 | in particular a heartbeat reply overtakes the reply to a login |
| Sending.WakeStep | net/qc_socket.cc:641-652 | every step but the handler's decrement keeps every wake-up, an interrupted sem_wait included |
| Sending.WakeFinish | net/qc_socket_request.cc:310-316 | the decrement leaves a passed live message of an idle connection with the semaphore at zero if and only if the semaphore is zero and the scan has passed a live message of that connection |
| Sending.WakeLostExactly | net/qc_socket_request.cc:310-316 | from then on the sender, left alone, can end up blocked with a live message of an idle connection queued under exactly that condition |
| Sending.HandlerInOneStep | net/qc_socket_request.cc:267-318 | with the write handler taken as one step no wake-up is ever lost |
| Sending.WakeRun | net/qc_socket.cc:641-783 | a run in which no decrement comes that late keeps every wake-up |
| Sending.BlockedRun | net/qc_socket.cc:641-783 | in such a run, whenever the sender is blocked on a zero semaphore every live queued message belongs to a throttled connection |
| Sending.LostWakeUpIsReachable | net/qc_socket_request.cc:310-316 | for any two replies, a run from start-up that ends with the sender blocked, the semaphore zero and a live message queued for an idle connection |
| Sending.StaleMessageCloses | net/qc_socket.cc:335-341 | for every reply, a run from start-up (401 replies queued, close, recycle) after which one more reply of the old lease makes msgSend close the recycled connection |
| SendQueue.Engine.MsgSend | net/qc_socket.cc:315-357 | discards above 50000 queued, closes above 400 for one connection, otherwise queues, counts and posts: the state machine's step |
| SendQueue.Engine.CloseSocketProc | net/qc_socket.cc:359-379 | closes the send side of one connection and touches no other |
| SendQueue.Engine.ScanMessage | net/qc_socket.cc:660-772 | one message of the scan is erased as stale, skipped or sent as far as the socket takes it: the state machine's step |
| SendQueue.Engine.SenderPass | net/qc_socket.cc:639-783 | one round of the sender, after a post or an interruption, is a run of its steps, after which every queued message is live and belongs to a connection that waits for its socket |
| SendQueue.Engine.WriteRequestHandler | net/qc_socket_request.cc:267-318 | the handler resumes the packet in hand and, once it is out, unregisters, posts and frees: the state machine's steps |
| Timer.DrainExactly | net/qc_socket_time.cc:57-91 | a drain takes exactly the entries due, leaves the others, and re-arms each taken one for the same connection and sequence number exactly when clients are not kicked at once; nothing due is left |
| Timer.DrainStep | net/qc_socket_time.cc:57-91 | entries re-armed during the drain never get in front of those still due |
| Timer.InsertSorted | net/qc_socket_time.cc:29 | the multimap stays sorted by time |
| Timer.InsertMultiset | net/qc_socket_time.cc:29 | an insertion adds one entry and loses none |
| Timer.TimerQueue.constructor | net/qc_socket.cc:190-191 | the wait is at least five seconds, which is what makes the drain terminate |
| Timer.TimerQueue.AddToTimerQueue | net/qc_socket_time.cc:18-33 | arms a connection one wait ahead and keeps the cached size and head |
| Timer.TimerQueue.RemoveFirstTimer | net/qc_socket_time.cc:42-55 | takes the earliest entry, or nothing from an empty queue |
| Timer.TimerQueue.GetOverTimeTimer | net/qc_socket_time.cc:57-91 | takes the earliest entry if it is due, re-arms it as configured, and keeps the cached size and head |
| Timer.TimerQueue.Drain | net/qc_socket_time.cc:161-168 | the loop terminates, returns the entries due in time order, and leaves the drained queue |
| Timer.TimerQueue.DeleteFromTimerQueue | net/qc_socket_time.cc:95-121 | exactly the entries of other connections are left, in order |
| Pool.ClosedKeeps | net/qc_socket.cc:359-379 | closing an active or recycling connection keeps every connection in exactly one place and all counters right |
| Pool.RecycledKeeps | net/qc_socket_conn.cc:198-217 | so does recycling one |
| Pool.AcceptedKeeps | net/qc_socket_accept.cc:106-152 | so does a lease, whether it is registered or refused by epoll |
| Pool.InvStep | net/qc_socket_accept.cc:86-152 | every step of accepting, closing, recycling, pinging and monitoring keeps partition, counters, admission bounds and timer entries |
| PoolRuns.EveryRun | net/qc_socket_conn.cc:94-174 | so does every run of every interleaving |
| PoolRuns.StartedInv | net/qc_socket.cc:453-481 | start-up establishes them, for every number of workers and listeners |
| PoolRuns.Conservation | net/qc_socket_conn.cc:60-174 | in every reachable state free + recycling + online + listeners = total, each connection is exactly one of these, counters equal sizes, and with the kick timer on each active client has exactly one timer entry, with its current sequence number |
| PoolRuns.CloseExactly | net/qc_socket.cc:335-341 | a close keeps the partition if and only if it hits an active client or one already recycling |
| PoolRuns.StaleCloseBreaks | net/qc_socket.cc:335-341 | with the built-in configuration, a run from start-up (accept, close, a minute, recycle) after which another close puts the client's connection in two lists |
| PoolRuns.AcceptExactly | net/qc_socket_accept.cc:119-126 | an accept keeps the partition if and only if the socket came from accept4 or could be made non-blocking |
| PoolRuns.LostLease | net/qc_socket_accept.cc:119-126 | with the built-in configuration the first client, if its socket cannot be made non-blocking, leaves a connection counted nowhere |
| PoolRuns.AdmissionBounds | net/qc_socket_accept.cc:86-106 | in every run connections never exceed max(5W+1, L) and online users never exceed W, even with the recycler acting between check and lease |
| PoolRuns.FullHouse | net/qc_socket_accept.cc:86-106 | W clients can be online at once, in some run from start-up, if and only if there are at most 4W + 1 listeners |
| PoolRuns.FreeListIsQueue | net/qc_socket_conn.cc:94-133 | the connection freed longest ago is leased first, and one is created only if none is free |
| PoolRuns.SequenceStep | net/qc_socket_conn.cc:21-43 | sequence numbers never fall, rise when a lease ends, and stay during a lease |
| PoolRuns.LeaseMatches | net/qc_socket_conn.cc:21-55 | a (connection, sequence) pair captured during a lease matches later if and only if that lease has not been closed or freed since |
| PoolRuns.NoEarlyReuse | net/qc_socket_conn.cc:136-229 | whichever step ended a lease, the monitor's included, the connection is not leased again before the recycle wait has passed |
| PoolRuns.Heartbeat | service/qc_slogic.cc:127-153 | with kick-at-once off, an active client not waiting for a check was heard from at most (3W+10)+W before the latest pass |
| PoolRuns.MonitorClosesExactly | service/qc_slogic.cc:127-153 | a check closes a client if and only if the entry is for its current lease and more than 3W+10 have passed since its last ping |
| PoolRuns.PunctualNeverKicked | net/qc_socket_time.cc:147-181 | a client whose gaps between pings never exceed 3W+10 is never closed by the monitor |
| PoolRuns.PunctualFromAccept | net/qc_socket_accept.cc:106-147 | a client that pings within 3W+10 of being accepted, and of every ping after that, is never closed by the monitor |
| PoolRuns.SilentIsClosed | net/qc_socket_time.cc:147-181 | a client that stops pinging is closed within (3W+10)+W+d of its last ping, with passes at most d apart |
| PoolRuns.PassExactly | net/qc_socket_time.cc:150-168 | a pass does something if and only if some entry's time is past, and then takes exactly the entries whose time has come |
| PoolRuns.KickedAtOnce | service/qc_slogic.cc:136-139 | with kick-at-once on, the monitor closes a client no earlier than W after it was accepted, at the check of its entry whatever its pings, and it is gone after the first complete pass later than that |
| Server.SocketServer.constructor | net/qc_socket.cc:453-481 | after start-up the listeners hold connections and all others are free |
| Server.SocketServer.InitConnection | net/qc_socket_conn.cc:60-77 | creates W free connections and both counters |
| Server.SocketServer.GetConnection | net/qc_socket_conn.cc:94-116 | takes the oldest free connection, or creates one, with a new sequence number |
| Server.SocketServer.FreeConnection | net/qc_socket_conn.cc:118-133 | retires the lease's sequence number and frees the connection |
| Server.SocketServer.InRecyConnectQueue | net/qc_socket_conn.cc:136-162 | a connection enters the recycle list once; a second call changes nothing |
| Server.SocketServer.CloseSocketProc | net/qc_socket.cc:359-379 | the pool's closing step, with the timer entries removed if the kick timer is on |
| Server.SocketServer.CloseConnection | net/qc_socket_conn.cc:165-174 | the connection goes straight back to the free list |
| Server.LetInExactly | net/qc_socket_accept.cc:36-152 | with the later calls succeeding, one client more is active and counted if and only if accept4, or accept after an unsupported accept4, gives a socket, fewer than W clients are online, and the pool has at most 5W connections or at least W free ones; otherwise nothing changes |
| Server.SocketServer.EventAccept | net/qc_socket_accept.cc:19-154 | for every kernel answer the new state is that of the accepting steps (LetInExactly says which clients they let in), and the invariant holds afterwards if and only if no plain-accept socket failed to become non-blocking |
| Server.PickedExactly | net/qc_socket_conn.cc:206-211 | the connections picked are exactly those of the list with inRecyTime + wait <= currtime, or exactly the others |
| Server.SocketServer.RecyclerPass | net/qc_socket_conn.cc:187-225 | one pass frees exactly the picked connections, in list order, retires their sequence numbers and changes nothing else |
| Server.CheckedAllRuns | net/qc_socket_time.cc:171-177 | the checks of a pass are a run with one check for each drained entry, which leaves none |
| Server.SocketServer.MonitorPass | net/qc_socket_time.cc:147-181 | one pass is a drain followed by the check of every drained entry, and leaves none unchecked |
| Server.SocketServer.ProcPingTimeOutChecking | service/qc_slogic.cc:127-153 | closes the connection only if the entry is for its current lease and it is to be kicked |
| ThreadPool.InvStep | misc/qc_threadpool.cc:105-207 | every step of producers, workers and connections keeps mutual exclusion, the counters, enough wake-ups for the queue, and one owner per buffer |
| ThreadPool.EveryRun | misc/qc_threadpool.cc:105-207 | so does every run of every interleaving, spurious wake-ups included |
| ThreadPool.KeepsWorking | misc/qc_threadpool.cc:105-136 | threads not waiting plus signals owed are at least min(queue length, thread count); the queue and running counters are exact; queued work is never left with all asleep and no signal owed |
| ThreadPool.HolderMoves | misc/qc_threadpool.cc:162-191 | whoever is inside the mutex can always go on |
| ThreadPool.StuckIsDone | misc/qc_threadpool.cc:162-203 | the pool comes to rest only with the queue empty, every thread waiting, every producer done and every buffer ever queued processed once |
| ThreadPool.EveryRunDrains | misc/qc_threadpool.cc:152-203 | without new packets every run is finite, and one that cannot go on has processed each queued buffer exactly once, taken in queue order |
| ThreadPool.EveryPacketProcessed | misc/qc_threadpool.cc:105-203 | whenever the pool has come to rest, as many buffers were processed as complete packets arrived that were not flood |
| ThreadPool.BufferOwnership | net/qc_socket_request.cc:166-215 | each allocated buffer always has exactly one owner - a connection, a producer, the queue or one worker - or was freed once; a leased connection owns one exactly in the body states |
| ThreadPool.WorkerPool.InMsgRecvQueueAndSignal | misc/qc_threadpool.cc:105-136 | a push under the mutex and a signal: the producer's steps |
| ThreadPool.WorkerPool.TakeOrWait | misc/qc_threadpool.cc:166-187 | waits on an empty queue, otherwise takes the first buffer and keeps the counter |
| ThreadPool.WorkerPool.ThreadRound | misc/qc_threadpool.cc:159-203 | one round goes to sleep or processes and frees the first buffer: a worker's steps |
| Printf.DigitsParseBack | public/qc_printf.cc:283-336 | the digits of every number parse back to it in base 10 and 16 and have no superfluous leading zero |
| Printf.DigitsUnique | public/qc_printf.cc:283-336 | they are the only representation of that kind |
| Printf.DigitsFitSlots | public/qc_printf.cc:286 | every 64-bit value fits the 20 digit slots |
| Printf.FieldLength | public/qc_printf.cc:337-343 | unclipped output is as long as the width or the digits, whichever is more |
| Printf.FieldContents | public/qc_printf.cc:337-355 | a field is its digits with the padding character everywhere before them |
| Printf.FieldValue | public/qc_printf.cc:337-355 | a field padded with zeros reads as the number, whatever the width |
| Printf.NumberAppears | public/qc_printf.cc:244-261 | a minus sign if and only if the number is negative, then the padding up to the width, which does not count the sign, then the digits |
| Printf.NumberReadBack | public/qc_printf.cc:244-261 | with either padding and any width a reader gets the number back |
| Printf.ShownNumber | public/qc_printf.cc:122-152 | the signed and unsigned conversions write their argument like that, with the padding, base and width of the directive |
| Printf.ShownPointer | public/qc_printf.cc:154-160 | a pointer is sixteen upper-case hexadecimal digits that read as its value |
| Printf.FillDecimal32 | public/qc_printf.cc:295-309 | the 32-bit path fills in the same digits as the 64-bit definition |
| Printf.FillDigits | public/qc_printf.cc:293-335 | the backward loops fill in exactly the digits, without leaving the slots |
| Printf.SprintfNum | public/qc_printf.cc:283-355 | the padded number is written as far as it fits, and nothing else in the buffer changes |
| Printf.ScanDirective | public/qc_printf.cc:57-113 | the scan reads padding, width, flags and precision as the grammar says, with the width modulo 2^64 |
| Printf.PutDirective | public/qc_printf.cc:115-262 | a conversion writes what its argument reads as, as far as it fits |
| Printf.PutExactly | public/qc_printf.cc:355 | writing changes exactly the characters it covers |
| Printf.ClipExactly | public/qc_printf.cc:347-353 | what is written is all of the text, or as many of its first characters as there is room for |
| Printf.AcceptedRanges | public/qc_printf.cc:122-185 | the arguments admitted are every value of the type the conversion reads, except the least 64-bit integer |
| Printf.VslPrintf | public/qc_printf.cc:32-271 | for every well-formed format and every buffer exactly the prefix of the unbounded rendering that fits is written, nothing at or past last, and the matching end is returned |
| Printf.DirectiveRoundTrip | public/qc_printf.cc:57-113 | every directive can be written down, and is read back as it was |
| Printf.RenderItems | public/qc_printf.cc:52-269 | the rendering of a format put together from characters and directives is that of its parts in order, each with its own argument |
| Printf.TwoDigits | public/qc_log.cc:128 | "%02d" of 5 is "05" |
| Printf.TwoPlaces | public/qc_printf.cc:61 | "%2d" of 5 is " 5" |
| Printf.LowerCase | public/qc_printf.cc:95-99 | "%xd" of 255 is "ff" |
| Printf.UpperCase | public/qc_printf.cc:90-94 | "%Xd" of 255 is "FF" |
| Printf.SignFirst | public/qc_printf.cc:244-261 | "%05d" of -42 is "-00042" |
| Printf.Strings | public/qc_printf.cc:162-171 | "%s" of any string is that string |
| Printf.Percent | public/qc_printf.cc:117-120 | two percent signs give one |
| Printf.Precision | public/qc_printf.cc:101-107 | "%.3d" writes every number as "%d" does |
| Printf.Unsigned | public/qc_printf.cc:143-152 | "%uL" of every value up to 18446744073709551615 is the digits that read as it |

## Left out

- `sem_wait`: any error return is the step for EINTR; the log line for other errors is left out.
- `sendproc`: a retry after EINTR is not a step of its own; a hard error, a return of 0 and a failing `epoll_ctl` are not in the send model, because after them the connection is dead and its counter meaningless until it is recycled.
- A connection is not recycled or leased while the write handler is between its post and its decrement; the recycle wait of several seconds stands for that.
- The extra decrement of `iThrowsendCount` on a hang-up (net/qc_socket.cc:556-560): the send invariants are about runs without it.
- Shutdown: `StopAll`, `Shutdown_subproc`, `clearconnection`, `clearMsgRecvQueue`, `clearMsgSendQueue`, `clearAllFromTimerQueue` and the `g_stopEvent` branches.
- `TestFlood`: its verdict is an input of the receive machine; the counter behind it is not modelled.
- Pool.InvStep: a close of a connection that is neither active nor recycling, and an accept that cannot make its socket non-blocking, are not steps; `CloseExactly` and `AcceptExactly` say what each would do.
- Server.SocketServer.EventAccept: the client's address, the handlers stored in the connection and the listener it came from are not modelled.
- Server.SocketServer.RecyclerPass: the `usleep` and the log line for a pending send are left out.
- Connections of the pool are records in a sequence indexed by creation order, so aliasing between two pointers to one connection is an equality of indices.
- ThreadPool.WorkerPool.InMsgRecvQueueAndSignal: the connection's pointer to the buffer is cleared when the buffer is handed over, which the source does a few instructions after the push; the log line about busy threads is left out.
- ThreadPool.WorkerPool.ThreadRound: the methods of the class run one thread without interruption; interleavings are those of the state machine.
- Each operation reads the clock once; sequence numbers do not wrap; the clock does not go back.
- Crc32.Table.GetCrc: sizes of 2^31 and more, where the signed loop counter of the source starts negative.
- Logic.LogicSocket.SendBodyPkgToClient: the source never fills in the reply bodies of register and login, so they are arbitrary octets; what the handlers do under the connection's mutex beyond that is nothing.
- Printf.VslPrintf: `%f`, the least 64-bit integer and formats that end inside a directive are excluded by its precondition.
- `include/thread_pool.h`, configuration, logging, daemon, signals, process title and address printing.
