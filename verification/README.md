# FlyDragon, verified

FlyDragon is a TCP server framework on epoll: it cuts byte streams into packets, checks them, hands them to worker
threads, sends answers back through queues and kernel buffers, watches its clients' heartbeats, recycles connections, and
logs through a double-buffered back end. This project models those parts in Dafny and proves what they promise.

| file | what it models |
|---|---|
| `Options.dfy`, `Words.dfy`, `Integers.dfy` | a value or none; 32-bit words as bit lists; C's truncating division |
| `Crc32.dfy` | the CRC-32 table, the byte-wise checksum, and which damage it detects |
| `CrcValue.dfy` | the values that the checksum takes |
| `Framing.dfy` | the four-state machine that rebuilds packets from short reads |
| `Logic.dfy` | the packet format, the checks on a received packet, and the replies |
| `Sending.dfy` | the sender thread and the write handler that share a connection's send buffer |
| `Transport.dfy` | sending and framing together: what a peer makes of the bytes it gets |
| `ConnectionPool.dfy` | the free, recycling and in-use connections and their sequence numbers |
| `TimerQueue.dfy` | the multimap of heartbeat timers |
| `Lifecycle.dfy` | accept, ping, kick, close and recycle, with time: the heartbeat bounds |
| `Condition.dfy`, `BoundedQueue.dfy`, `ThreadPool.dfy`, `ReceiveQueue.dfy` | monitors with wait sets, and the received messages between them |
| `AsyncLogging.dfy`, `LogStream.dfy` | the logger's buffers, and integers printed into them |
| `Date.dfy`, `TimeZone.dfy` | Julian day numbers, UTC and local time |

Concurrent parts are state machines: a `State`, the `Step`s that a thread can take at one instant, `Enabled`, `Next`, and
runs of steps in any order. The code itself is in classes and methods with the source's fields and loops, and each method
is proved to take exactly the machine's steps. The system calls `read` and `send` give any count that the kernel may give;
clocks are inputs. `uint32` is a list of 32 bits, least significant first, so a wrap-around is written out by its shifts.
Integers are otherwise unbounded; where the source's `int` or `time_t` could overflow is outside the model. A pointer that
is a `unique_ptr` in the source is a value that a move leaves `Null`.

Where the code and its documentation differ, the model follows the code: the development diary gives the packet header
ten bytes, the packed structure has eight (`_include/flyd_comm.h:28-35`), and that is what is modelled.

Some things that one might expect turn out not to hold. They are stated with the input that shows it, or with the exact
condition under which they do hold: per-connection order of sending (`Sending.SendReordered`,
`Sending.OrderIffNoOvertaking`), the register reply under this program's own framing (`Logic.RegisterReplyTooLong`),
retiring a connection that is already free (`ConnectionPool.RetiringFree`), a queue without capacity
(`BoundedQueue.DeadlockOnlyWithoutCapacity`), dates and weekdays before the first counted day (`Date.DateRoundTrip`,
`Date.WeekDayRange`), seconds on these dates (`TimeZone.UtcFails`, `TimeZone.UtcExact`), the day of the year in the year
-4800 (`TimeZone.YearDay`), and daylight saving shifts other than an hour (`TimeZone.HalfHourShift`,
`TimeZone.LocalRoundTrip`).

## Model

| member | source | states |
|---|---|---|
| Crc32.Constants | misc/flyd_crc32.cc:42 | the two bit lists are the polynomial 0x04c11db7 and, reflected, the 0xedb88320 of section 8 of RFC 1952 |
| Crc32.PolynomialReflects | misc/flyd_crc32.cc:40-42 | the reflected polynomial is the mirror image of the official one |
| Crc32.MirrorInvolution | misc/flyd_crc32.cc:23-36 | reflecting `ch` bits twice gives the value back if and only if it fits into `ch` bits |
| Crc32.CCRC32.Reflect | misc/flyd_crc32.cc:23-36 | the loop computes the mirror image of the low `ch` bits |
| Crc32.LeftStepMirrored | misc/flyd_crc32.cc:62 | a shift to the left with the official polynomial is, seen in the mirror, a step of the right-shifting register |
| Crc32.CCRC32.Init_CRC32_Table | misc/flyd_crc32.cc:38-69 | every entry becomes eight right-shifting steps of its index |
| Crc32.CCRC32.FillEntry | misc/flyd_crc32.cc:47-66 | reflect, eight left shifts, reflect equals eight right-shifting steps |
| Crc32.TableStep | misc/flyd_crc32.cc:85 | one table lookup does what feeding the eight bits of the byte one by one does |
| Crc32.CCRC32.Get_CRC | misc/flyd_crc32.cc:72-88 | for every buffer the table-driven loop returns the bit-serial CRC-32 |
| Crc32.FeedLinear | misc/flyd_crc32.cc:84-85 | the register is linear: two messages fed give registers whose difference is the difference fed |
| Crc32.StepInjective | misc/flyd_crc32.cc:85 | no two registers step to the same one |
| Crc32.BurstDetected | misc/flyd_crc32.cc:72-88 | two buffers of equal length, different only within 32 consecutive bits, have different CRCs, however long they are |
| Crc32.UndetectedErrors | misc/flyd_crc32.cc:72-88 | damage goes undetected if and only if the bit-serial register, fed the damage alone from zero, ends at zero |
| CrcValue.CrcOfNothing | misc/flyd_crc32.cc:72-88 | the checksum of an empty buffer is 0 |
| CrcValue.CheckValue | misc/flyd_crc32.cc:72-88 | the checksum of "123456789" is 0xcbf43926 |
| CrcValue.Residue | misc/flyd_crc32.cc:72-88 | every message with its checksum behind it, low byte first, leaves the register at 0xdebb20e3 |
| Framing.ParseAppend | net/flyd_socket_request.cc:22-99 | parsing a stream may stop anywhere and go on from the unfinished rest |
| Framing.ParsedPackets | net/flyd_socket_request.cc:186-231 | every packet that parsing yields has between 8 and 29000 bytes, 256 times its first byte plus its second |
| Framing.HeaderAlone | net/flyd_socket_request.cc:186-203 | a header that announces any other length is thrown away alone, one that announces 8 is a packet, and one in between waits for its body |
| Framing.Connection.constructor | net/flyd_socket_conn.cc:49-51 | a new connection waits for a header, and nothing is pending |
| Framing.Receiver.RecvProc | net/flyd_socket_request.cc:107-170 | a read puts between one and irecvlen bytes of the stream behind precvbuf, inside the buffer |
| Framing.Receiver.WaitRequestHandler | net/flyd_socket_request.cc:22-99 | after each read, in each of the four states, queue and buffers hold what one parse of the whole input yields, and irecvlen ends at the header's or the packet's end |
| Framing.Receiver.HeaderComplete | net/flyd_socket_request.cc:174-232 | a whole header that announces less than 8 or more than 29000 bytes is skipped, one that announces 8 makes a stamped packet, and any other starts a body of what it announces less 8 |
| Framing.Receiver.PacketComplete | net/flyd_socket_request.cc:242-262 | a whole packet goes to the end of the queue with the connection and its number, and the machine waits for 8 bytes again |
| Framing.Receiver.ReceiveAll | net/flyd_socket_request.cc:22-99 | under every schedule of short reads the packets queued for an input are those of the one-shot parser, in order |
| Logic.LongRoundTrip | logic/flyd_logic.cc:108 | ntohl undoes htonl |
| Logic.NetworkOrder | logic/flyd_logic.cc:108 | ntohl reads the first of four bytes as the highest |
| Logic.IntactMeansCrc | logic/flyd_logic.cc:95-118 | the CRC check passes if and only if the packet is, byte for byte, the encoding of the code and body it holds |
| Logic.LogicSocket.CheckCrc | logic/flyd_logic.cc:93-118 | a packet without a body must carry zero, one with a body the CRC of the body |
| Logic.LogicSocket.HandleMessage | logic/flyd_logic.cc:121-151 | stale stamps, unknown codes and codes without handler are told apart, in this order, and the rest go to their handler |
| Logic.LogicSocket.ThreadRecvProcFunc | logic/flyd_logic.cc:80-151 | takes the oldest message and judges it by CRC, stamp and code |
| Logic.LogicSocket.BuildReply | logic/flyd_logic.cc:191-206 | the buffer filled in place is the encoding of the reply |
| Logic.LogicSocket.BuildNoBodyReply | logic/flyd_logic.cc:244-261 | the header sent alone is the encoding of a packet without body |
| Logic.FramingRoundTrip | net/flyd_socket_request.cc:174-262 | packets of legal length, encoded back to back, are framed as exactly these packets with nothing left over |
| Logic.WireFormat | logic/flyd_logic.cc:191-206 | byte by byte: length of the whole, code and CRC of the body (0 without one), high bytes first, then the body |
| Logic.DeliveredIffLegal | net/flyd_socket_request.cc:186-203 | a packet gets through framing if and only if its body has at most 28992 bytes, so 29000 in all |
| Logic.RegisterReplyTooLong | logic/flyd_logic.cc:191-199 | the register reply of 65000 bytes does not get through this program's own framing |
| Logic.EncodedIsDispatched | logic/flyd_logic.cc:93-151 | what was encoded passes the CRC check and is routed by its own code with its own body |
| Logic.CodesOfHandlers | logic/flyd_logic.cc:38-52 | 0 is handled as ping, 5 as register, 6 as login; 1 to 4 have no handler, higher codes are unknown, and with a stale stamp none is handled |
| Logic.DispatchedWasEncoded | logic/flyd_logic.cc:93-151 | whatever reaches a handler is the encoding of its code and body, with a current stamp and a code that has a handler |
| Logic.SentIsExamined | logic/flyd_logic.cc:80-151 | of packets sent back to back, the i-th delivered is judged as the i-th sent |
| Logic.ReceivePackets | net/flyd_socket_request.cc:22-99 | under every schedule of short reads, packets sent back to back are queued as they were encoded, in order and stamped, with nothing left over |
| Logic.DamagedBodyDropped | logic/flyd_logic.cc:113-118 | a body damaged within 32 consecutive bits is always dropped |
| Sending.StepInv | net/flyd_socket.cc:696-820 | every access of the sender thread and of the write handler keeps the hand-over invariant |
| Sending.SendIntegrity | net/flyd_socket.cc:696-820 | in every interleaving what a socket has taken and what is still to send make up the packets claimed for it, back to back: all earlier ones in full and a part of the one in flight, or all of them when none is, and then no memory is held; the count is 0 or 1, and EPOLLOUT implies 1 and the memory of the packet |
| Sending.SendConservation | net/flyd_socket.cc:328-341 | every message given to msgSend was claimed while it was current, dropped when it was stale, or is still queued, each once |
| Sending.OrderIffNoOvertaking | net/flyd_socket.cc:696-730 | per connection messages go out in the order of msgSend if and only if no scan claims one after passing over another of the same connection |
| Sending.SendFifo | net/flyd_socket.cc:716-721 | so they do if no release lands in a scan that has passed the connection over |
| Sending.SendReordered | net/flyd_socket.cc:716-721 | a run with such a release, in which a later message goes out first |
| Sending.SendSide.MsgSend | net/flyd_socket.cc:328-341 | a message goes to the end of the queue, and the count with it |
| Sending.SendSide.DrainQueue | net/flyd_socket.cc:690-820 | after a scan only current messages of busy connections are left; all others were dropped as stale, or sent, and then exactly what the kernel took at each call of send is on the sockets and the rest is left to the write handler; and the scan is a run of the machine |
| Sending.SendSide.SendOne | net/flyd_socket.cc:724-809 | claiming and sending one message puts what the kernel took on its socket, and either releases it or records the rest, counts up and registers EPOLLOUT, as a run of the machine |
| Sending.SendSide.WaitForWriteEvent | net/flyd_socket.cc:754-768 | recording what is left, counting up and registering EPOLLOUT are three steps of the machine, in this order |
| Sending.SendSide.WriteRequestHandler | net/flyd_socket_request.cc:367-417 | a call of the write handler puts what the kernel took on the socket and keeps the rest, or clears EPOLLOUT, frees and counts down when nothing is left, as a run of the machine |
| Sending.SendSide.FinishPacket | net/flyd_socket_request.cc:388-416 | clearing EPOLLOUT, freeing and counting down are three steps of the machine, in this order |
| Transport.DeliveredIffFrame | net/flyd_socket_request.cc:186-231 | framing delivers a packet as it is if and only if it has between 8 and 29000 bytes, as its first two say |
| Transport.EncodedIsFrame | logic/flyd_logic.cc:191-206 | the encoding of a packet is such a frame if and only if its body has at most 28992 bytes |
| Transport.PeerSeesClaimed | net/flyd_socket.cc:696-820 | in every interleaving, what framing makes of the bytes that a socket has taken is a prefix of the packets claimed for it, and all of them with nothing left over when none is in flight |
| Transport.PeerSeesAccepted | net/flyd_socket.cc:328-341 | as long as no scan overtakes, it is a prefix of the packets accepted by msgSend, in that order, and all of them once none is queued or in flight |
| ConnectionPool.PartitionStep | net/flyd_socket_conn.cc:118-193 | every step leaves each connection once in m_connectionList and once among free, recycling and in use |
| ConnectionPool.PartitionRun | net/flyd_socket_conn.cc:118-280 | so does every run |
| ConnectionPool.SequenceCountsMoves | net/flyd_socket_conn.cc:43-77 | iCurrsequence grows by one exactly when its connection changes between free, recycling and in use |
| ConnectionPool.StampIsCurrent | logic/flyd_logic.cc:124-128 | a stamp taken in use is current later if and only if the connection has been in use throughout |
| ConnectionPool.SweepSorts | net/flyd_socket_conn.cc:212-254 | a recycling pass, restarted at every find, moves exactly the connections whose time has come to the end of the free list, in order |
| ConnectionPool.SweepIsRun | net/flyd_socket_conn.cc:218-251 | a pass is a run of single releases |
| ConnectionPool.SweepFrees | net/flyd_socket_conn.cc:225 | a pass frees exactly the connections that have waited for sixty seconds, or all of them at the end |
| ConnectionPool.DelayedRecycling | net/flyd_socket_conn.cc:167-254 | in every run a retired connection stays in the recycling list until it is released, at least sixty seconds later or at the end |
| ConnectionPool.Connection.GetOneToUse | net/flyd_socket_conn.cc:43-59 | the fields of a connection taken into use |
| ConnectionPool.Connection.PutOneToFree | net/flyd_socket_conn.cc:62-77 | the fields of a connection given back |
| ConnectionPool.Connections.constructor | net/flyd_socket_conn.cc:81-100 | the pool starts partitioned, all connections free and without a socket, and their counters right |
| ConnectionPool.Connections.GetConnection | net/flyd_socket_conn.cc:118-145 | takes the first free connection or makes one, with the socket given, as a step of the machine, and keeps counters and partition |
| ConnectionPool.Connections.FreeConnection | net/flyd_socket_conn.cc:148-162 | the connection goes to the end of the free list with a new sequence number |
| ConnectionPool.Connections.CloseConnection | net/flyd_socket_conn.cc:289-303 | gives a connection back at once, without its socket |
| ConnectionPool.RetiringFree | net/flyd_socket_conn.cc:167-193 | queueing a connection for recycling keeps the partition if and only if the connection is not free already |
| ConnectionPool.QueuedFacts | net/flyd_socket_conn.cc:186-190 | a connection that was not waiting goes to the end of the list with the time and a new number, one that was waiting changes nothing |
| ConnectionPool.Connections.InRecyConnectQueue | net/flyd_socket_conn.cc:167-193 | queues any connection of the pool for recycling once, however often it is asked to, and leaves the pool valid if and only if the connection was not free |
| ConnectionPool.Connections.RecyclePass | net/flyd_socket_conn.cc:212-280 | the restarting loop over the live list frees a waiting connection if and only if its sixty seconds are over or the program stops |
| TimerQueue.Timers.constructor | net/flyd_socket.cc:87-89 | the waiting time is what is configured, but at least 5 |
| TimerQueue.Timers.AddToTimerQueue | net/flyd_socket_time.cc:26-41 | one entry more, one waiting time from now, with order, size and earliest time kept |
| TimerQueue.Timers.GetEarliestTime | net/flyd_socket_time.cc:44-49 | no entry is earlier |
| TimerQueue.Timers.RemoveFirstTimer | net/flyd_socket_time.cc:53-66 | takes the earliest entry out, or nothing from an empty queue |
| TimerQueue.Timers.GetOverTimeTimer | net/flyd_socket_time.cc:71-100 | takes an overdue entry and puts it back one waiting time from now |
| TimerQueue.Timers.CollectOverdue | net/flyd_socket_time.cc:174-177 | the loop ends, and returns each overdue entry once, earliest first |
| TimerQueue.Timers.CollectIdle | net/flyd_socket_time.cc:161-178 | nothing is collected before the earliest entry is overdue by a second, then all that is due |
| TimerQueue.DueEntries | net/flyd_socket_time.cc:80 | the entries collected are all those whose time has come and no others |
| TimerQueue.CollectedIff | net/flyd_socket_time.cc:165-177 | an entry is collected if and only if its time has come and some entry is a whole second overdue |
| TimerQueue.RecycledEntries | net/flyd_socket_time.cc:71-98 | afterwards the entries are those not overdue and, due one waiting time later, those that were; none is overdue |
| TimerQueue.RecycledWaiting | net/flyd_socket_time.cc:71-98 | the multiset of connections and sequence numbers stays the same |
| TimerQueue.Timers.DeleteFromTimerQueue | net/flyd_socket_time.cc:104-130 | the restarting loop removes exactly the entries of the connection |
| TimerQueue.WaitingWithout | net/flyd_socket_time.cc:104-130 | and nobody else's |
| Lifecycle.InvStep | net/flyd_socket.cc:347-364 | every step keeps: partitioned pool, one timer entry per client with its current sequence number, no entry too late or overlooked |
| Lifecycle.CheckNeverBlocks | logic/flyd_logic.cc:265-288 | what the monitor collected can always be checked, whatever has happened to the connection since |
| Lifecycle.HeartbeatBound | net/flyd_socket_time.cc:158-191 | in every run every client was heard from within four waiting times, ten seconds and one period of the monitor |
| Lifecycle.SameNumberSameClient | logic/flyd_logic.cc:221-238 | while a connection has the same number it has the same client, and its last ping was as long ago as the steps of the run say |
| Lifecycle.SilentIsKicked | logic/flyd_logic.cc:265-288 | a client that has not pinged for that long has lost its connection and its sequence number |
| Lifecycle.AcceptedSilentIsKicked | net/flyd_socket_accept.cc:108-164 | the same, counted in the steps since it was accepted |
| Lifecycle.OnlySilentAreKicked | logic/flyd_logic.cc:269-275 | a check kicks exactly the client that it finds silent for more than three waiting times and ten seconds, never an earlier one |
| Lifecycle.PunctualIsKept | logic/flyd_logic.cc:221-238 | a client between whose pings no more than three waiting times and ten seconds pass keeps its connection, number and socket through every run until someone else closes it |
| Lifecycle.AcceptedTimer | net/flyd_socket_accept.cc:108-164 | with kicking enabled an accepted client has a timer one waiting time ahead, with its number |
| Lifecycle.AcceptedIsKept | net/flyd_socket_accept.cc:108-164 | the same, counted in the steps since it was accepted with this socket |
| Lifecycle.ClosedFacts | net/flyd_socket.cc:347-364 | a closed connection has no socket and no client, and is in the recycling list from then on |
| Lifecycle.ClosedTimers | net/flyd_socket.cc:349-352 | its timers are gone, and nobody else's |
| Lifecycle.TimeGoesOn | net/flyd_socket_time.cc:158-191 | passes of the monitor never stop the clock: from any state between two passes any number of seconds can pass |
| Lifecycle.ClosedWaits | net/flyd_socket_conn.cc:167-254 | in every run at least sixty seconds pass before a closed connection is used again, unless the program stops |
| Lifecycle.SocketsOnlyInUse | net/flyd_socket.cc:353-357 | in every run from a state where only connections in use hold a socket, as the server's first state is, this stays so, and closing twice closes no other client's socket |
| Lifecycle.Server.constructor | net/flyd_socket.cc:78-91 | the server starts in the machine's initial state, where the invariants hold and no connection has a socket |
| Lifecycle.Server.EventAccept | net/flyd_socket_accept.cc:108-164 | an accepted client gets a connection and a timer; one that epoll refuses gives the connection back |
| Lifecycle.Server.CloseSocket | net/flyd_socket.cc:347-364 | closing any connection of the pool removes the timers, the socket and one pending count, and queues it for recycling; the server stays valid, and it is the machine's step, if and only if the connection was not free |
| Lifecycle.Server.HandlePing | logic/flyd_logic.cc:221-238 | a ping without body and with a current stamp, and no other, sets the time of the last ping to now |
| Lifecycle.Server.CollectIdle | net/flyd_socket_time.cc:161-178 | the start of the monitor's pass is the machine's step |
| Lifecycle.Server.CheckPingTimeOut | logic/flyd_logic.cc:265-288 | the check of a collected entry is the machine's step |
| BoundedQueue.InvStep | logging/BoundedBlockingQueue.h:30-66 | every step keeps order, capacity and coverage of waiting threads |
| BoundedQueue.FifoAlways | logging/BoundedBlockingQueue.h:30-66 | in every run what was taken and then what is queued is what was put, in order, within the capacity |
| BoundedQueue.NoLostWakeup | logging/BoundedBlockingQueue.h:30-66 | a consumer sleeps only while woken consumers are coming for all items, and dually, with spurious wakeups and stolen items |
| BoundedQueue.EveryCallCounts | logging/BoundedBlockingQueue.h:30-66 | every call of put or take has moved one item, or its thread is still in it |
| BoundedQueue.PutsItsArgument | logging/BoundedBlockingQueue.h:30-40 | a turn of put without room waits, and with room puts what the call was given at the end, however long it waited |
| BoundedQueue.DeadlockOnlyWithoutCapacity | logging/BoundedBlockingQueue.h:22-28 | producers and consumers can all block each other if and only if the capacity is zero |
| BoundedQueue.BoundedBlockingQueue.PutTurn | logging/BoundedBlockingQueue.h:30-40 | a turn of put with the mutex is the machine's step |
| BoundedQueue.BoundedBlockingQueue.TakeTurn | logging/BoundedBlockingQueue.h:54-66 | a turn of take with the mutex is the machine's step |
| ThreadPool.InvStep | logging/ThreadPool.cc:52-110 | every step keeps order and coverage of waiting threads, with and without a limit |
| ThreadPool.TasksInOrder | logging/ThreadPool.cc:71-110 | the started tasks and then the queued ones are the submitted ones, in order, each once, and never more are queued than the limit says |
| ThreadPool.EveryCallCounts | logging/ThreadPool.cc:71-88 | every call of run has submitted one task, or its thread is still in it |
| ThreadPool.SubmitsItsArgument | logging/ThreadPool.cc:79-88 | a turn of run waits if there is a limit and no room, and else submits the task it was given, at the end |
| ThreadPool.WorkersAreWoken | logging/ThreadPool.cc:91-98 | a worker sleeps only while the pool runs and every queued task is spoken for |
| ThreadPool.ProducersAreWoken | logging/ThreadPool.cc:82-85 | a thread sleeps in run only under a limit, and while everybody for whom there is room has been woken |
| ThreadPool.AfterStopNobodySleeps | logging/ThreadPool.cc:52-63 | once stop has been called no worker sleeps, then or later |
| ThreadPool.ThreadPool.RunTurn | logging/ThreadPool.cc:79-88 | a turn of run with the mutex is the machine's step |
| ThreadPool.ThreadPool.TakeTurn | logging/ThreadPool.cc:91-110 | a turn of take with the mutex is the machine's step, and a stopped empty pool gives no task |
| ThreadPool.ThreadPool.StopTurn | logging/ThreadPool.cc:54-58 | stop wakes all sleeping workers |
| ReceiveQueue.InvStep | net/flyd_socket_request.cc:242-254 | every step keeps one queued message for every task that is coming, queued or started and yet to pop |
| ReceiveQueue.EveryTaskFindsItsMessage | logic/flyd_logic.cc:83-87 | no task ever pops an empty list, and what the pops have taken and then the list are the messages received, in order |
| ReceiveQueue.NothingIsLeft | logic/flyd_logic.cc:83-87 | all messages are popped if and only if no thread is between push and run, no task queued and none before its pop |
| AsyncLogging.AppendRecords | logging/AsyncLogging.cc:34-56 | an appended line ends up behind everything pending, unless it has 4000000 characters or more, and then it is lost |
| AsyncLogging.InvStep | logging/AsyncLogging.cc:34-133 | every step of front and back end keeps the buffers whole, the spare one covered, and the lines conserved |
| AsyncLogging.LogConservation | logging/AsyncLogging.cc:34-133 | in every run each line appended that is shorter than a buffer is in the file, in a buffer or dropped, and none is split over two buffers; those in the file and then those in the buffers are in the order of appending, drops or not; while the back end keeps up the file is exactly the lines written, and the buffers hold the rest |
| AsyncLogging.NothingDropped | logging/AsyncLogging.cc:92 | nothing is dropped if and only if there are never more than 25 buffers to write at once |
| AsyncLogging.DropFacts | logging/AsyncLogging.cc:92-101 | above 25 all but the first two are dropped and a notice is written, up to 25 nothing happens |
| AsyncLogging.KeptFacts | logging/AsyncLogging.cc:109-113 | at most two written buffers are kept, the first two |
| AsyncLogging.PassWritesAll | logging/AsyncLogging.cc:71-133 | one pass of the back end that keeps up writes every line that was pending when it got the mutex, and ends ready for the next |
| AsyncLogging.BuffersAreRecycled | logging/AsyncLogging.cc:71-129 | the back end's assertions hold in every run, drops included, and no refill takes from an empty vector |
| AsyncLogging.AsyncLogging.Append | logging/AsyncLogging.cc:34-56 | append is the machine's step |
| AsyncLogging.AsyncLogging.LockBuffers | logging/AsyncLogging.cc:75-88 | the back end waits when nothing is filled, and else swaps |
| AsyncLogging.AsyncLogging.SwapBuffers | logging/AsyncLogging.cc:81-87 | the moves and the swap are the machine's step |
| AsyncLogging.AsyncLogging.DropMost | logging/AsyncLogging.cc:92-101 | above 25 buffers all but two are dropped, with a notice |
| AsyncLogging.AsyncLogging.WriteBuffers | logging/AsyncLogging.cc:103-107 | the writing loop is a run of single writes |
| AsyncLogging.AsyncLogging.KeepTwo | logging/AsyncLogging.cc:109-113 | at most two written buffers are kept |
| AsyncLogging.AsyncLogging.RefillBuffer1 | logging/AsyncLogging.cc:115-121 | the first refill is the machine's step |
| AsyncLogging.AsyncLogging.RefillBuffer2 | logging/AsyncLogging.cc:123-129 | so is the second |
| LogStream.LowDigit | logging/LogStream.cc:38-56 | truncated division and the table around zero yield the digits of the absolute value, of any sign |
| LogStream.Convert | logging/LogStream.cc:46-67 | the cells written in place and reversed are the decimal form, a NUL follows, and no other cell changes |
| LogStream.ConvertHex | logging/LogStream.cc:69-85 | the same for hexadecimal |
| LogStream.Reverse | logging/LogStream.cc:64 | the part of the array comes out reversed, and no other cell changes |
| LogStream.DecimalReadsBack | logging/LogStream.cc:46-67 | every printed integer reads back as itself, and has no superfluous zero or sign |
| LogStream.PlainIsDecimal | logging/LogStream.cc:46-67 | and there is no other such form of it |
| LogStream.Examples | logging/LogStream.cc:38-44 | 0, -42 and, in hexadecimal, AF are printed like this |
| LogStream.TwentyCharacters | logging/LogStream.cc:224-234 | 64 bits, signed or not, take at most twenty characters |
| LogStream.FixedBuffer.Append | logging/LogStream.h:39-47 | a string is appended in full when it leaves a cell over, else not at all |
| LogStream.FixedBuffer.Add | logging/LogStream.h:55 | what was written behind the contents becomes part of them |
| LogStream.LogStream.FormatInteger | logging/LogStream.cc:237-244 | a number is appended in full when 32 cells are free, else not at all, and never beyond the buffer |
| LogStream.LogStream.FormatPointer | logging/LogStream.cc:294-306 | the same for a pointer |
| Date.DateRoundTrip | logging/Date.cc:20-42 | the number of a valid date reads back as that date if and only if it is from 1 March -4800 on |
| Date.NumberRoundTrip | logging/Date.cc:20-42 | a number reads as a date that exists, and whose number it is, if and only if it is at least -32044 |
| Date.NextDayNextNumber | logging/Date.cc:20-27 | the next day of the calendar has the next number |
| Date.WeekDayRange | logging/Date.h:96-99 | weekDay is 0 to 6 from number -1 on, and below that only on Sundays |
| Date.WeekDayFollows | logging/Date.h:96-99 | weekdays follow each other |
| Date.EpochDay | logging/Date.cc:44 | 1 January 1970 has the number that the conversions start from, and was a Thursday |
| TimeZone.FillHMS | logging/TimeZone.cc:76-82 | hours, minutes and seconds of a count of seconds |
| TimeZone.ToUtcTime | logging/TimeZone.cc:322-348 | truncating division and its correction give the day and second rounded down, before 1970 too |
| TimeZone.UtcRoundTrip | logging/TimeZone.cc:322-363 | every second from 1 March -4800 on is read back from its fields |
| TimeZone.UtcExact | logging/TimeZone.cc:322-363 | a second is read back from a date that exists if and only if it is from 1 March -4800 on |
| TimeZone.UtcFails | logging/TimeZone.cc:322-363 | a second a month earlier, whose day reads as a day 0 of February and does not come back |
| TimeZone.ClockRange | logging/TimeZone.cc:76-82 | hour, minute and second are in range, before 1970 too |
| TimeZone.WeekDayOf | logging/TimeZone.cc:340 | tm_wday counts the days from Thursday, 1 January 1970, modulo 7, forwards and backwards to day number -1 |
| TimeZone.FieldsRoundTrip | logging/TimeZone.cc:322-363 | the fields of a date from then on are read back if and only if the hour, minute and second are in range |
| TimeZone.YearDay | logging/TimeZone.cc:342-346 | tm_yday counts the days since 1 January, and is one short in the year -4800 |
| TimeZone.YearDayRange | logging/TimeZone.cc:342-346 | tm_yday is 0 to 365, and the date exists |
| TimeZone.LowerBound | logging/TimeZone.cc:234-237 | the loop ends where halving ends, for keys in any order |
| TimeZone.HalveParts | logging/TimeZone.cc:234-237 | on ascending keys this parts those below the sentry from the others |
| TimeZone.FindLocaltime | logging/TimeZone.cc:223-255 | for transitions in any order the search yields a local time of the zone, and its assertion holds; on strictly increasing keys it is that of the last transition at or before the sentry |
| TimeZone.SearchIsScan | logging/TimeZone.cc:223-255 | on ascending keys search and linear scan agree for every sentry if and only if no two keys are equal |
| TimeZone.EqualKeysDiffer | logging/TimeZone.cc:223-255 | of two transitions with equal keys the search finds the first, a scan the second |
| TimeZone.ToLocalTime | logging/TimeZone.cc:277-297 | for transitions in any order the local fields are those of the offset found |
| TimeZone.FromLocalTime | logging/TimeZone.cc:299-320 | for transitions in any order both searches and the try for the repeated hour, as specified |
| TimeZone.FromLocalIs | logging/TimeZone.cc:299-320 | for any fields: the offset found is taken off, and an hour more if the fields say daylight saving but standard time then shows the same hour and minute |
| TimeZone.OffsetShown | logging/TimeZone.cc:288-294 | tm_gmtoff is how far the local fields are ahead of UTC |
| TimeZone.ZoneShown | logging/TimeZone.cc:288-294 | in a zone with alternating daylight saving tm_isdst and tm_gmtoff tell which of the two is in force |
| TimeZone.LocalRoundTrip | logging/TimeZone.cc:277-320 | in a zone with alternating daylight saving every second comes back from local time as itself, but a repeated one off by what the shift differs from an hour |
| TimeZone.HourShiftReadsBack | logging/TimeZone.cc:308-318 | so all come back if and only if the shift is an hour or the second is not repeated |
| TimeZone.HalfHourShift | logging/TimeZone.cc:308-318 | a zone with half an hour of daylight saving, and a second that it reads back half an hour early |

## Left out

- Sockets, epoll_wait, accept, process management, signals, configuration and zone files, log files and their rolling: they are inputs or lists of bytes here.
- Send results 0 and -2 and the EPOLLERR, EPOLLHUP and EPOLLRDHUP events: after them the write handler leaves EPOLLOUT set and the count is decremented in several places, so the hand-over is modelled for a connected peer only.
- Liveness of sending: the semaphore is posted before the count is decremented, so a message may wait for the next post.
- Sending.State: the queue and the connections are a sequence and a map keyed by number, stale messages are dropped for stamps that do not change during a run, and every message has a block of memory of its own, as every caller allocates one; a freed block that is handed out again counts as a new one.
- Connections appear in Framing, Sending and ConnectionPool with the fields that each of them uses; the source has one structure for all.
- The memory of messages, and when it is freed: the code does not release it on every path.
- The bodies of the handlers: the register handler's check of the body's size, and what a login does.
- Lifecycle.Step: no caller closes a connection that has been given back; the methods cover such a call, the runs of the machine do not contain it.
- Locks of the received-message list: push and pop take different mutexes in the source, and are single steps here.
- Lifecycle.Server.EventAccept: taking a connection and arming its timer happen at one instant, and so do the check of a client and its closing; the source itself allows a client to be kicked by mistake in between.
- Overflow of `int` and `time_t`: lengths, day numbers and seconds are unbounded.
- Sequence numbers, counters and times do not wrap around, and the clock does not go back.
- Draining at shutdown: the logger may stop before it has written what was appended last, and a stopped thread pool neither starts its queued tasks nor wakes producers that wait for room.
- AsyncLogging.LogConservation: after an overload drop the place of the notice in the file is not stated.
- gmtime_r and timegm of the C library stand in the source where its comments want toUtcTime and fromUtcTime; the model uses the latter, in the range where they are exact.
- Floating point and snprintf formatting, string pieces, singletons, atomics and simple getters would only add easy members.
