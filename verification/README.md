# A verified model of the media server's base library and signaling server

The repository holds a WebRTC media server (`xrtcserver`, on a vendored copy of the WebRTC
base library) and a Go signaling server (`signaling`). This project models the parts of both
whose correctness is hardest to see from the code, and proves it for every input, every run
or every interleaving.

| file | models |
|---|---|
| `CopyOnWrite.dfy`, `Buffer.dfy` | reference-counted buffers shared by copy-on-write handles, on a growable buffer |
| `Dispatchers.dfy` | the socket server's key registry, interest masks and batched updates on epoll |
| `DtlsStream.dfy` | the TLS/DTLS stream adapter's state machine with re-entrant listeners |
| `PendingWrites.dfy` | the TLS socket adapter's buffer of bytes it has promised to send |
| `ResolverLifetime.dfy` | the asynchronous resolver's threads, posted tasks and self-destruction |
| `SdsString.dfy`, `SdsRepr.dfy`, `SdsGrammar.dfy`, `SdsSplit.dfy` | sds strings: printing, parsing, splitting, and exactly what the parser accepts |
| `Bitwise.dfy`, `Crc32.dfy`, `Varint.dfy`, `IpPrefix.dfy` | bit arithmetic: checksum, variable-length integers, address prefixes |
| `PacketQueue.dfy` | the bounded packet queue with recycled buffers |
| `GoStrings.dfy`, `ConfigFormat.dfy`, `ConfigReading.dfy`, `ConfigSurvival.dfy`, `ConfigByHand.dfy`, `ConfigFiles.dfy` | goconfig's reader, writer and configuration object, exactly what survives both, and files written by hand |
| `VerboseLog.dfy` | glog's verbosity cache |
| `StatsGraph.dfy` | the stats graph walk of adapter.js |
| `Bytes.dfy`, `Wrappers.dfy` | shared types |

`dafny verify dfyconfig.toml` checks everything.

## How the model is built

Objects whose methods update fields are classes with those fields; loops are loops with
invariants; each method is tied to a specification function or states its property outright.
The socket server and the two TLS adapters are written down twice: as functions on values,
of which invariants over all runs and laws that do not mention the functions' bodies are
proved, and as classes whose methods are shown to do the same, field by field.
What the code cannot decide itself is an input: results of the operating system, of the TLS
library and of the clock, and what listeners do when they are called back. Listeners are
scripts of further calls, so re-entrancy is part of every run. The resolver's threads are
interleaved step by step.

Where a promise fails, the code is kept as it is and the exact condition is proved:

- `CopyOnWrite.CopyOnWriteBuffer.AppendData` leaves the handle inconsistent exactly when
  nothing is appended to a null handle, and `Equals` separates a null handle from an empty one.
- A datagram socket re-created inside its own event batch registers a mask that the saved
  flags do not match (`Dispatchers.StaleMask`). `Dispatchers.ActExact` says exactly
  which calls do this and which later calls mend it; `Dispatchers.Run` shows that even then
  the kernel never watches for less than is wanted, and for exactly what is wanted on every
  socket but those. In every run whose handlers neither re-create their own socket as a
  datagram socket nor accept or receive on it after closing it, there are none: the kernel
  watches every registered socket for exactly what it has enabled.
- Without client authentication the stream adapter can issue SE_OPEN twice
  (`DtlsStream.OpenTwice`); `DtlsStream.Run` shows that this takes a matching digest after the
  handshake, and counts every SE_OPEN by its causes, which are bounded by the digests and
  stream openings among the calls.
- A retry of pending TLS data that stops half way repeats bytes (`PendingWrites.TakenTwice`);
  `PendingWrites.Run` shows that nothing is ever lost or reordered, and that nothing is
  repeated if and only if none of the calls of SSL_write was a retry that stopped half way;
  so it is in every run in which the library takes all or nothing of what it is offered again.
- goconfig values with a backtick and no double quote come back quoted
  (`ConfigFormat.BacktickValueChanges`), short ones that begin with a triple quote may be
  refused (`ConfigFormat.ShortTripleRefused`), a line break in a value makes two lines of it
  (`ConfigSurvival.BreakSplits`) and the key `-` comes back as a number
  (`ConfigSurvival.DashNumbered`). `ConfigSurvival.RoundTripExact` is the exact condition, for
  every configuration, under which it comes back from the file that is written for it;
  `ConfigSurvival.SingleRoundTrip` spells it out for one key and one value.
- `CountIPMaskBits` counts up to the lowest set bit, not to the first zero as its header
  comment says (`IpPrefix.Miscounted`); `IpPrefix.CountIPMaskBits` proves when the two agree.
- `sdssplitlen` is inverse to joining exactly for lists in which no element lets the separator
  be met early, other than the list of one empty string (`SdsSplit.SplitOfJoin`).
- `filterStats` throws exactly when a stat it has to visit has a list-named field that is not
  a list (`StatsGraph.FilterStats`).

## Model

| member | source | states |
|---|---|---|
| `CopyOnWrite.Run` | xrtcserver/rtcbase/src/rtc_base/copy_on_write_buffer.cc:39-105 | for every program over any number of handles, each handle reads as an independent byte string after every call, each cell's count equals the number of handles on it, no handle points at a deleted cell, and of all cells ever used exactly those without a handle have been deleted |
| `CopyOnWrite.Perform` | xrtcserver/rtcbase/src/rtc_base/copy_on_write_buffer.h:111-232 | every allowed call takes one step of the value semantics and keeps exact counts; the cells deleted are exactly those that lost their last handle |
| `CopyOnWrite.CopyOnWriteBuffer.CloneDataIfReferenced` | xrtcserver/rtcbase/src/rtc_base/copy_on_write_buffer.cc:97-105 | afterwards the handle is alone on its cell, its own bytes and all other handles' unchanged, and nothing is deleted |
| `CopyOnWrite.CopyOnWriteBuffer.SetData` | xrtcserver/rtcbase/src/rtc_base/copy_on_write_buffer.h:148-158 | the handle reads as the new bytes and no other handle changes |
| `CopyOnWrite.CopyOnWriteBuffer.AppendData` | xrtcserver/rtcbase/src/rtc_base/copy_on_write_buffer.h:180-192 | the handle's bytes are extended, no other handle changes, and consistency is kept exactly unless nothing is appended to a null handle |
| `CopyOnWrite.CopyOnWriteBuffer.SetSize` | xrtcserver/rtcbase/src/rtc_base/copy_on_write_buffer.cc:48-66 | the common prefix survives and no other handle changes |
| `CopyOnWrite.CopyOnWriteBuffer.CloneToResize` | xrtcserver/rtcbase/src/rtc_base/copy_on_write_buffer.cc:48-66 | a shared cell is replaced by a private one that holds what will be kept, nothing is deleted and no other handle changes |
| `CopyOnWrite.CopyOnWriteBuffer.EnsureCapacity` | xrtcserver/rtcbase/src/rtc_base/copy_on_write_buffer.cc:68-83 | no handle's bytes change |
| `CopyOnWrite.CopyOnWriteBuffer.Clear` | xrtcserver/rtcbase/src/rtc_base/copy_on_write_buffer.cc:85-95 | the handle is empty, null stays null, and no other handle changes |
| `CopyOnWrite.CopyOnWriteBuffer.Put` | xrtcserver/rtcbase/src/rtc_base/copy_on_write_buffer.h:79-86 | a write through data() is seen by this handle only |
| `CopyOnWrite.CopyOnWriteBuffer.CopyFrom` | xrtcserver/rtcbase/src/rtc_base/copy_on_write_buffer.h:111-118 | the target reads as the source, counts stay exact, and a cell is freed exactly when the target was its last handle |
| `CopyOnWrite.CopyOnWriteBuffer.MoveFrom` | xrtcserver/rtcbase/src/rtc_base/copy_on_write_buffer.h:120-125 | the target takes the source's value and the source becomes null |
| `CopyOnWrite.CopyOnWriteBuffer.Swap` | xrtcserver/rtcbase/src/rtc_base/copy_on_write_buffer.h:222-224 | the two values are exchanged and nothing is freed |
| `CopyOnWrite.CopyOnWriteBuffer.AppendFrom` | xrtcserver/rtcbase/src/rtc_base/copy_on_write_buffer.h:202-204 | appends another handle's bytes, which keep their value |
| `CopyOnWrite.CopyOnWriteBuffer.Equals` | xrtcserver/rtcbase/src/rtc_base/copy_on_write_buffer.cc:39-46 | equality of values, a null handle differing from an empty one |
| `CopyOnWrite.CopyOnWriteBuffer.Reset` | xrtcserver/rtcbase/src/api/scoped_refptr.h:100-157 | repointing one pointer keeps every count exact and deletes exactly the cell whose count reaches zero; no deleted cell is pointed at |
| `CopyOnWrite.CopyOnWriteBuffer.TakeFrom` | xrtcserver/rtcbase/src/api/scoped_refptr.h:140-157 | moving a pointer transfers the count without touching it |
| `CopyOnWrite.CountsRepointed` | xrtcserver/rtcbase/src/rtc_base/ref_counted_object.h:37-53 | one increment and one decrement are exactly what repointing needs |
| `CopyOnWrite.StrandedCells` | xrtcserver/rtcbase/src/rtc_base/ref_counted_object.h:39-45 | a cell disappears from the live cells exactly when its last pointer moves away |
| `CopyOnWrite.MoveCounts` | xrtcserver/rtcbase/src/api/scoped_refptr.h:95-119 | counts after a move |
| `CopyOnWrite.SwapCounts` | xrtcserver/rtcbase/src/api/scoped_refptr.h:151-157 | a swap changes no count |
| `CopyOnWrite.SoleOwner` | xrtcserver/rtcbase/src/rtc_base/ref_counted_object.h:53-53 | HasOneRef means that no other handle shares the cell |
| `CopyOnWrite.Permits` | xrtcserver/rtcbase/src/rtc_base/copy_on_write_buffer.h:133-141 | the calls a program may make, read off the handles |
| `Buffers.GrownCapacity` | xrtcserver/rtcbase/src/rtc_base/buffer.h:358-380 | growth meets the request and never shrinks |
| `Buffers.Buffer.EnsureCapacityWithHeadroom` | xrtcserver/rtcbase/src/rtc_base/buffer.h:358-380 | contents are kept, and the elements moved are counted exactly |
| `Buffers.Buffer.EnsureCapacity` | xrtcserver/rtcbase/src/rtc_base/buffer.h:335-339 | contents are kept and the capacity is the larger of the two |
| `Buffers.Buffer.AppendData` | xrtcserver/rtcbase/src/rtc_base/buffer.h:261-269 | contents are extended by the input |
| `Buffers.Buffer.SetData` | xrtcserver/rtcbase/src/rtc_base/buffer.h:207-215 | contents are the input |
| `Buffers.Buffer.SetSize` | xrtcserver/rtcbase/src/rtc_base/buffer.h:323-330 | the common prefix survives |
| `Buffers.AppendsAreAmortized` | xrtcserver/rtcbase/src/rtc_base/buffer.h:261-380 | over any run of appends to an empty buffer of any capacity at most four elements are moved for each one appended |
| `Buffers.MovedBound` | xrtcserver/rtcbase/src/rtc_base/buffer.h:358-380 | the potential argument over a whole run |
| `Buffers.GrowthIsPaidFor` | xrtcserver/rtcbase/src/rtc_base/buffer.h:363-375 | one reallocation is paid for by what was appended since the last one, with integer division |
| `Buffers.AppendAll` | xrtcserver/rtcbase/src/rtc_base/buffer.h:261-269 | the contents are the concatenation of the inputs, within the amortized bound |
| `Dispatchers.Run` | xrtcserver/rtcbase/src/rtc_base/physical_socket_server.cc:804-1155 | every run ends exactly as the machine of tables, flags and handlers says; the key maps are inverse and no key names two sockets; every event epoll_wait returned is accounted for once and in order, delivered to the opening its key was issued for or dropped because that is closed; the signals raised and the actions carried out are those of the events delivered and of the steps; per socket, the kernel's mask includes what is enabled, and equals it if and only if the registration is not among the mistimed ones that no update has followed; if no handler re-creates its own socket as a datagram socket, or accepts or receives on it once it is closed, no registration is mistimed and every mask is exact |
| `Dispatchers.RunSound` | xrtcserver/rtcbase/src/rtc_base/physical_socket_server.cc:804-1155 | after every step of every run the invariant holds, the history tells of every step and event, all that was done is in it, and with careful handlers nothing is mistimed |
| `Dispatchers.SocketServer.Add` | xrtcserver/rtcbase/src/rtc_base/physical_socket_server.cc:1105-1120 | the whole table afterwards: a new key, registered with the current mask; a duplicate changes nothing |
| `Dispatchers.AddedKeeps` | xrtcserver/rtcbase/src/rtc_base/physical_socket_server.cc:1105-1120 | registering a newly opened socket keeps the maps inverse, the kernel's table in step and every key issued for one opening only |
| `Dispatchers.SocketServer.Remove` | xrtcserver/rtcbase/src/rtc_base/physical_socket_server.cc:1122-1138 | the whole table afterwards: both map entries and the kernel's go together; an unknown dispatcher changes nothing |
| `Dispatchers.SocketServer.Update` | xrtcserver/rtcbase/src/rtc_base/physical_socket_server.cc:1140-1154 | the kernel gets the current mask and the registration is told, unless the socket is not registered |
| `Dispatchers.SocketServer.MaybeUpdateDispatcher` | xrtcserver/rtcbase/src/rtc_base/physical_socket_server.cc:874-879 | the kernel is told exactly if the mask differs and no batch is under way |
| `Dispatchers.SocketServer.SetEnabledEvents` | xrtcserver/rtcbase/src/rtc_base/physical_socket_server.cc:881-897 | the flags afterwards and exactly what the kernel hears of it |
| `Dispatchers.FlagsKeep` | xrtcserver/rtcbase/src/rtc_base/physical_socket_server.cc:881-897 | changing flags keeps all tables in agreement, in and out of a batch; exactly when the kernel is told |
| `Dispatchers.ChangeKeeps` | xrtcserver/rtcbase/src/rtc_base/physical_socket_server.cc:862-897 | a change of a socket's record, told to the kernel exactly if the announced mask changes, keeps the tables, whether it begins a batch, ends it or neither |
| `Dispatchers.SocketServer.StartBatchedEventUpdates` | xrtcserver/rtcbase/src/rtc_base/physical_socket_server.cc:862-865 | only the flags are saved |
| `Dispatchers.StartKeeps` | xrtcserver/rtcbase/src/rtc_base/physical_socket_server.cc:862-865 | saving the flags keeps agreement, although the kernel hears of nothing until the batch ends |
| `Dispatchers.SocketServer.FinishBatchedEventUpdates` | xrtcserver/rtcbase/src/rtc_base/physical_socket_server.cc:867-872 | the saved flags go, and what the kernel hears of it |
| `Dispatchers.FinishKeeps` | xrtcserver/rtcbase/src/rtc_base/physical_socket_server.cc:867-872 | the kernel is told exactly if the mask changed over the batch, and the tables agree |
| `Dispatchers.SocketServer.DoClose` | xrtcserver/rtcbase/src/rtc_base/physical_socket_server.cc:901-920 | saved flags first, then the registration, the descriptor and the flags; a closed socket is left alone |
| `Dispatchers.ShutIs` | xrtcserver/rtcbase/src/rtc_base/physical_socket_server.cc:901-920 | closing an open socket takes its key, its kernel entry and its flags together, and nothing else; a socket is open exactly if it is registered |
| `Dispatchers.SocketServer.DoCreate` | xrtcserver/rtcbase/src/rtc_base/physical_socket_server.cc:145-155 | closes, opens and registers; succeeds exactly if the descriptor is free once the socket itself is closed |
| `Dispatchers.CreatedIs` | xrtcserver/rtcbase/src/rtc_base/physical_socket_server.cc:145-155 | the whole state of the new socket, and exactly when the registration is mistimed |
| `Dispatchers.SocketServer.DoConnect` | xrtcserver/rtcbase/src/rtc_base/physical_socket_server.cc:253-274 | the socket after every outcome, a refused or unopened one included |
| `Dispatchers.ConnectExact` | xrtcserver/rtcbase/src/rtc_base/physical_socket_server.cc:253-274 | the sockets after a connection attempt, which registration it mistimes and which it mends |
| `Dispatchers.SocketServer.WrapSocket` | xrtcserver/rtcbase/src/rtc_base/physical_socket_server.cc:1095-1103 | an accepted descriptor is given a socket, unless the address or the descriptor is in use |
| `Dispatchers.WrapExact` | xrtcserver/rtcbase/src/rtc_base/physical_socket_server.cc:1095-1103 | the new socket is registered for reading and writing, and nothing is mistimed |
| `Dispatchers.SocketServer.DeleteSocket` | xrtcserver/rtcbase/src/rtc_base/physical_socket_server.cc:632-634 | the destructor closes first, so that the address can be used again |
| `Dispatchers.DeleteExact` | xrtcserver/rtcbase/src/rtc_base/physical_socket_server.cc:632-634 | exactly that socket goes |
| `Dispatchers.SocketServer.Act` | xrtcserver/rtcbase/src/rtc_base/physical_socket_server.cc:862-920 | whatever a handler does, the whole state afterwards; the action is recorded as carried out |
| `Dispatchers.ActKeeps` | xrtcserver/rtcbase/src/rtc_base/physical_socket_server.cc:862-920 | whatever is done to a socket keeps all tables in agreement; new mistimed registrations have new keys, and only they become untold |
| `Dispatchers.ActExact` | xrtcserver/rtcbase/src/rtc_base/physical_socket_server.cc:862-920 | the sockets after any action, exactly which registration it mistimes and of which the kernel is still to be told |
| `Dispatchers.HarmlessKeeps` | xrtcserver/rtcbase/src/rtc_base/physical_socket_server.cc:862-920 | unless the socket in its own event is re-created as a datagram socket or read from once closed, its flags are off while it is closed, and nothing is mistimed |
| `Dispatchers.SocketServer.Raise` | xrtcserver/rtcbase/src/rtc_base/physical_socket_server.cc:821-841 | one signal: the flag goes off, all flags on a close, before the handlers run and do all that they do |
| `Dispatchers.SocketServer.OnEvent` | xrtcserver/rtcbase/src/rtc_base/physical_socket_server.cc:804-845 | the signals of the set by rank between the two ends of a batch: the whole state afterwards |
| `Dispatchers.EventKeeps` | xrtcserver/rtcbase/src/rtc_base/physical_socket_server.cc:804-845 | an event keeps the tables whatever its handlers do to this or other sockets |
| `Dispatchers.QuietProcess` | xrtcserver/rtcbase/src/rtc_base/physical_socket_server.cc:804-845 | with handlers that do nothing, exactly the signalled flags go off, and all of them on a close |
| `Dispatchers.HandlerCloses` | xrtcserver/rtcbase/src/rtc_base/physical_socket_server.cc:829-832 | a handler that closes its own socket leaves it closed and no longer registered |
| `Dispatchers.Triggered` | xrtcserver/rtcbase/src/rtc_base/physical_socket_server.cc:1175-1223 | which events a readiness report becomes: accept and connect only if asked for, close only on error or end of stream, no read after an error |
| `Dispatchers.TriggeredExactly` | xrtcserver/rtcbase/src/rtc_base/physical_socket_server.cc:1175-1223 | for each of the five signals, exactly when a report calls for it |
| `Dispatchers.SocketServer.ProcessEvents` | xrtcserver/rtcbase/src/rtc_base/physical_socket_server.cc:1175-1223 | a report that calls for nothing changes nothing, and any other is an event: the whole state afterwards |
| `Dispatchers.ProcessDone` | xrtcserver/rtcbase/src/rtc_base/physical_socket_server.cc:1175-1223 | an event that reaches its socket raises exactly the signals the report calls for, by rank, and carries out exactly what their handlers do |
| `Dispatchers.AliveIffRegistered` | xrtcserver/rtcbase/src/rtc_base/physical_socket_server.cc:1105-1138 | a key is known exactly as long as the opening it was issued for is open |
| `Dispatchers.SocketServer.Dispatch` | xrtcserver/rtcbase/src/rtc_base/physical_socket_server.cc:1442-1454 | one event of the batch, recorded and processed or dropped: the whole state afterwards |
| `Dispatchers.DispatchKeeps` | xrtcserver/rtcbase/src/rtc_base/physical_socket_server.cc:1442-1454 | an event is delivered to the opening that produced it and is then processed, or is dropped, exactly if that opening has been closed since |
| `Dispatchers.SocketServer.Gather` | xrtcserver/rtcbase/src/rtc_base/physical_socket_server.cc:1424-1425 | what epoll returns: ready descriptors under their keys, as far as their masks ask for them |
| `Dispatchers.AllWanted` | xrtcserver/rtcbase/src/rtc_base/physical_socket_server.cc:1424-1425 | what epoll returns is only what the registered sockets want to hear of, unless the kernel has yet to be told |
| `Dispatchers.SocketServer.DispatchAll` | xrtcserver/rtcbase/src/rtc_base/physical_socket_server.cc:1438-1456 | the loop over the events, whatever earlier handlers did to the sockets of later ones |
| `Dispatchers.SocketServer.Serve` | xrtcserver/rtcbase/src/rtc_base/physical_socket_server.cc:1424-1456 | one return of epoll_wait, with the masks of that moment: the whole state afterwards |
| `Dispatchers.ServeKeeps` | xrtcserver/rtcbase/src/rtc_base/physical_socket_server.cc:1424-1456 | every event of a round is logged once and in order, and the round is recorded with its masks |
| `Dispatchers.SocketServer.WaitEpoll` | xrtcserver/rtcbase/src/rtc_base/physical_socket_server.cc:1409-1468 | the rounds that are served and the result for every sequence of outcomes |
| `Dispatchers.WaitKeeps` | xrtcserver/rtcbase/src/rtc_base/physical_socket_server.cc:1409-1468 | exactly the rounds up to a timeout, an error, a wake-up or the end of the time are served |
| `Dispatchers.Outcome` | xrtcserver/rtcbase/src/rtc_base/physical_socket_server.cc:874-897 | between events a socket is registered exactly if it is open, and its mask is exact if and only if the kernel has been told |
| `Dispatchers.StaleMask` | xrtcserver/rtcbase/src/rtc_base/physical_socket_server.cc:867-919 | an event for writing and closing whose write handler re-creates the datagram socket leaves the new socket watched for reading and writing with nothing enabled |
| `DtlsStream.Run` | xrtcserver/rtcbase/src/rtc_base/openssl_stream_adapter.cc:329-1011 | every run with re-entrant listeners ends exactly as the machine says; nothing passes in clear after StartSSL, user data reaches the library only when connected and, with client authentication, while the recorded certificate has the signalled digest; StartSSL and Close end clear-text operation, and Close is final; SE_OPEN is issued as often as handshakes end with a trusted peer, matching digests come late and streams open late, and there are no more digests and late openings than the calls hold; if callers keep their contracts, exactly once handshake and verification are both over with client authentication, and without it at most twice, twice exactly if a matching digest comes after the handshake; a running timer finds a live handshake |
| `DtlsStream.HandshakeOpens` | xrtcserver/rtcbase/src/rtc_base/openssl_stream_adapter.cc:329-955 | with client authentication, a handshake with a peer that has the digest ends connected and is announced exactly once, however many events and timeouts it takes, whether or not the stream was open at the start, and whenever the digest is given |
| `DtlsStream.CallKeeps` | xrtcserver/rtcbase/src/rtc_base/openssl_stream_adapter.cc:329-1011 | every call, with all that listeners do meanwhile, keeps the invariant on state, session, timer, certificate and history, undoes nothing, and adds no more causes of SE_OPEN than it holds |
| `DtlsStream.LeavesClear` | xrtcserver/rtcbase/src/rtc_base/openssl_stream_adapter.cc:518-536 | once StartSSL or Close has been called, clear-text operation is over for good |
| `DtlsStream.CloseIsFinal` | xrtcserver/rtcbase/src/rtc_base/openssl_stream_adapter.cc:732-739 | once closed, an adapter never comes back, whatever is called |
| `DtlsStream.Accounts` | xrtcserver/rtcbase/src/rtc_base/openssl_stream_adapter.cc:329-955 | in every orderly history the number of SE_OPEN is the number of its causes, and what bounds each of them |
| `DtlsStream.OpenTwice` | xrtcserver/rtcbase/src/rtc_base/openssl_stream_adapter.cc:329-380 | without client authentication a late matching digest issues SE_OPEN a second time |
| `DtlsStream.StreamAdapter.DoStartSSL` | xrtcserver/rtcbase/src/rtc_base/openssl_stream_adapter.cc:518-536 | accepted once; waits for the stream or begins the handshake: the whole state afterwards |
| `DtlsStream.StartLaws` | xrtcserver/rtcbase/src/rtc_base/openssl_stream_adapter.cc:518-536 | what StartSSL leaves: SSL_WAIT, an error, a connection with its SE_OPEN, or a handshake in progress, and the history of each |
| `DtlsStream.StreamAdapter.BeginSSL` | xrtcserver/rtcbase/src/rtc_base/openssl_stream_adapter.cc:852-895 | fails if set-up fails, and else is the first step of the handshake |
| `DtlsStream.BeginLaws` | xrtcserver/rtcbase/src/rtc_base/openssl_stream_adapter.cc:852-895 | the state and the history after the beginning of a handshake, for every outcome |
| `DtlsStream.StreamAdapter.ContinueSSL` | xrtcserver/rtcbase/src/rtc_base/openssl_stream_adapter.cc:897-955 | the timer is stopped, the chains are presented, and the result is acted on: the whole state afterwards |
| `DtlsStream.ContinueIdle` | xrtcserver/rtcbase/src/rtc_base/openssl_stream_adapter.cc:897-955 | one step of the handshake: it fails exactly if the library does or some presented chain does not match; state, timer, certificate and history of each outcome |
| `DtlsStream.StreamAdapter.HandshakeStep` | xrtcserver/rtcbase/src/rtc_base/openssl_stream_adapter.cc:907-954 | acts on the library's result, which is never success once a certificate is refused |
| `DtlsStream.JoinedKeeps` | xrtcserver/rtcbase/src/rtc_base/openssl_stream_adapter.cc:908-926 | SE_OPEN now, unless the peer is still to be verified; the history stays safe and orderly |
| `DtlsStream.StreamAdapter.VerifyPeerCertificate` | xrtcserver/rtcbase/src/rtc_base/openssl_stream_adapter.cc:1111-1139 | succeeds exactly if the recorded certificate has the signalled digest |
| `DtlsStream.StreamAdapter.VerifyCallback` | xrtcserver/rtcbase/src/rtc_base/openssl_stream_adapter.cc:1147-1201 | records the certificate, provisionally accepted while no digest is known |
| `DtlsStream.StreamAdapter.PresentChains` | xrtcserver/rtcbase/src/rtc_base/openssl_stream_adapter.cc:1147-1201 | the callback for every chain in turn |
| `DtlsStream.PresentedAllKeeps` | xrtcserver/rtcbase/src/rtc_base/openssl_stream_adapter.cc:1147-1201 | over all presented chains: refused exactly if one of them does not match, and the last is recorded |
| `DtlsStream.StreamAdapter.DoSetPeerCertificateDigest` | xrtcserver/rtcbase/src/rtc_base/openssl_stream_adapter.cc:329-380 | refused exactly if the recorded certificate does not match; the whole state afterwards |
| `DtlsStream.DigestLaws` | xrtcserver/rtcbase/src/rtc_base/openssl_stream_adapter.cc:329-380 | what a digest does before the certificate, during the handshake and after it: state, posted events and history |
| `DtlsStream.StreamAdapter.DoWrite` | xrtcserver/rtcbase/src/rtc_base/openssl_stream_adapter.cc:557-624 | result, next state and exactly what reaches the library, in every state, on a live session |
| `DtlsStream.StreamAdapter.DoRead` | xrtcserver/rtcbase/src/rtc_base/openssl_stream_adapter.cc:626-708 | the same for reading, end of stream included |
| `DtlsStream.UserLaws` | xrtcserver/rtcbase/src/rtc_base/openssl_stream_adapter.cc:557-708 | when each answer is given to a reader or writer, and that only the library's answers change the state |
| `DtlsStream.StreamAdapter.OnEvent` | xrtcserver/rtcbase/src/rtc_base/openssl_stream_adapter.cc:757-818 | which events go on to the listener, and the whole state after it |
| `DtlsStream.SettledEvent` | xrtcserver/rtcbase/src/rtc_base/openssl_stream_adapter.cc:757-818 | while no handshake is to be made, exactly which events go on to the listener and what they leave in the history |
| `DtlsStream.FailingEvent` | xrtcserver/rtcbase/src/rtc_base/openssl_stream_adapter.cc:764-801 | a handshake that fails on an event tears the adapter down, and the listener is told of a close and nothing else |
| `DtlsStream.StreamAdapter.OnOpen` | xrtcserver/rtcbase/src/rtc_base/openssl_stream_adapter.cc:764-776 | starts the handshake exactly in SSL_WAIT and otherwise passes the event on |
| `DtlsStream.StreamAdapter.OnReady` | xrtcserver/rtcbase/src/rtc_base/openssl_stream_adapter.cc:778-801 | which readiness goes on to the listener in every state; only a handshake in progress changes state |
| `DtlsStream.ListenersCalled` | xrtcserver/rtcbase/src/rtc_base/openssl_stream_adapter.cc:803-817 | the listener is called exactly if there is something to signal: what it reads then reaches the library |
| `DtlsStream.PostedListenerCalled` | xrtcserver/rtcbase/src/rtc_base/openssl_stream_adapter.cc:820-823 | a posted SE_OPEN is delivered to the listener, once |
| `DtlsStream.OpenListenerCalled` | xrtcserver/rtcbase/src/rtc_base/openssl_stream_adapter.cc:908-926 | the listener of SE_OPEN may write at once |
| `DtlsStream.StreamAdapter.OnTimeout` | xrtcserver/rtcbase/src/rtc_base/openssl_stream_adapter.cc:825-850 | a running timer finds a live session and carries the handshake on, a stopped one does nothing |
| `DtlsStream.StreamAdapter.Cleanup` | xrtcserver/rtcbase/src/rtc_base/openssl_stream_adapter.cc:971-1011 | the adapter is closed or stays in error, with session, chain and timer gone |
| `DtlsStream.StreamAdapter.Fail` | xrtcserver/rtcbase/src/rtc_base/openssl_stream_adapter.cc:957-969 | the adapter is in error and torn down |
| `DtlsStream.SafeExtended` | xrtcserver/rtcbase/src/rtc_base/openssl_stream_adapter.cc:557-708 | which single event may follow a safe history |
| `PendingWrites.Run` | xrtcserver/rtcbase/src/rtc_base/openssl_adapter.cc:448-755 | every run of calls with re-entrant listeners ends exactly as the step function says; what Send reported has been taken by the library or is pending, in order and without loss; nothing is repeated if and only if no call of SSL_write was a retry that took a proper part; if every retry in the script takes all or nothing, what was taken and what is pending is exactly what was reported |
| `PendingWrites.AllGoesThrough` | xrtcserver/rtcbase/src/rtc_base/openssl_adapter.cc:448-755 | whatever is sent over a working connection, in whatever chunks, reaches the library in order and exactly once, if it takes what it had no room for when the socket becomes writable |
| `PendingWrites.WriteEventRetries` | xrtcserver/rtcbase/src/rtc_base/openssl_adapter.cc:720-755 | a write event while connected offers the library whatever is pending when the readers are done, once and before anything the writers do |
| `PendingWrites.FlushedIdle` | xrtcserver/rtcbase/src/rtc_base/openssl_adapter.cc:746-752 | if nobody interferes and the library takes all, a write event leaves nothing pending and all of it taken |
| `PendingWrites.SendOffers` | xrtcserver/rtcbase/src/rtc_base/openssl_adapter.cc:514-576 | exactly which calls of the library a Send makes: pending data first, and new data only once that is gone |
| `PendingWrites.ListenersHeard` | xrtcserver/rtcbase/src/rtc_base/openssl_adapter.cc:694-755 | what readers and writers send when they are signalled is sent, and when each of them is signalled |
| `PendingWrites.ErrorIsFinal` | xrtcserver/rtcbase/src/rtc_base/openssl_adapter.cc:514-755 | after an error nothing happens until the socket is closed |
| `PendingWrites.FailuresAreErrors` | xrtcserver/rtcbase/src/rtc_base/openssl_adapter.cc:472-508 | a failed write, read or handshake is such an error |
| `PendingWrites.EverGrows` | xrtcserver/rtcbase/src/rtc_base/openssl_adapter.cc:472-508 | no call of the library is ever forgotten, whatever listeners do |
| `PendingWrites.TlsSocket.DoSslWrite` | xrtcserver/rtcbase/src/rtc_base/openssl_adapter.cc:472-508 | the library is only ever called again with what it is owed; the call and what it took are recorded |
| `PendingWrites.TlsSocket.Retry` | xrtcserver/rtcbase/src/rtc_base/openssl_adapter.cc:532-543 | pending data is dropped only when all of it was taken: the whole new state |
| `PendingWrites.RetryHalfWay` | xrtcserver/rtcbase/src/rtc_base/openssl_adapter.cc:532-543 | a retry counts as stopped half way exactly if it takes a proper part |
| `PendingWrites.TlsSocket.Offer` | xrtcserver/rtcbase/src/rtc_base/openssl_adapter.cc:550-576 | what the library has no room for is kept and reported as sent, and the rest is reported as far as it was taken |
| `PendingWrites.TlsSocket.DoSend` | xrtcserver/rtcbase/src/rtc_base/openssl_adapter.cc:514-576 | the whole new state, the result in every state, and that exactly the reported prefix is added to what has been promised |
| `PendingWrites.TlsSocket.DoRecv` | xrtcserver/rtcbase/src/rtc_base/openssl_adapter.cc:590-637 | reading hands nothing to the library and changes only the state and the read flag |
| `PendingWrites.TlsSocket.OnWriteEvent` | xrtcserver/rtcbase/src/rtc_base/openssl_adapter.cc:720-755 | readers first if a read waits for writing, then whatever is pending by then, then writers; left alone by listeners, a willing library takes all that is pending |
| `PendingWrites.TlsSocket.OnReadEvent` | xrtcserver/rtcbase/src/rtc_base/openssl_adapter.cc:694-718 | only while connected, writers first if a write waits for reading, then readers: the whole new state |
| `PendingWrites.TlsSocket.Cleanup` | xrtcserver/rtcbase/src/rtc_base/openssl_adapter.cc:448-470 | pending data and history go with the connection |
| `PendingWrites.TakenTwice` | xrtcserver/rtcbase/src/rtc_base/openssl_adapter.cc:532-576 | for every data and cut, what a half-way retry took is taken again |
| `PendingWrites.BalancedAfter` | xrtcserver/rtcbase/src/rtc_base/openssl_adapter.cc:448-755 | whatever is called, and whatever listeners do, nothing that was reported is lost, and the surplus is what half-way retries took |
| `PendingWrites.RetryBalanced` | xrtcserver/rtcbase/src/rtc_base/openssl_adapter.cc:532-543 | a retry loses nothing, and repeats exactly what it took if it stopped half way |
| `PendingWrites.NewBalanced` | xrtcserver/rtcbase/src/rtc_base/openssl_adapter.cc:550-576 | new data is promised as far as it is taken or kept |
| `PendingWrites.NoneHalfWayAfter` | xrtcserver/rtcbase/src/rtc_base/openssl_adapter.cc:532-543 | if no retry of a script takes a part, none of the calls of the library did |
| `PendingWrites.SurplusIsHalfWay` | xrtcserver/rtcbase/src/rtc_base/openssl_adapter.cc:532-543 | bytes are repeated if and only if some retry stopped half way |
| `PendingWrites.EmbedsInserted` | xrtcserver/rtcbase/src/rtc_base/openssl_adapter.cc:532-543 | repeating bytes in front of the pending ones loses nothing |
| `PendingWrites.EmbedsAppended` | xrtcserver/rtcbase/src/rtc_base/openssl_adapter.cc:550-576 | promising and handing on the same bytes loses nothing |
| `PendingWrites.EmbedsEqualLength` | xrtcserver/rtcbase/src/rtc_base/openssl_adapter.cc:514-576 | without surplus nothing is lost, repeated or reordered |
| `ResolverLifetime.EveryRunIsSafe` | xrtcserver/rtcbase/src/rtc_base/async_resolver.cc:96-204 | in every interleaving nothing is used after it is freed, nothing is posted or announced for a dead resolver, it is deleted at most once and never under its own signal, and no result is announced twice |
| `ResolverLifetime.WhenAllIsDone` | xrtcserver/rtcbase/src/rtc_base/async_resolver.cc:106-204 | once nothing can move, a destroyed resolver has been deleted exactly once, and one that was not destroyed has announced every result once |
| `ResolverLifetime.NoDeadlock` | xrtcserver/rtcbase/src/rtc_base/async_resolver.cc:106-148 | some thread can always move until all work is done |
| `ResolverLifetime.RunsOut` | xrtcserver/rtcbase/src/rtc_base/async_resolver.cc:122-204 | without further calls every schedule ends after boundedly many steps |
| `ResolverLifetime.StepKeeps` | xrtcserver/rtcbase/src/rtc_base/async_resolver.cc:106-204 | every step of every thread keeps the invariant |
| `ResolverLifetime.WorkerSound` | xrtcserver/rtcbase/src/rtc_base/async_resolver.cc:129-149 | a worker posts only under the lock and only while the resolver lives |
| `ResolverLifetime.OwnerSound` | xrtcserver/rtcbase/src/rtc_base/async_resolver.cc:106-204 | the posted tasks, the callback, self-destruction and the destructor keep mutual exclusion and the shape of the call stack |
| `ResolverLifetime.UserSound` | xrtcserver/rtcbase/src/rtc_base/async_resolver.cc:122-182 | Start and Destroy, from outside or from the callback, keep the invariant |
| `ResolverLifetime.WorkerCopies` | xrtcserver/rtcbase/src/rtc_base/async_resolver.cc:129-149 | a worker neither loses nor copies its result |
| `ResolverLifetime.OwnerCopies` | xrtcserver/rtcbase/src/rtc_base/async_resolver.cc:135-147 | the owning sequence neither loses nor copies a result |
| `ResolverLifetime.OwnerWorks` | xrtcserver/rtcbase/src/rtc_base/async_resolver.cc:135-204 | each step of the owning sequence brings the end nearer |
| `ResolverLifetime.WorkerWorks` | xrtcserver/rtcbase/src/rtc_base/async_resolver.cc:129-149 | each step of a worker brings the end nearer |
| `SdsRepr.SplitJoined` | xrtcserver/rtcbase/src/rtc_base/sds.cc:416-589 | every list of byte strings, printed, joined with spaces and parsed, comes back as it was |
| `SdsRepr.SplitLayout` | xrtcserver/rtcbase/src/rtc_base/sds.cc:484-589 | the same for any blanks between, before and behind the printed strings |
| `SdsRepr.ScanRepr` | xrtcserver/rtcbase/src/rtc_base/sds.cc:416-439 | a printed string is read as one token and the scan stops right behind it |
| `SdsRepr.ScanEscaped` | xrtcserver/rtcbase/src/rtc_base/sds.cc:500-535 | escaped bytes are read back inside quotes, whatever follows |
| `SdsRepr.ScanByte` | xrtcserver/rtcbase/src/rtc_base/sds.cc:419-435 | each of the 256 bytes survives its escape |
| `SdsRepr.ReprReadable` | xrtcserver/rtcbase/src/rtc_base/sds.cc:416-439 | what is printed consists of printable characters, and text that needs no escape is printed as it is |
| `SdsRepr.LayoutHasNoNul` | xrtcserver/rtcbase/src/rtc_base/sds.cc:416-439 | printed lists contain no NUL, so that they are C strings |
| `SdsRepr.ReadToken` | xrtcserver/rtcbase/src/rtc_base/sds.cc:493-572 | the pointer loop reads the token the scanner specifies, in all three modes |
| `SdsRepr.QuotedTurn` | xrtcserver/rtcbase/src/rtc_base/sds.cc:501-535 | one turn inside double quotes |
| `SdsRepr.SingleQuotedTurn` | xrtcserver/rtcbase/src/rtc_base/sds.cc:536-550 | one turn inside single quotes |
| `SdsRepr.SplitArgsOf` | xrtcserver/rtcbase/src/rtc_base/sds.cc:484-589 | the whole loop against the specification, unbalanced quotes refused |
| `SdsGrammar.SplitExact` | xrtcserver/rtcbase/src/rtc_base/sds.cc:472-589 | a line is split into a list of arguments if and only if it spells that list: bare words, words that end in a part in double or single quotes, hexadecimal and named escapes, and white space between them; any other line is refused |
| `SdsGrammar.SpellingSplit` | xrtcserver/rtcbase/src/rtc_base/sds.cc:472-589 | every spelling of a list of arguments, in any mixture of forms and with any blanks, is split into that list |
| `SdsGrammar.SplitSpelled` | xrtcserver/rtcbase/src/rtc_base/sds.cc:472-589 | whatever line is accepted is a spelling of the arguments it is split into |
| `SdsGrammar.FormScanned` | xrtcserver/rtcbase/src/rtc_base/sds.cc:493-572 | one argument in any form is read as one token that stands for its bytes |
| `SdsGrammar.DoubleScanned` | xrtcserver/rtcbase/src/rtc_base/sds.cc:501-535 | the items of a part in double quotes, named and hexadecimal escapes included |
| `SdsGrammar.SingleScanned` | xrtcserver/rtcbase/src/rtc_base/sds.cc:536-550 | the items of a part in single quotes, where only the apostrophe is escaped |
| `SdsGrammar.WordScanned` | xrtcserver/rtcbase/src/rtc_base/sds.cc:551-570 | every byte of a bare word is taken as it is |
| `SdsGrammar.PrefixSplit` | xrtcserver/rtcbase/src/rtc_base/sds.cc:484-589 | arguments that are ended by a blank are read, and the rest of the line decides |
| `SdsGrammar.ClosedEarlyRefused` | xrtcserver/rtcbase/src/rtc_base/sds.cc:525-529 | a closing quote that is not followed by a blank makes the whole line be refused |
| `SdsGrammar.UnclosedRefused` | xrtcserver/rtcbase/src/rtc_base/sds.cc:530-532 | and so does a quote that is never closed |
| `SdsString.Sds.MakeRoomFor` | xrtcserver/rtcbase/src/rtc_base/sds.cc:94-112 | contents are kept and there is room |
| `SdsString.Sds.CatLen` | xrtcserver/rtcbase/src/rtc_base/sds.cc:182-194 | contents are extended and the terminator is kept |
| `SdsString.Sds.CatEscaped` | xrtcserver/rtcbase/src/rtc_base/sds.cc:419-435 | appends the escape of one byte |
| `SdsString.Sds.CatRepr` | xrtcserver/rtcbase/src/rtc_base/sds.cc:416-439 | appends the printed form of the whole string |
| `SdsString.PrintAndSplit` | xrtcserver/rtcbase/src/rtc_base/sds.cc:416-589 | the printer and the parser as written, composed: every list of byte strings comes back as it was |
| `SdsSplit.SplitLen` | xrtcserver/rtcbase/src/rtc_base/sds.cc:345-392 | the tokens join to the input and each ends at the first separator, within an array that always has room; an empty separator is refused |
| `SdsSplit.SplitUnique` | xrtcserver/rtcbase/src/rtc_base/sds.cc:345-392 | there is only one such list |
| `SdsSplit.SplitOfJoin` | xrtcserver/rtcbase/src/rtc_base/sds.cc:345-392 | for every list, splitting the joined text returns it if and only if no element lets the separator be met early and the list is not that of one empty string |
| `SdsSplit.SplitAgain` | xrtcserver/rtcbase/src/rtc_base/sds.cc:345-392 | the same of the loop itself |
| `SdsSplit.Grow` | xrtcserver/rtcbase/src/rtc_base/sds.cc:359-367 | there is room for the next token and the last |
| `Crc32.UpdateCrc32` | xrtcserver/rtcbase/src/rtc_base/crc32.cc:39-48 | equals the bit-at-a-time shift register of section 8 of RFC 1952 for every message and start value |
| `Crc32.LoadCrc32Table` | xrtcserver/rtcbase/src/rtc_base/crc32.cc:23-37 | every entry is eight shifts of its index |
| `Crc32.TableStep` | xrtcserver/rtcbase/src/rtc_base/crc32.cc:45-45 | one look-up is eight bits of the register |
| `Crc32.PolynomialIs` | xrtcserver/rtcbase/src/rtc_base/crc32.cc:20-21 | the constant is the CRC-32 polynomial, term by term |
| `Crc32.ChecksumComposes` | xrtcserver/rtcbase/src/rtc_base/crc32.cc:39-48 | updating over two parts is updating over their concatenation |
| `Crc32.BurstDetected` | xrtcserver/rtcbase/src/rtc_base/crc32.cc:39-48 | messages of equal length that differ only within 32 consecutive bits never share a checksum |
| `Crc32.FourBytesDetected` | xrtcserver/rtcbase/src/rtc_base/crc32.cc:39-48 | the same for four consecutive bytes |
| `Crc32.FeedInjective` | xrtcserver/rtcbase/src/rtc_base/crc32.cc:27-34 | equal input never makes different registers equal |
| `Crc32.ShiftsLinear` | xrtcserver/rtcbase/src/rtc_base/crc32.cc:27-34 | shifting is linear over exclusive or |
| `Varint.RoundTrip` | xrtcserver/rtcbase/src/rtc_base/byte_buffer.cc:107-128 | any list of 64-bit values is read back as written, with the bytes behind it untouched |
| `Varint.ByteBufferWriter.WriteUVarint` | xrtcserver/rtcbase/src/rtc_base/byte_buffer.h:62-72 | the loop appends the encoding |
| `Varint.ByteBufferReader.ReadUVarint` | xrtcserver/rtcbase/src/rtc_base/byte_buffer.cc:107-128 | the loop decodes any bytes as specified, with loss above 64 bits, truncated and over-long input included |
| `Varint.ReadsBack` | xrtcserver/rtcbase/src/rtc_base/byte_buffer.cc:107-128 | an encoding is read as its value and nothing behind it is touched |
| `Varint.DecodeEnds` | xrtcserver/rtcbase/src/rtc_base/byte_buffer.cc:107-128 | whatever the bytes are, a number that ends within ten of them is read, modulo 2^64, and reading stops behind it |
| `Varint.DecodeGivesUp` | xrtcserver/rtcbase/src/rtc_base/byte_buffer.cc:107-128 | one that does not end within ten bytes, or not before the end, is refused |
| `Varint.EncodingLength` | xrtcserver/rtcbase/src/rtc_base/byte_buffer.h:62-72 | one byte for each seven bits begun, at least one and at most ten |
| `IpPrefix.TruncateIP` | xrtcserver/rtcbase/src/rtc_base/ip_address.cc:364-404 | exactly the first bits of the address survive, for both families and every length |
| `IpPrefix.TruncateWord` | xrtcserver/rtcbase/src/rtc_base/ip_address.cc:387-400 | word by word for IPv6, a 32-bit shift included |
| `IpPrefix.TruncateTwice` | xrtcserver/rtcbase/src/rtc_base/ip_address.cc:364-404 | truncating twice is truncating to the shorter length |
| `IpPrefix.CountIPMaskBits` | xrtcserver/rtcbase/src/rtc_base/ip_address.cc:406-459 | the count, and that it is the documented one if and only if the deciding word is contiguous |
| `IpPrefix.Miscounted` | xrtcserver/rtcbase/src/rtc_base/ip_address.cc:406-459 | 0.0.0.1 counts as 32 although it has no leading one |
| `IpPrefix.CountTrailingZeros` | xrtcserver/rtcbase/src/rtc_base/ip_address.cc:438-458 | the bit-twiddling computes the number of trailing zeros of every word |
| `IpPrefix.CountPrefixMask` | xrtcserver/rtcbase/src/rtc_base/ip_address.cc:406-459 | the mask of a prefix length counts as that length, up to the width |
| `IpPrefix.AllOnes` | xrtcserver/rtcbase/src/rtc_base/ip_address.cc:406-436 | the all-ones addresses of both families have every bit set, as that count requires |
| `IpPrefix.Isolated` | xrtcserver/rtcbase/src/rtc_base/ip_address.cc:444-444 | the lowest set bit is isolated |
| `IpPrefix.MasksTell` | xrtcserver/rtcbase/src/rtc_base/ip_address.cc:445-456 | the five masks read the position of an isolated bit |
| `PacketQueue.Run` | xrtcserver/rtcbase/src/rtc_base/buffer_queue.cc:36-83 | every run answers as a bounded queue of packets and creates no more buffers than its capacity |
| `PacketQueue.FirstInFirstOut` | xrtcserver/rtcbase/src/rtc_base/buffer_queue.cc:36-83 | packets leave in the order in which they were accepted; none is lost, added or changed, and there are never more than the capacity |
| `PacketQueue.BufferQueue.WriteBack` | xrtcserver/rtcbase/src/rtc_base/buffer_queue.cc:62-83 | the whole packet or, exactly if full, nothing; no other packet changes |
| `PacketQueue.BufferQueue.ReadFront` | xrtcserver/rtcbase/src/rtc_base/buffer_queue.cc:44-60 | the front packet cut to the room, and its buffer recycled |
| `PacketQueue.BufferQueue.Clear` | xrtcserver/rtcbase/src/rtc_base/buffer_queue.cc:36-42 | all buffers are recycled, none lost |
| `ConfigFiles.SaveAndRead` | signaling/src/goconfig/write.go:25-100 | saving any configuration and reading it back gives the same sections, keys, order and values, but for the hidden key, if and only if the stated condition on its text holds |
| `ConfigSurvival.RoundTripExact` | signaling/src/goconfig/write.go:25-100 | every configuration with distinct sections and keys comes back from its own file without error, but for the hidden keys, if and only if its names and visible pairs are kept on their lines, numbered keys are numbered in order, DEFAULT comes first and shows something, and its first line does not begin with a byte order mark |
| `ConfigSurvival.SingleRoundTrip` | signaling/src/goconfig/write.go:49-90 | one key and one value in DEFAULT come back from their file if and only if neither has a line break, the value is kept, and the key is `#1`, or is kept, is not `-`, does not make a header of the line and is quoted if it begins with a byte order mark |
| `ConfigSurvival.LoadOneLine` | signaling/src/goconfig/read.go:46-66 | no name, key or value that is read from any text has a line break |
| `ConfigSurvival.MustGrow` | signaling/src/goconfig/read.go:44-175 | if in the end there are as many pairs as lines, no line failed, repeated a key or was skipped |
| `ConfigSurvival.NotHeader` | signaling/src/goconfig/read.go:75-87 | on the way to a configuration that comes back no entry is taken for a section header |
| `ConfigSurvival.LineMakes` | signaling/src/goconfig/read.go:88-167 | on that way every line makes the next pair of the section being read, numbers included |
| `ConfigSurvival.HeaderMust` | signaling/src/goconfig/read.go:75-87 | a header makes its section only if no space surrounds the name and the section is new |
| `ConfigSurvival.DefaultFirst` | signaling/src/goconfig/write.go:38-43 | the lines of DEFAULT, which has no header, are never read back after another section |
| `ConfigSurvival.MarkLost` | signaling/src/goconfig/read.go:34-40 | an unquoted key that begins with a byte order mark is not read back from the first line |
| `ConfigSurvival.BreakSplits` | signaling/src/goconfig/read.go:46-66 | of a value with a line break the first part is kept and the rest is read as a line of its own |
| `ConfigSurvival.BreakRefused` | signaling/src/goconfig/read.go:46-66 | the value a, line break, b ends in a parse error, although its line alone is kept |
| `ConfigSurvival.DashNumbered` | signaling/src/goconfig/read.go:130-134 | the key `-` comes back as `#1`, and the key `#1` as itself |
| `ConfigFiles.ConfigFile.Save` | signaling/src/goconfig/write.go:25-90 | the loops write the printed form of the ordered configuration |
| `ConfigFiles.ConfigFile.Read` | signaling/src/goconfig/read.go:31-175 | the line loop reads any text as specified, errors and the byte order mark included |
| `ConfigFiles.ConfigFile.ReadOne` | signaling/src/goconfig/read.go:63-167 | one line, whatever kind it is |
| `ConfigByHand.HandFileRead` | signaling/src/goconfig/read.go:31-175 | a file written by hand is read line by line as it was meant: comments, blank lines, headers and entries with either sign, any space around every part, and keys and values in any quotes; a byte order mark makes no difference |
| `ConfigByHand.HandLineRead` | signaling/src/goconfig/read.go:63-167 | what each kind of line does to the configuration, the current section and the counter |
| `ConfigByHand.EntryHandRead` | signaling/src/goconfig/read.go:90-162 | a key and a value, bare or quoted, with `=` or `:` between them, are read as that entry |
| `ConfigByHand.HeaderHandRead` | signaling/src/goconfig/read.go:75-87 | a header is read without the space around and inside it |
| `ConfigByHand.CommentSkipped` | signaling/src/goconfig/read.go:63-74 | a comment or a blank line may stand anywhere: the reading is the same without it |
| `ConfigByHand.CommentsIgnored` | signaling/src/goconfig/read.go:63-74 | the same of whole files |
| `ConfigByHand.NoSignRefused` | signaling/src/goconfig/read.go:121-126 | a line without a sign, or with nothing in front of it, is refused |
| `ConfigByHand.UnclosedKeyRefused` | signaling/src/goconfig/read.go:108-113 | so is a key whose quote is not closed |
| `ConfigByHand.UnclosedValueRefused` | signaling/src/goconfig/read.go:149-153 | and a value whose quote is not |
| `ConfigByHand.RefusedStops` | signaling/src/goconfig/read.go:88-175 | a refused line ends the reading, with the error that says why and all that was read before it |
| `ConfigByHand.DecimalIs` | signaling/src/goconfig/read.go:130-134 | the numbers given to unnamed keys are decimal numbers |
| `ConfigFiles.ConfigFile.SetValue` | signaling/src/goconfig/conf.go:87-117 | maps and lists together act as one ordered list of pairs, with no name listed twice |
| `ConfigFiles.ConfigFile.DeleteKey` | signaling/src/goconfig/conf.go:122-156 | the pair goes from map and list together, or nothing changes if it is not there |
| `ConfigFiles.ConfigFile.DeleteSection` | signaling/src/goconfig/conf.go:390-421 | the section goes from maps and list together, or nothing changes if it is not there |
| `ConfigReading.PutThenWithoutKey` | signaling/src/goconfig/conf.go:87-156 | deleting a key undoes setting it, if the section was there and the key was not |
| `ConfigByHand.PutLookup` | signaling/src/goconfig/conf.go:87-117 | setting a value changes that value and no other, and adds at the end what is new |
| `ConfigByHand.WithoutKeyLookup` | signaling/src/goconfig/conf.go:122-156 | deleting a key takes that key and no other |
| `ConfigByHand.WithoutSectionLookup` | signaling/src/goconfig/conf.go:390-421 | deleting a section takes all its keys and no other |
| `ConfigByHand.PlainPrinted` | signaling/src/goconfig/write.go:26-90 | the text of an entry that needs no quotes, in both formats |
| `ConfigReading.ConfigRoundTrip` | signaling/src/goconfig/write.go:25-100 | reading what was printed gives back every kept configuration, on texts, numbered keys and byte order marks included |
| `ConfigReading.NamedSectionRead` | signaling/src/goconfig/read.go:75-87 | a section's lines are read back as that section with the hidden key, and its numbered keys are numbered again in order |
| `ConfigReading.DefaultSectionRead` | signaling/src/goconfig/read.go:44-97 | the DEFAULT section has no header and is created by its first key |
| `ConfigReading.PairsRead` | signaling/src/goconfig/read.go:90-167 | keys are read back in order, and those written as `-` with the next number |
| `ConfigReading.LinesOfUnlines` | signaling/src/goconfig/read.go:46-66 | written lines are read as lines |
| `ConfigFormat.ValueRoundTrip` | signaling/src/goconfig/write.go:73-81 | the text that is written for a value parses as that value if and only if it has a backtick and a double quote, or no backtick, no outer space and not both a leading triple quote and six bytes; on one line, as the parser gets it |
| `ConfigFormat.BacktickValueChanges` | signaling/src/goconfig/write.go:75-81 | a value with a backtick and no double quote comes back with quotes around it |
| `ConfigFormat.ShortTripleRefused` | signaling/src/goconfig/read.go:136-150 | a triple quote and one character of three bytes or more is refused, since the length is counted in bytes |
| `ConfigFormat.EntryRoundTrip` | signaling/src/goconfig/read.go:90-162 | the line that is written for a key and a value parses as that entry, before numbering, if and only if the stated conditions on the pair hold, keys with '=' and ':' included; on one line, as the parser gets it |
| `ConfigFormat.QuotedRead` | signaling/src/goconfig/write.go:61-72 | a quoted key ends where its quote does |
| `ConfigFormat.HeaderRoundTrip` | signaling/src/goconfig/read.go:75-77 | a section header is read back |
| `VerboseLog.Run` | signaling/src/glog/glog.go:480-1039 | over every run of flag changes and questions each answer is the one a scan of the current filters gives |
| `VerboseLog.Logging.V` | signaling/src/glog/glog.go:1012-1039 | the cached answer is the uncached one |
| `VerboseLog.Logging.SetV` | signaling/src/glog/glog.go:974-992 | remembers the level of the first matching filter, or 0 |
| `VerboseLog.Logging.SetVState` | signaling/src/glog/glog.go:480-496 | new settings, with the cache wiped exactly when the filters may have changed |
| `VerboseLog.Logging.SetModules` | signaling/src/glog/glog.go:287-316 | all of the flag or, if a piece is bad or negative, nothing |
| `VerboseLog.Logging.SetLevel` | signaling/src/glog/glog.go:230-239 | the filters and the cache survive a change of -v |
| `VerboseLog.ModuleName` | signaling/src/glog/glog.go:974-983 | the name has no directory left |
| `VerboseLog.ModuleNameIs` | signaling/src/glog/glog.go:974-985 | of a file name exactly the directory and the suffix go |
| `VerboseLog.ParseExact` | signaling/src/glog/glog.go:287-316 | the flag is taken if and only if every piece is well formed, and then gives exactly the filters with a level above zero, in their order |
| `VerboseLog.Logging.FirstLevelIs` | signaling/src/glog/glog.go:986-994 | the first filter that matches decides, and without one the level is 0 |
| `StatsGraph.FilterStats` | signaling/static/js/adapter.js:2453-2473 | exactly the stats reachable from the track's streams, or an exception exactly if one of them is malformed; terminates on cycles |
| `StatsGraph.WalkStats` | signaling/static/js/adapter.js:2436-2450 | adds only what is reachable from the base, with all that it refers to, whatever has been visited before |
| `StatsGraph.Follow` | signaling/static/js/adapter.js:2442-2447 | following one reference keeps the walk of its owner on course |
| `StatsGraph.WalkStreams` | signaling/static/js/adapter.js:2465-2471 | all streams of one track stat are walked into the shared result |
| `StatsGraph.TracksWalked` | signaling/static/js/adapter.js:2465-2472 | once all roots are walked the result is closed, sound and complete |
| `StatsGraph.TrackIsLed` | signaling/static/js/adapter.js:2441-2468 | the track stat of a stream is itself reachable, through the property that makes it a stream of the track |
| `StatsGraph.TrackStats` | signaling/static/js/adapter.js:2459-2464 | exactly the stats of the track |
| `StatsGraph.RefsByName` | signaling/static/js/adapter.js:2436-2450 | a property whose name ends in Id refers to one stat, one whose name ends in Ids to each of its list, and the walk throws on one that is not a list |

## Left out

- TLS, X.509 and digest computation, the operating system and DNS: their results are inputs; epoll_ctl is taken to succeed.
- Windows, Mac and Android branches, and the select and poll loops: only Linux with epoll is modelled.
- Memory ordering: locked and atomic sections are single steps. glog's unlocked reads of the verbosity during a change of flags are not modelled.
- Fixed-width sizes: lengths and counters are unbounded except where 32- and 64-bit arithmetic is the point (checksum, varints, addresses); registration keys never wrap around.
- Buffers.Buffer: the block is kept by value; pointers into it that outlive a call are not modelled.
- CopyOnWrite.CopyOnWriteBuffer.AppendFrom: appending a handle to itself is excluded, because it reads storage that may be reallocated.
- Dispatchers.SocketServer.DeleteSocket: a delete inside the socket's own handler is not carried out, because the source would go on using the destroyed object.
- Dispatchers: the Signaler, the connection state that Connect checks, and the resolver inside a socket are not modelled; connecting is allowed at any time. Within one event, signals that follow a handler's reopening of the socket reach the new opening, as in the code.
- DtlsStream: key export, cipher suites, alerts and certificate formats.
- PendingWrites: the handshake is reduced to its outcome; bytes sent before StartSSL are not counted.
- ResolverLifetime: Destroy is called on the owning sequence, callbacks do not run a nested message loop, and the queue outlives the tasks posted to it.
- Varint.ByteBufferReader.ReadUVarint: the null-pointer check of the output parameter is left out.
- IpPrefix: byte order conversion is left out; addresses are words in host order.
- goconfig: comments are skipped and not kept, so that they are not written either; variable expansion in GetValue and the typed getters are left out. Text is code points, with lengths in bytes where the source counts bytes; invalid UTF-8 is not modelled, and the line break is the one of Unix.
- VerboseLog: the text of the -vmodule flag comes split into pieces; glob matching is an input.
- StatsGraph: a report's entries are keyed by their own ids, as the interface of stats reports promises; the order of the result is not modelled.
- HTTP actions, routing, logging to files, xrpc framing, push.js and the other browser shims: input and output, or only easy members.
