# multivpn in Dafny

multivpn carries Ethernet frames between two hosts, over a TCP connection or as base64 text in
SIP OPTIONS requests. This project models the parts of it that have content of their own and
proves what they do, for all inputs, all runs and all schedules. `dafny verify dfyconfig.toml`
checks everything.

## What is modelled

**base64.c.** `Bits` treats bytes and sextets as bit strings; `Base64Spec` states section 4 of
RFC 4648 on them, with no shifts, and proves its laws. `Base64` is the code: 32-bit groups, the
24-bit shifts and masks, the padding loop that rewrites the tail, the decoder's guarded writes, and
the decoding table that the first decode builds in an array whose other 192 cells stay unset.
Lengths are those for which the source's `int` counters do not overflow (2^31 - 1), decoder input
is not empty, and characters outside the alphabet and `=` are excluded, because the table has no
cell for them. A length that is no multiple of four is included: the source returns NULL.

**sip_plugin.c.** `SipPlugin` is one process: `LoopTunEvents`, `SendData` and `OnRxRequest` work on
arrays as the source does, including the zeroed 2048-byte buffer, `strncpy` and `strlen`
(`CStrings`). `SipTunnel` is one direction over whole runs; every request ever sent may arrive
never, once or often, in any order. `SipOrder` asks what the order is worth, and `SipLoops` is the
code of both processes, proved to be this model over any run. `SipHosts` and `SipHalts` put main.c's
loop and pipes of limited size around the plugin's two threads, from device to device. The length
that `sip_envia_datos` computes is taken to be the length of the encoding.

**main.c and tcp_plugin.c.** `Tunnel` is a transition system of two hosts with two threads each.
The steps are the system calls: `select` (which fixes the branch of the `if / else if`), `read` and
`write`, with the real read sizes, so that any two threads may interleave between any two calls. What
a socket has accepted becomes readable at the peer when the network carries it, which is a step too.
The client's and the server's plugin loops are the same code on different sockets and share one
definition. Results of calls are parameters of the steps; pipes and both ends of a socket stream hold
a given number of bytes (`Limits`) and a write that does not fit blocks. `TunnelCalls` says what one
pass of each loop moves, in numbers. `Cells` is the algebra of a pipeline that everything else rests
on; `TunnelRuns`, `TunnelDrain` and `TunnelDeadlock` hold the main results; `TunnelLoops` is the code
with its two buffers per host, proved to be the transition system.

**parser.c, globals.c, plugin.c and the parameter checks.** `Config` gives the meaning of a line,
`ConfigLines` says it again in terms of the text one writes, `ConfigFile` gives the meaning of `fgets`,
`ConfigLaws` and `Startup` that of a whole file, and `GlobalVars` is the struct with its 256-byte
buffers and the functions that write and test it. Lines on which the source would pass a null pointer
on (a keyword without a value, a line of blanks) or overflow `atoi` are outside the model (`Defined`),
unless they stand after the first failing line, where nobody reads them.

## What the proofs found

Where these differ from what one would expect, the model follows the code.

- The SIP receiver cannot tell a retransmitted request from a new one: it writes the chunk again
  (`RetransmissionAddsBytes`). Requests that arrive once each and in order give a faithful stream
  (`OrderlyRun`). They need not: bytes have no boundaries, and different chunks can change places
  unnoticed (`LuckyOrder`). Every departure from the order shows in the stream exactly if no chunk is
  the front of another one (`OrderMattersExactly`).
- Reads of the TAP device ask for 1504 bytes. Longer frames, which a TAP device without packet
  information (tuntap.c:66) produces at the usual MTU of 1500, lose their end. Frames come through
  exactly if none is longer (`FramesSurvive`).
- The TCP tunnel does not always drain. The two threads of a host can block each other for ever, each
  in a write to a full pipe that only the other empties, without any call failing; and nothing frees them
  as long as that host's own writes are not cut short (`TunnelCanHang`, `DeadlockForEver`). The frames
  that wait at the two devices decide it: every schedule that halts without losing anything has
  delivered all of them if and only if in one of the two directions they are no more bytes than a pipe
  holds (`DrainsExactly`, `DeadlockExactly`). A transfer in one direction only therefore always drains,
  whatever its length (`TunnelDrains`).
- The SIP tunnel does drain. Its plugin has a thread for each direction, and a host halts exactly when
  both its pipes are empty (`SipHaltIsEmpty`); what it has delivered then are the chunks that arrived,
  in the order in which they did (`SipHaltDelivers`).
- The two TCP plugins cannot block each other in their sends, because each asks its socket before its
  pipe: of two plugins on their way to send, one has no more coming for it than a socket holds
  (`SocketInvariant`). This needs a stream that holds at either end what one read of the pipe returns,
  and fails with any smaller one (`NoWireDeadlock`, `WireDeadlockExactly`).
- The order of the tests in both loops starves the other direction under load
  (`FloodStarvesDelivery`, `TrafficStarvesSending`).
- A TCP client starts with any parameters, because the missing ones are only logged; the SIP tests
  of `sip_transport` and `sip_remoteuri` test addresses and never fail; a file that stops at an error
  may still start the program, and one that cannot be opened gets as far as this check; and
  `local_port -1` counts as no port at all. `Accepted` says exactly which files start the program
  (`StartupExactly`).
- A line of the file that does not fit the buffer of `fgets` is seen as two lines or more
  (`PiecesAreLines`).

## Model

| member | source | states |
|---|---|---|
| Base64Spec.Alphabet | base64.c:5-12 | the 64 symbols are distinct 7-bit characters other than `=` and NUL |
| Base64.TableIsAlphabet | base64.c:5-12 | the table in the source is Table 1 of RFC 4648 |
| Base64Spec.SourceLengths | base64.c:14-21 | the numbers of groups and of `=` used by the specification are the source's `4 * ((n + 2) / 3)` and `mod_table` |
| Base64.EncodeGroupRegroups | base64.c:32-37 | shifting and masking a 24-bit group is regrouping its bits, eight by eight, into six by six |
| Base64.DecodeGroupRegroups | base64.c:69-76 | the decoder's shifts and masks regroup the same bits back |
| Base64.PutGroup | base64.c:32-37 | four cells receive the symbols of one group and the cells before them are kept |
| Base64.PutNextOctets | base64.c:28-37 | one pass of the main loop: up to three octets read, absent ones as zero, one more group written |
| Base64.PutGroups | base64.c:26-38 | after the first loop every cell is filled, the last ones from absent octets |
| Base64.PutPadding | base64.c:40-41 | the second loop turns the last cells into `=` and keeps all others |
| Base64Spec.OverwrittenCells | base64.c:40-41 | a cell is overwritten exactly if all its six bits come from absent octets |
| Base64Spec.EncodeByOverwriting | base64.c:26-41 | filling with zero octets and overwriting the tail gives the encoding of RFC 4648 |
| Base64Spec.EncodeShape | base64.c:21-43 | an encoding has length 4*ceil(n/3) and holds `=` in its last 0, 1 or 2 cells and nowhere else |
| Base64.Encode | base64.c:17-44 | the two loops over the array produce the encoding of RFC 4648 of the first inputLength octets |
| Base64.Decoder.constructor | base64.c:13 | at first there is no decoding table |
| Base64.Decoder.BuildDecodingTable | base64.c:83-89 | the new table inverts the alphabet on all 64 symbols |
| Base64.Decoder.SextetAt | base64.c:64-67 | a lookup gives the value of a symbol, and zero for `=` |
| Base64.Decoder.OutputLength | base64.c:55-57 | three octets per group less one for each `=` among the last two characters |
| Base64.Decoder.PutOctets | base64.c:74-76 | the guarded writes store as many of the three octets as there is room for |
| Base64.Decoder.PutNextGroup | base64.c:64-76 | one pass of the loop appends the next group's octets, cut at the end of the output |
| Base64.Decoder.PutAllOctets | base64.c:62-77 | the loop leaves no cell unwritten |
| Base64.Decoder.Decode | base64.c:47-80 | NULL for a length that is no multiple of four, else the first output_length bytes of the regrouped sextets; the table is built if absent and stays valid |
| Base64.ServeAll | base64.c:13-89 | from the absent table, over any sequence of encodes and decodes, each answer depends on its own argument alone, and the table is there exactly from the first decode on |
| Base64.EncodeThenDecode | base64.c:17-80 | decoding an encoded block returns the same octets and the same number of them, on the imperative code |
| Base64Spec.DecodeEncode | base64.c:17-80 | decode(encode(d)) = d for all nonempty d |
| Base64Spec.EncodeInjective | base64.c:17-44 | different byte strings have different encodings |
| Base64Spec.EncodeDecode | base64.c:17-80 | over all decoder input, encode(decode(s)) = s exactly if the padding is at the end only and the discarded low bits are zero (section 3.5 of RFC 4648) |
| Base64Spec.DecodeNormalises | base64.c:17-80 | re-encoding a decoded string makes it canonical without changing what it decodes to |
| Base64Spec.EncodeAppend | base64.c:17-44 | encode(a + b) = encode(a) + encode(b) exactly if the length of a is a multiple of three or b is empty |
| Base64Spec.DecodeAppend | base64.c:47-80 | decode(s + t) = decode(s) + decode(t) exactly if neither of the last two characters of s is `=` |
| CStrings.Memset | sip_plugin.c:414 | the buffer holds only NULs |
| CStrings.Strncpy | parser.c:71 | at most n characters of the C string, NULs up to n, the rest of the buffer as before |
| CStrings.Strlen | sip_plugin.c:422 | the length of the C string at the front of a buffer that holds a NUL |
| CStrings.HasPrefix | tcp_plugin.c:422 | strncmp with the length of the literal is a prefix test |
| CStrings.StrncpiedReads | parser.c:71 | a buffer that is NUL from n on reads back as the first n characters copied, whatever it held |
| SipPlugin.PayloadIsHeader | sip_plugin.c:413-417 | below 2048 characters the header survives the buffer exactly if it holds no NUL |
| SipPlugin.EncodingHasNoNul | base64.c:5-43 | no encoding contains NUL |
| SipPlugin.ChunkFits | sip_plugin.c:413-415 | an encoded chunk leaves room for the terminator exactly up to 1533 bytes; a full read encodes to 2008 characters |
| SipPlugin.PathIsExact | sip_plugin.c:413-430 | for every chunk the plugin can read, the receiver opens its request to that chunk |
| SipPlugin.Endpoint.SendData | sip_plugin.c:447-497 | one OPTIONS request with the encoding of the buffer's front in the header |
| SipPlugin.Endpoint.LoopTunEvents | sip_plugin.c:522-545 | one turn takes at most 1504 bytes from the pipe and sends exactly these; a failed read sends nothing |
| SipPlugin.Endpoint.OnRxRequest | sip_plugin.c:385-444 | 500 and no write without OPTIONS or header; otherwise the decoded bytes, as far as the write accepts them, and 666 whatever became of the write |
| SipPlugin.RelayChunk | sip_plugin.c:385-545 | through both processes' code, what the sender takes from its pipe is appended to the receiver's |
| SipTunnel.SenderKeeps | sip_plugin.c:531-543 | in every run each sent request encloses one chunk, and chunks and pipe add up to the input |
| SipTunnel.ReceiverKeeps | sip_plugin.c:385-440 | whatever the network does, each written chunk is the front of a chunk read, all of it if the writes were complete, and there are as many 666 replies as chunks |
| SipTunnel.OrderlyRun | sip_plugin.c:385-545 | with in-order delivery without loss or duplicates the receiver's pipe is a prefix of the sender's input, and all of it once nothing is left behind |
| SipOrder.OrderMatters | sip_plugin.c:385-545 | with complete writes, the bytes written are a prefix of the bytes sent exactly if the requests arrived once each and in order, when no chunk is the front of another one |
| SipOrder.EqualLengths | sip_plugin.c:534 | for chunks of equal length, as full reads are, that condition says that they differ |
| SipOrder.OrderMattersExactly | sip_plugin.c:385-545 | for any chunks: every list of arrivals gives a prefix exactly if it is in order, if and only if no chunk is the front of another one |
| SipOrder.LuckyOrder | sip_plugin.c:420-437 | a run with two different chunks that arrive in the wrong order and still give exactly the bytes that entered |
| SipTunnel.EveryArrivalAppends | sip_plugin.c:420-437 | each arrival of a request, the first or a later one, appends its chunk |
| SipTunnel.RetransmissionAddsBytes | sip_plugin.c:420-437 | one more arrival after everything has arrived leaves more bytes written than were ever sent |
| SipLoops.RunTunnel | sip_plugin.c:385-545 | over any run of fillings, turns, arrivals and stray requests, both processes' code has the pipes, requests and replies of the step model |
| SipLoops.Session | sip_plugin.c:385-545 | two fresh processes: one 666 per arrival, and with complete writes and an orderly network the receiver's pipe is a prefix of what entered the sender's |
| SipHosts.SenderTurn | sip_plugin.c:519-545 | read and send of the host model, taken together, are a turn of the sender in the model of one direction |
| SipHosts.ReceiverTurn | sip_plugin.c:385-444 | an arrival and the write that follows are an arrival there |
| SipHosts.DoFlows | main.c:186-240 | every step of the main loop and of the two plugin threads is a step of the two rows of the host, device to requests and requests to device, and loses nothing if its write is complete |
| SipHalts.SipAccounted | main.c:186-240 | for every schedule, every network and all results of calls, each row of a host is a subsequence of what entered it, and all of it with complete writes |
| SipHalts.SipHears | sip_plugin.c:385-444 | what a host has received are chunks that the other one has sent, in the order of their arrival |
| SipHalts.NodeStuckExactly | sip_plugin.c:498-545 | a predicate says exactly when no full call of the three threads does anything |
| SipHalts.SipHaltIsEmpty | sip_plugin.c:324-332 | a SIP host halts exactly when both its pipes are empty and no thread holds anything: it never deadlocks |
| SipHalts.SipProgress | sip_plugin.c:498-545 | every productive step of a host brings its bytes closer to where they go |
| SipHalts.SipRunsAreShort | main.c:186-240 | until the next frame or request arrives, the number of productive steps of both hosts is bounded |
| SipHalts.SipHaltDelivers | sip_plugin.c:385-545 | at a halt without lost bytes, a host has sent all its frames as reads cut them and the other has delivered exactly the chunks that arrived; all the frames if the network was orderly |
| Io.Read | main.c:204 | a read that succeeds returns as many bytes as its outcome says, at most what waits and what was asked for; these overwrite the buffer's front and are taken away, and a failed read takes nothing |
| Io.Write | main.c:210 | of the first n bytes of the buffer, exactly as many as the outcome says are appended and returned, none if it fails and never stale ones |
| Tunnel.StepWellFormed | main.c:201-236 | a thread that stands at a read always has something to read, and holds one chunk at most |
| TunnelFlow.MainReadFlows | main.c:204-208 | a read in the main loop is an entry at the device or a shift from the pipe, and nothing else changes in either direction |
| TunnelFlow.MainWriteFlows | main.c:210-213 | a write in the main loop is a shift that loses what is left over |
| TunnelFlow.PluginReadFlows | tcp_plugin.c:259-262 | a read in the plugin loop is a shift from the socket or the pipe |
| TunnelFlow.PluginWriteFlows | tcp_plugin.c:266-269 | a write in the plugin loop is a shift that loses what is left over |
| TunnelFlow.ActFlows | tcp_plugin.c:249-291 | every call of every thread is one such step in each direction of the tunnel |
| TunnelCalls.NothingWaits | main.c:196-198 | a pass with nothing to select changes nothing |
| TunnelCalls.DevicePass | main.c:201-215 | one pass with a frame at the device, for all results: one frame is taken, 1504 bytes of it are kept at most, and of these the pipe gets as many as the write accepts; a failed read leaves the frame |
| TunnelCalls.DeliveryPass | main.c:217-234 | one pass with only the pipe ready: at most 1505 bytes leave it, and the device gets as many of them as the write accepts |
| TunnelCalls.SocketPass | tcp_plugin.c:255-273 | one pass of the plugin with the socket ready: at most 1504 bytes, into pipe_from_plugin |
| TunnelCalls.SendPass | tcp_plugin.c:274-289 | one pass of the plugin with only its pipe ready: at most 1504 bytes, into the socket |
| TunnelCalls.MainForgets | main.c:210-213 | after a failed write the main loop is back at select, all queues are as before and the whole chunk is lost |
| TunnelCalls.PluginForgets | tcp_plugin.c:266-287 | so is the plugin after a failed write to its pipe or a failed send |
| TunnelCalls.ShortWriteLoses | main.c:210-230 | a write that accepts k bytes of a chunk loses exactly the others |
| TunnelCalls.WaitsForRoomOnly | tcp_plugin.c:266-287 | a thread stays at its write exactly if there is no room for what is to be written |
| Cells.FlowKeeps | tcp_plugin.c:255-289 | such a step keeps the data in transit a subsequence of what entered, shorter by what was lost |
| TunnelRuns.EveryByteAccounted | main.c:186-240 | for every schedule and all results of calls: in transit and delivered is a subsequence of taken, shorter by exactly the bytes dropped by short writes |
| TunnelRuns.DeliveredIsSubsequence | main.c:221-230 | nothing is invented, duplicated or reordered on the way to the far device |
| TunnelRuns.Conservation | main.c:186-240 | the stream is conserved exactly if no write dropped anything, and always with complete writes |
| TunnelRuns.ConservationByPlace | tcp_plugin.c:312-357 | with complete writes, taken is delivered + far pipe + socket stream + near pipe in this order, the stream being what has been received and what is still to be carried, with the chunks held by the four threads in their places |
| TunnelRuns.CutIsWhole | main.c:204 | full reads keep all frames whole exactly if none is longer than 1504 bytes |
| TunnelRuns.TakenFromFrames | main.c:201-208 | what was read from a device and what still waits there is what arrived, each frame cut to 1504 bytes |
| TunnelProgress.Progress | tcp_plugin.c:255-289 | every productive call strictly decreases twice the bytes weighted by hops left, plus the threads at select |
| TunnelProgress.StuckExactly | main.c:196-236 | a predicate on a host's state says exactly when no call of its threads and no step of the network on its behalf does anything |
| TunnelProgress.SocketInvariant | tcp_plugin.c:255-289 | in every run and with any delay of the network, of two plugins on their way to send one has no more coming for it than a socket holds, because the socket is asked before the pipe |
| TunnelProgress.NoWireDeadlock | tcp_plugin.c:322-356 | so the two sends never wait for each other with the network at a standstill, if both ends of an empty stream hold what one read of the pipe returns |
| TunnelProgress.HaltExplained | tcp_plugin.c:312-357 | a run after which nothing moves has drained both directions exactly if neither host is deadlocked between its pipes |
| TunnelProgress.HostDeadlockStays | tcp_plugin.c:266 | a host whose main loop and plugin block each other stays so, whatever the other host and the network do and however its own reads end, as long as its own writes are complete |
| TunnelDrain.HaltDelivers | main.c:186-240 | a halted tunnel has delivered everything that arrived exactly if it is not deadlocked |
| TunnelDrain.FramesSurvive | main.c:204 | a halted tunnel without deadlock has delivered the frames themselves exactly if none is longer than 1504 bytes |
| TunnelDrain.DeadlockForEver | tcp_plugin.c:266 | over any further run in which the host's own writes are complete, the deadlock stays and the host takes and delivers nothing more |
| TunnelDrain.ProductiveRunsAreShort | tcp_plugin.c:249-291 | without arrivals, the number of productive calls is bounded by the measure |
| TunnelDrain.TunnelDrains | main.c:186-240 | once frames stop and what is pending in one of the two directions fits a pipe, any schedule of productive calls is bounded, and any schedule without lost bytes can only halt with everything delivered, short and failed reads of pipes and sockets included |
| TunnelDrain.FloodStarvesDelivery | main.c:201-218 | while frames wait at each select, the main loop delivers nothing and the inbound pipe only grows |
| TunnelDrain.TrafficStarvesSending | tcp_plugin.c:255-273 | while the socket has data at each select, the plugin sends nothing and the outbound pipe only grows |
| TunnelDeadlock.DeadlockTakesMany | tcp_plugin.c:266 | whatever calls return, without arrivals a deadlock takes more waiting bytes at both devices than a pipe holds |
| TunnelDeadlock.DeadlockExactly | main.c:201-236 | some schedule of full calls of the waiting frames deadlocks a host exactly if at both devices they are more bytes than a pipe holds |
| TunnelDeadlock.DrainsExactly | main.c:186-240 | if at one of the two devices the waiting frames are no more bytes than a pipe holds, every schedule that halts without losing bytes has delivered all of them; if not, some schedule of full calls halts without having done so |
| TunnelDeadlock.CanHalt | tcp_plugin.c:249-291 | from every state full calls and the network lead to a halt |
| TunnelDeadlock.WireDeadlockExactly | tcp_plugin.c:284 | some run blocks both sends on each other with the network at a standstill exactly if one read of the pipe can return more than an empty stream holds at its sending or its receiving end |
| TunnelDeadlock.DeadlockReachable | tcp_plugin.c:249-291 | for pipes and streams of any size and frames of any one size that fit, some schedule with no failing call deadlocks a host |
| TunnelDeadlock.TunnelCanHang | main.c:201-236 | after some schedule without failures, no further schedule in which the host's own writes are complete delivers another byte to its device |
| TunnelLoops.Machine.MainSelects | main.c:190-218 | the device is asked before the pipe |
| TunnelLoops.Machine.MainReads | main.c:204-221 | the main loop's reads on its buffer are the step of the transition system |
| TunnelLoops.Machine.MainWrites | main.c:210-227 | the main loop's writes send the bytes just read and no stale ones, or block |
| TunnelLoops.Machine.PluginSelects | tcp_plugin.c:251-273 | the socket is asked before the pipe |
| TunnelLoops.Machine.PluginReads | tcp_plugin.c:259-277 | the plugin's reads on its buffer are the step of the transition system |
| TunnelLoops.Machine.PluginWrites | tcp_plugin.c:266-284 | the plugin's writes send the bytes just read and no stale ones, or block |
| TunnelLoops.Machine.MainLoopBody | main.c:187-240 | one pass of the loop is select, read and write in sequence; with nothing at the device, all of the pipe up to 1505 bytes goes to the device in a single write |
| TunnelLoops.Machine.PluginLoopBody | tcp_plugin.c:249-291 | so is a pass of the plugin; of a socket that holds more, 1504 bytes go to the pipe |
| TunnelLoops.RunLoops | tcp_plugin.c:312-357 | the four loops under any schedule and any network do what the transition system does |
| TunnelLoops.Session | main.c:186-240 | two fresh processes under any schedule end where the transition system does; they deliver subsequences in both directions and, with complete writes, account for every byte |
| Config.OneKeyword | parser.c:69-193 | no command meets two of the prefix tests, the shortened one for local_netmask included |
| Config.DispatchExactly | parser.c:69-193 | a command is dispatched to a keyword exactly if it starts with it, so the order of the tests is irrelevant |
| Config.Tokens | parser.c:67-71 | the first two words of a line, with any blanks around them, are the command and the value |
| Config.AtoiOfDecimal | parser.c:78 | atoi reads decimal numerals with or without a sign |
| Config.AtoiOfNumeral | parser.c:78 | atoi skips white space and stops at the first character that is no digit |
| ConfigLines.DispatchTable | parser.c:69-193 | the thirteen words a command may start with and the field of each |
| ConfigLines.AssignmentDefined | parser.c:67-193 | a line with a keyword and a value is within defined behaviour unless its number does not fit an int |
| ConfigLines.CommentLine | parser.c:56-65 | a line with a number sign anywhere, or an empty one, is no error and changes nothing |
| ConfigLines.UnknownLine | parser.c:196-199 | nor does a line whose command starts with none of the thirteen words |
| ConfigLines.NumberLine | parser.c:76-88 | a keyword of a number and a decimal n below 2^31 store n; zero is the error |
| ConfigLines.NegativeLine | parser.c:90-101 | with a minus sign 2^32 - n is stored |
| ConfigLines.MinusOneUnsets | parser.c:90-101 | so local_port -1 leaves the field as it is initialised |
| ConfigLines.TextLine | parser.c:69-74 | a keyword of a text field and a value: the field reads as the first 50 characters of the value and no other field changes |
| ConfigLines.ModeLine | parser.c:130-151 | server stores 0, client stores 1, any other value leaves the mode |
| ConfigLaws.NoStaleSuffix | parser.c:71 | a copied value leaves nothing of a longer earlier one |
| ConfigLaws.LastValueWins | parser.c:30-44 | after any file, stopped by an error or not, each field holds the last value a kept line gave it or its earlier value, and the error is reported at the line after the kept ones |
| ConfigLaws.TextFields | parser.c:69-193 | every string field is NUL from index 50 on and reads as the first 50 characters of its last value, or as initialised |
| ConfigLaws.OrderIndependent | parser.c:50-198 | files in which each keyword's lines are the same and in the same order parse alike, with the same fields |
| ConfigLines.SkippedLine | parser.c:56-65 | a line with a number sign, an empty line or one whose command starts with no keyword may be inserted anywhere |
| ConfigLaws.SwapLines | parser.c:50-198 | neighbouring lines for different fields may change places |
| ConfigFile.PiecesAreLines | parser.c:31-36 | the loop sees the lines of a text file exactly if each of them fits the buffer |
| ConfigFile.BrokenLine | parser.c:31-36 | of a longer line it sees the first 4095 characters and then the rest as a line of its own |
| GlobalVars.Vars.constructor | globals.c:31 | static storage is zeroed and the buffers are distinct |
| GlobalVars.Vars.ViewByName | globals.h:47-69 | which field of the struct each keyword is about |
| GlobalVars.Vars.GlobalsInit | globals.c:34-47 | the initial fields by their values, terminated although strncpy copies only four characters |
| GlobalVars.Vars.CopyText | parser.c:71 | one buffer changes as strncpy says and no other field does |
| GlobalVars.Vars.ParseMode | parser.c:130-151 | server and client set the mode, anything else leaves it and is no error |
| GlobalVars.Vars.ParseNumber | parser.c:76-88 | a number of zero is reported and changes nothing, any other is stored modulo 2^32 |
| GlobalVars.Vars.ParseOption | parser.c:50-198 | the chain of tests does what the line means, for every defined line; a line with a number sign or an empty one returns 0 and changes nothing |
| GlobalVars.Vars.ParseConfigFile | parser.c:14-49 | the loop is the fold over the pieces that stops at the first failing one, keeps the earlier effects and has counted to it; a file that cannot be opened changes nothing |
| GlobalVars.Vars.TcpCheckParameters | tcp_plugin.c:377-435 | the TCP check of the fields |
| GlobalVars.Vars.PluginCheckConfig | plugin.c:51-91 | the plugin is 0 or 1 by the front of its name, which is tcp or sip, and its check decides |
| Startup.StartupExactly | plugin.c:51-91 | for every file, parsed to the end or not, the check passes exactly if the last values in its kept lines are accepted |
| GlobalVars.StartUp | main.c:99-147 | on the imperative code, from zeroed storage, the program goes on exactly for the accepted files, parsed to the end or not, and never without a file |

## Left out

- PJSIP: set-up, transactions, logging and invite callbacks; a request is its method and its header, an answer
  its code. Requests are handled one after the other, and sending one does not wait for the peer.
- Sockets, select sets, threads, pipe creation and ioctls: a ready descriptor is a nonempty queue, and results
  of calls are parameters. A failing select and a closed connection are not modelled.
- Connecting and accepting: both hosts start connected.
- Frame boundaries on the way: the program forwards bytes and writes to the far device whatever chunk a read returned.
- Atomic writes of small blocks: a blocked write waits for room for all it will write; a short write is a result
  the schedule chooses.
- DrainsExactly: takes pipes and streams to hold 1504 bytes at least; in a smaller pipe a frame can block for ever.
- Infinite loops: the `while (1)` loops are runs of any finite length.
- Malformed requests: header values of 2048 characters or more, and payloads outside the decoder's domain, are
  undefined in C and not received by the model.
- generictunel.c: the connection table is hardly used.
- `base64_cleanup`: never called, and it leaves the static pointer set.
- strtok works on values: the model takes the first two words of a line and does not overwrite separators in the
  line buffer.
- The fields verbose, debug and configfile, the command line, debug output and failing memory allocation.
- GlobalVars.Vars.ParseConfigFile: closing the file, which the error path forgets, is not modelled.
