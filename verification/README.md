# The CAPI 2.0 proxy, verified

An application on the client machine talks to a virtual ISDN card in the Linux kernel. The kernel
module queues its CAPI messages for a daemon; the daemon translates application ids, forwards each
message to a server over TCP, and the server hands it to the real CAPI library there. Messages come
back the same way. This project models the three parties and their two channels, and proves what the
forwarding keeps.

## How the project is laid out

| file | what it holds |
|---|---|
| `Bytes`, `CapiMessage`, `Packets` | little-endian words, CAPI message fields (COMMON-ISDN-API 2.0, Part I, section 3.3), request and answer headers |
| `Framing`, `DataB3`, `Transport` | `recvn` and the frames in a byte stream, DATA_B3 laid out and parsed, messages rewritten on the way out and in |
| `CardModel`, `CardDevice` | one virtual card as a value; the same card, and the table of cards, updated in place |
| `Registry` | the server's registered applications as a flag array and as a linked list |
| `Server` | one connection of the server in place |
| `EndToEnd`, `Inbound` | the outbound path from the daemon to CAPI, and the inbound path from CAPI to the kernel |
| `Protocol` | module, daemon, server and forked waiters as one state machine over atomic steps |
| `Conservation`, `BoundedWait`, `Matching`, `Circulation` | what every run of that machine keeps: session, tokens, waiting, answers |
| `ModuleSide`, `KernelView`, `Orders`, `IdMaps` | what kernel, module and daemon know of each other's applications, and exactly when |
| `Scenarios` | concrete runs in which the parties lose touch |
| `Daemon` | the daemon's loops in place, refining the machine while the other parties interfere |

A *run* is any sequence of enabled steps, so a statement about all runs covers every interleaving of
server, waiters, kernel and daemon. Operations the C code performs by updating memory are methods on
classes or arrays, proved equal to the functions the lemmas speak about.

## What the proofs assume

- The session is established: the daemon holds the server's session id. (With `STD_AUTH_REQUIRED` set,
  `linux-server/src/proxy.c:48` answers HELO with an error and
  `linux-client/daemon/src/c2pclient.c:509-514` never stores the id.)
- CAPI hands out ids from 1 to `CAPI_MAXAPPL` that are not in use and releases only ids that are
  registered; a refused registration leaves some id up to `CAPI_MAXAPPL` in the answer.
- Messages from the kernel carry application ids up to `CAPI_MAXAPPL` (128, as in
  `win32-server/capi20server.h:97`; the kernel's header is not part of this model).
- `long` has 32 bits, so headers have 36 and 40 bytes; packet buffers have 10000.
- The flag registry has `CAPI_MAXAPPL + 1` entries, as `linux-server/src/capifwd.c:41` initialises it;
  `linux-server/src/appindex.c:24` declares one fewer than the loops use.
- In `Protocol`, requests are delivered whole, as in `linux-server/src/old/main-rev1.14-cvs.c:1027`.
  The current receive loop cannot carry the protocol: WAITFORSIGNAL, GETMESSAGE and RELEASE requests
  are all header, and it takes such a request for the end of the connection
  (`HeaderOnlyEndsTheSession`).
- No application forges a SHUTDOWN control message; this is needed for `DownIffReadInTime` only.

## What the code does not keep

Each of these is a property one would expect. For each there is a theorem with the exact condition under
which it holds, and a run or an input that breaks it.

- The id maps are inverse on live applications exactly as long as no accepted registration reuses the
  remote id of another live one (`InverseIffFresh`). Two things make that happen although CAPI behaves:
  RELEASE carries the local id instead of the remote one (`ReleaseBreaksTheMaps`), and a registration
  that CAPI refuses is confirmed all the same, because the server leaves `proxy_error` at 0 and the
  daemon looks at nothing else (`RefusalBreaksTheMaps`). The client's documentation expects
  `IOCTL_ERROR_REGFAIL` there; with this server it never occurs (`RegistrationsAccounted`).
- Module and kernel agree on which applications are in use exactly as long as no REGISTER answer arrives
  for an application that the kernel has released meanwhile (`InStepIffTimely`). Such an answer marks it
  confirmed although nobody holds it (`LateConfirmationBlocks`). It stays in use exactly until the kernel
  releases it once more (`InUseUntilReleased`), and until then registering it has no effect
  (`RegistersIffUnused`).
- The daemon goes down after `remove_ctr` if and only if it reads its device before the next reset of the
  card (`DownIffReadInTime`); a reset in between loses SHUTDOWN until the next removal
  (`ResetLosesNotice`, and `ResetLosesShutdown` for the shortest run).
- What the daemon has been told of an application, with what is still queued, matches what the module
  believes exactly as long as no control message is lost unmatched, to a flush, a full queue or a failed
  allocation, none is forged and no registration ends late (`InTuneIffTuned`). On those runs, flush-free
  or not, REGISTER and RELEASE messages reach the daemon in turn (`DaemonToldInTurn`). A reset between
  the two makes it read a RELEASE of an application it never heard of (`ResetBreaksTheOrder`).
- Every token carries a remote id of its own exactly as long as no id is accepted a second time
  (`TokensDistinctIffUnseen`). Releasing an application retires no token, so they pile up
  (`TokensPileUp`).
- The two registries agree exactly as long as no id is added that they hold already (`AgreeIffProper`);
  after such an add and a delete they hold different sets (`AgreeIffAbsent`). Draining the list stops at
  an id 0 (`NoZeroAllReleased`).
- Masking and adding the controller number stays inside byte 8 exactly if the sum is below 256
  (`ControllerRewrite`); this covers every controller below 128.

In two places the code does something other than its documentation says, and the model follows the code.
The comment at `linux-client/module/capi20proxy.c:721-727` says the module adjusts controller numbers on
the way in; it computes one for its NCCI bookkeeping only, and the message is unchanged
(`VirtualCard.Write`). `linux-client/module/readme.txt` says a read puts back the messages of waiting
applications and drops those of refused ones; the code does not look (`ReadIgnoresStates`).

## Model

| member | source | states |
|---|---|---|
| BoundedWait.WaitIsBounded | linux-client/daemon/src/c2pclient.c:542-560 | While the daemon spins for an answer it services at most as many other packets as registrations were accepted (n), and the parties make at most 6n + 3 moves, in every interleaving |
| BoundedWait.WaitIsAtLeast | linux-client/daemon/src/c2pclient.c:542-560 | When the answer is in hand, at least everything that was already in the channel when the request was sent has been serviced |
| Circulation.BoundIsReached | linux-client/daemon/src/c2pclient.c:542-560 | The bound is sharp: for every n and any message, a run after which n registrations have been accepted, and a continuation in which the daemon services n packets before the answer |
| BoundedWait.NeverStuck | linux-client/daemon/src/c2pclient.c:542-560 | A spinning daemon has a packet to handle or receive, or the server has a request to dispatch, even if no waiter ever wakes |
| BoundedWait.StepProgress | linux-client/daemon/src/c2pclient.c:519-560 | Each step of any party lowers the packets ahead of the answer by the one handled, and the work left by one |
| BoundedWait.SpinProgress | linux-client/daemon/src/c2pclient.c:542-560 | The same over any stretch of a run in which the daemon keeps spinning |
| Conservation.TokenConservation | linux-client/daemon/src/c2pclient.c:252-302 | In every reachable state the WAITFORSIGNAL and GETMESSAGE requests, answers and waiters, by remote id, are exactly the accepted REGISTER answers |
| Conservation.StepKeepsTokens | linux-server/src/capi/waitforsignal.c:33-81 | One step neither creates nor loses a token, except that an accepted registration starts one |
| Conservation.RunKeepsTokens | linux-server/src/capi/getmessage.c:26-86 | The same over every run from any state in which it holds |
| Circulation.LiveHasToken | linux-client/daemon/src/c2pclient.c:404-422 | In every reachable state a live application has at least one token, and exactly one if and only if its remote id was accepted once |
| Circulation.TokensDistinctIffUnseen | linux-client/daemon/src/c2pclient.c:424-427 | After every run no two tokens carry the same remote id if and only if no accepted registration brought an id accepted before |
| Circulation.TokensPileUp | linux-client/daemon/src/c2pclient.c:424-427 | For every n > 0 a run after which n tokens circulate for the only live application |
| Circulation.TokensTakeTurns | linux-client/daemon/src/c2pclient.c:519-540 | Over every run and for each remote id: every WAITFORSIGNAL answer the daemon has handled made it send one GETMESSAGE request, every GETMESSAGE answer handled and every accepted registration made it send one WAITFORSIGNAL request, and nothing else did |
| Conservation.HandOnlyTokensOrTheAnswer | linux-client/daemon/src/c2pclient.c:519-560 | What reaches `handle_serverpacket` is a token's answer, so its wrong-type branch is dead, and the packet `wait_for_answer` stops on answers the caller's own request |
| Conservation.StepKeepsCore | linux-client/daemon/src/c2pclient.c:618-671 | Every step keeps one session, at most one call outstanding (the daemon's own) and every id within the tables it indexes |
| Conservation.RunKeepsCore | linux-client/daemon/src/c2pclient.c:618-671 | The same over every run |
| Matching.AnswerHasRequest | linux-server/src/capi/waitforsignal.c:45-72 | Every answer in every run carries the id and type, and unless it is a REGISTER the application id, of a request that was sent |
| Matching.AnsweredAtMostOnce | linux-client/daemon/src/c2pclient.c:237 | Below the wrap of the counter, request ids strictly increase and no two answers carry the same id |
| Matching.StepKeepsBooks | linux-server/src/capi/putmessage.c:41 | Every step keeps: requests sent = queued + held by waiters + answered, and the k-th request has the k-th id, wrap included |
| Matching.RunKeepsBooks | linux-client/daemon/src/c2pclient.c:363 | The same over every run |
| ModuleSide.RegistrationsAccounted | linux-client/module/capi20proxy.c:251-306 | In every reachable state, per application: REGISTER messages accepted into the queue = queued + flushed + being handled + answered by one APPL_REGISTERED; REGFAIL never happens |
| ModuleSide.RunKeepsAccounts | linux-client/daemon/src/c2pclient.c:640-655 | The accounts balance over every run from any state in which they do, with REGFAIL counted |
| ModuleSide.RunKeepsNoRefusals | linux-server/src/capi/register.c:40-57 | No run brings a REGISTER answer with a proxy error, whatever CAPI answers |
| ModuleSide.OrderlyShutdown | linux-client/module/capi20proxy.c:201-241 | After a successful `remove_ctr` and without a reset, the only message the daemon reads is SHUTDOWN, and then it has left its loop |
| ModuleSide.DownIffReadInTime | linux-client/daemon/src/c2pclient.c:627-671 | Over every run, with any number of removals and resets: the daemon ends up down if and only if it reads its device after a successful removal and before a reset |
| ModuleSide.SessionEndsIffReadInTime | linux-client/daemon/src/c2pclient.c:627-671 | The same over whole sessions |
| ModuleSide.ResetLosesNotice | linux-client/module/capi20proxy.c:243-249 | A reset anywhere between the removal and the first read empties the queue with nothing delivered, and no run without a further removal takes the daemon down |
| ModuleSide.ResetLosesShutdown | linux-client/module/capi20proxy.c:243-249 | The shortest run that loses SHUTDOWN, from any idle state: remove, reset, read leaves the daemon idle with an empty queue and nothing read |
| IdMaps.AcceptKeepsInverseIffFresh | linux-client/daemon/src/c2pclient.c:404-422 | Accepting a registration keeps the maps inverse if and only if its remote id belongs to no other live application |
| IdMaps.InverseIffFresh | linux-client/daemon/src/c2pclient.c:404-427 | Over every run the maps stay inverse on live applications if and only if every accepted registration was fresh; stale entries do no harm |
| IdMaps.MapsInverseOnBenignRuns | linux-client/daemon/src/c2pclient.c:424-427 | If CAPI refuses no registration and no RELEASE's local id is another live application's remote id, the maps are inverse in every reachable state and CAPI holds every live remote id |
| IdMaps.ThereAndBack | linux-client/daemon/src/c2pclient.c:391-393 | Translating a live application's message out and back restores it byte for byte |
| IdMaps.MapTellsLastAnswer | linux-client/daemon/src/c2pclient.c:404-422 | Over every run the outward map holds, for every application, the remote id of the last REGISTER answer accepted for it |
| IdMaps.PutCarriesLastAnswer | linux-client/daemon/src/c2pclient.c:562-603 | After every run, reading a message of an application sends one PUTMESSAGE request under that id, which the inward map takes back to the application while the maps are inverse |
| KernelView.StepKeepsInStepIffTimely | linux-client/module/capi20proxy.c:518-534 | A step keeps module and kernel in agreement on which applications are in use if and only if it does not end the registration of one the kernel has released |
| KernelView.InStepIffTimely | linux-client/module/capi20proxy.c:281-340 | The same over every run |
| KernelView.InUseUntilReleased | linux-client/module/capi20proxy.c:325-340 | Over every run an application in use, rightly or not, becomes unused if and only if the kernel releases it |
| KernelView.RegistersIffUnused | linux-client/module/capi20proxy.c:281-306 | On an open card a registration changes anything if and only if its application is unused |
| Orders.DaemonReadsInOrder | linux-client/module/capi20proxy.c:569-651 | Over every run without a flush, what the daemon has read and what is still queued are what was queued, in that order, less the messages under 6 bytes |
| Orders.InTuneIffTuned | linux-client/module/capi20proxy.c:281-340 | Over every run, what the daemon was told of an application, and will be, matches the state the module has for it if and only if no control message is lost unmatched or forged and no registration ends late |
| Orders.DaemonToldInTurn | linux-client/daemon/src/c2pclient.c:640-658 | On every such run the REGISTER and RELEASE messages of an application that the daemon has read alternate, REGISTER first |
| Orders.ResetBreaksTheOrder | linux-client/module/capi20proxy.c:243-249 | A run with a reset in which the daemon reads a RELEASE and never the REGISTER before it |
| Scenarios.ReleaseBreaksTheMaps | linux-client/daemon/src/c2pclient.c:657-658 | A run in which releasing one application frees another's remote id, so that two live applications share one |
| Scenarios.RefusalBreaksTheMaps | linux-client/daemon/src/c2pclient.c:292-299 | A run in which a refused registration takes over another application's translation |
| Scenarios.LateConfirmationBlocks | linux-client/module/capi20proxy.c:526-534 | A run after which kernel, daemon and server have let go of application 1, the module has it confirmed, and a registration of it has no effect |
| Scenarios.RegisterRound | linux-client/daemon/src/c2pclient.c:643-655 | A whole registration through all three parties, and the maps, the registry and the card it leaves |
| Scenarios.MessageGoesOutMapped | linux-client/daemon/src/c2pclient.c:573 | A run: local application 1 registers as remote 2, and its next message is a PUTMESSAGE request for application 2 |
| Scenarios.DispatchSays | linux-server/src/capifwd.c:134-187 | Request by request what the machine's server answers, whom it leaves waiting and what CAPI then holds; a WAITFORSIGNAL is answered at once only if the fork fails |
| Scenarios.OtherSessionIgnored | linux-server/src/capifwd.c:144-179 | A request of another session is dropped |
| Scenarios.RefusedRegistration | linux-client/daemon/src/c2pclient.c:292-299 | With a proxy error the application would be marked revoked, the maps untouched and nothing sent |
| Scenarios.ReleaseRound | linux-client/daemon/src/c2pclient.c:657-658 | A whole release, which leaves both maps as they are |
| Scenarios.CallRound | linux-client/daemon/src/c2pclient.c:542-560 | Any synchronous call from a quiet net is a run of the machine, and what it leaves |
| Daemon.Session.WaitForAnswer | linux-client/daemon/src/c2pclient.c:542-560 | The loop terminates with other parties interfering, its effect is a run of the machine, the packet in hand has the awaited type and id, and no more packets were handled than lay ahead |
| Daemon.Session.HandleServerPacket | linux-client/daemon/src/c2pclient.c:519-540 | A WAITFORSIGNAL answer is followed by one GETMESSAGE request for its application and a GETMESSAGE answer by one WAITFORSIGNAL request; any other by none |
| Daemon.Session.FinishRegister | linux-client/daemon/src/c2pclient.c:404-422 | The tables, the channel and the ioctl after a REGISTER answer, accepted or not |
| Daemon.Session.DoCall | linux-client/daemon/src/c2pclient.c:252-302 | A whole synchronous call is a run of the machine that handles at most one packet per token and the answer, and leaves the daemon idle |
| Daemon.Session.Poll | linux-client/daemon/src/c2pclient.c:633-638 | If a packet was in the channel it is handled, and the first request sent is its token's next one; the device is not read |
| Daemon.Session.ReadDevice | linux-client/daemon/src/c2pclient.c:640 | The non-blocking read takes from the card what the card's read delivers |
| Daemon.Session.ObeyModule | linux-client/daemon/src/c2pclient.c:643-670 | The switch on a module message: the first request sent is PUTMESSAGE under the mapped id, REGISTER, or RELEASE under the local id; SHUTDOWN ends the loop; and the whole call refines the machine |
| Daemon.Session.Turn | linux-client/daemon/src/c2pclient.c:627-671 | One turn of the main loop is a run of the machine that reads the device exactly once; if a packet was in the channel it is handled before that, and the first request sent is its token's next one; it ends idle or shut down with nothing in hand |
| Daemon.Session.Interfere | linux-server/src/capi/waitforsignal.c:48-80 | Any number of steps of the other parties keeps the session's invariant |
| CardModel.QueueIsFifo | linux-client/module/capi20proxy.c:569-651 | Over every run without a flush: accepted = taken out, in order, followed by pending, and delivered = taken out less the messages under 6 bytes |
| CardModel.KernelQueue | linux-client/module/capi20proxy.c:184-411 | What each kernel operation leaves in the queue: the old content unless it flushes, and at most one new message at the end |
| CardModel.KeepsFirst33 | linux-client/module/capi20proxy.c:373-411 | Messages sent to an open card while nobody reads: those until 33 are pending are kept, in order, and the rest are dropped; a free card drops all |
| CardModel.RegisterMessageSays | linux-client/module/capi20proxy.c:251-279 | The fields of a REGISTER message by their offsets |
| CardModel.ClippedSays | linux-client/module/capi20proxy.c:299-301 | At most 8 blocks of at most 1024 bytes are passed on, smaller numbers as they are |
| CardModel.ReadTakes | linux-client/module/capi20proxy.c:569-651 | A read removes the too short messages at the head and then the delivered one, or nothing more; requeues keep the order |
| CardModel.ReadIs | linux-client/module/capi20proxy.c:569-651 | The exact result of a read, given how many messages at the head are too short: nothing there, too big, not copied, or delivered, and what is left |
| CardModel.ReadIgnoresStates | linux-client/module/capi20proxy.c:608-634 | A read gives the same result whatever the states of the applications are |
| CardModel.RegisterAndReleaseAlternate | linux-client/module/capi20proxy.c:281-340 | Over every orderly run the REGISTER and RELEASE messages of an application enter the queue in turn; what the daemon reads of them is stated by `Orders.DaemonToldInTurn` |
| CardDevice.VirtualCard.FlushQueue | linux-client/module/capi20proxy.c:184-199 | Empties the queue and resets the counter that stands beside it |
| CardDevice.VirtualCard.SendMessage | linux-client/module/capi20proxy.c:373-411 | Queues exactly on an open card with at most 32 pending, and the counter keeps equal to the queue length |
| CardDevice.VirtualCard.RegisterAppl | linux-client/module/capi20proxy.c:281-306 | State and queue after a registration, with no effect on a free card or a used application |
| CardDevice.VirtualCard.ReleaseAppl | linux-client/module/capi20proxy.c:325-340 | State and queue after a release, with no effect on an unused or invalid application |
| CardDevice.VirtualCard.ResetCtr | linux-client/module/capi20proxy.c:243-249 | Flushes and changes nothing else |
| CardDevice.VirtualCard.RemoveCtr | linux-client/module/capi20proxy.c:201-241 | Leaves SHUTDOWN alone in the queue of a removing card, or nothing changed if memory is short |
| CardDevice.VirtualCard.Read | linux-client/module/capi20proxy.c:569-651 | The recursive non-blocking read terminates and does what the value model does, requeues and counters included |
| CardDevice.VirtualCard.Write | linux-client/module/capi20proxy.c:657-708 | A running card passes the bytes on as they are; any other fails |
| CardDevice.FreeSlotIffNotFull | linux-client/module/capi20proxy.c:710-719 | With distinct cards per file, a slot is free if and only if fewer than CAPIPROXY_MAXCONTR files hold one |
| CardDevice.Module.FindFreeId | linux-client/module/capi20proxy.c:710-719 | Finds a free card if there is one |
| CardDevice.Module.Open | linux-client/module/capi20proxy.c:729-763 | Succeeds if and only if not all cards are held; the new file gets a card nobody held, with an empty queue and all applications free |
| CardDevice.Module.Close | linux-client/module/capi20proxy.c:765-790 | The card becomes free and empty and no other file's card is touched |
| CardDevice.Module.SetData | linux-client/module/capi20proxy.c:487-516 | Brings the card up and keeps who holds what |
| CardDevice.Module.MarkAppl | linux-client/module/capi20proxy.c:518-534 | Marks one application of one card and keeps who holds what |
| CardDevice.Module.Remove | linux-client/module/capi20proxy.c:201-241 | A removed card stays with its file |
| Framing.FramesComeOut | linux-server/src/capifwd.c:108-132 | Whole frames come out as they went in, in order, and what follows is parsed on its own |
| Framing.OnlyFramesComeOut | linux-server/src/capifwd.c:108-132 | Nothing else comes out: for any bytes, the frames are proper and concatenate to a prefix of the stream |
| Framing.TruncationYieldsWholeFrames | linux-server/src/capifwd.c:108-132 | A stream cut inside a frame yields exactly the frames before it |
| Framing.WrongLengthOverruns | linux-server/src/capifwd.c:122 | A length below the header or above the buffer ends the conversation after the frames before it |
| Framing.HeaderOnlyEndsTheSession | linux-server/src/capifwd.c:122-132 | A request that is all header ends the session whatever follows |
| Framing.RecvN | linux-server/src/capifwd.c:9-20 | For any cutting of the stream into pieces: the next `size` bytes in place, or the end if there are fewer |
| Framing.NextFrame | linux-server/src/capifwd.c:112-132 | One turn of the receive loop yields the first frame of what the stream parses to, or how it ends, independent of the pieces |
| Packets.RequestRoundTrip | linux-server/src/protocol.h:228-240 | Decoding an encoded request header, with anything behind it, gives it back |
| Packets.AnswerRoundTrip | linux-server/src/protocol.h:243-254 | The same for answer headers |
| DataB3.PutMessageExact | linux-server/src/capi/putmessage.c:52-95 | CAPI is called if and only if the lengths are consistent, with the data as it came, except that the pointer of a DATA_B3_REQ leads to its payload inside the data |
| DataB3.FlattenRoundTrip | linux-server/src/capi/getmessage.c:51-80 | A DATA_B3 message laid out with its payload behind it is parsed back into the same message and payload |
| CapiMessage.ControllerRewrite | linux-server/src/capi/etc.c:25-30 | The rewrite changes byte 8 only if and only if the sum fits in it, as it does for every controller below 128; otherwise byte 9 differs |
| CapiMessage.MaskClearsLowSeven | linux-server/src/capi/etc.c:25-30 | The bit mask is subtraction of the low seven bits |
| CapiMessage.AppIdThereAndBack | linux-client/daemon/src/c2pclient.c:573 | Replacing the application id and putting it back restores every byte |
| Transport.OutboundPreserved | linux-client/daemon/src/c2pclient.c:562-603 | A message reaches CAPI if and only if its lengths are consistent, unchanged except bytes 2-3, the low bits of byte 8 and the pointer of a DATA_B3_REQ, behind which its payload lies |
| Transport.OutboundStream | linux-client/daemon/src/c2pclient.c:562-603 | For any list of messages, the stream parses into one frame for each, in order, carrying the rewritten message |
| Transport.InboundPreserved | linux-client/daemon/src/c2pclient.c:379-402 | What the daemon strips from a GETMESSAGE answer is the message followed by its payload, and what it hands on differs in the application id only |
| Transport.Buffers.SendToServer | linux-client/daemon/src/c2pclient.c:562-603 | In the static buffers: bytes 2, 3 and 8 of the message rewritten in place, the id counted up with wrap, and every field of the request header; from 12 bytes on, the packet of `OutboundStream` |
| Transport.Buffers.SendToModule | linux-client/daemon/src/c2pclient.c:379-402 | In the static buffers: the data of any answer, empty ones included, with the application id translated; for data too short to have one, the id is what the last request header left in its place |
| Transport.Buffers.SendRequest | linux-client/daemon/src/c2pclient.c:347-376 | The header-only requests of a token, and the zeros they leave where an application id would be |
| Transport.Buffers.SendRegister | linux-client/daemon/src/c2pclient.c:252-280 | The REGISTER request for the message in recvbuffer |
| Transport.RegisterRequestSays | linux-client/daemon/src/c2pclient.c:262-278 | Its header fields, and in its body the three parameters at their offsets |
| Inbound.HandleServerPacket | linux-client/daemon/src/c2pclient.c:519-540 | For the answer at the start of recvbuffer, older bytes behind it: what goes up to the kernel, and, decoded, the one request that goes back: type 4 after 5 and 5 after 4, same application, the daemon's session, the next id |
| Inbound.HandleAll | linux-client/daemon/src/c2pclient.c:627-638 | The same for any list of answers: one such request for each answer of a token, in order, with ids counted up |
| Inbound.MessagesReachKernel | linux-server/src/capi/getmessage.c:51-82 | For any list of messages taken from CAPI: the kernel gets each with its payload behind it, in order and nothing else, for the application its remote id stands for |
| Inbound.CallsReachKernel | linux-server/src/capi/getmessage.c:26-86 | Server and daemon together, for every conversation served: for each call of `capi20_get_message`, in order and for nothing else, the kernel gets the message that came back with its payload, for the application its remote id stands for, or nothing on an error |
| Inbound.EmptyAnswerArrivesEmpty | linux-server/src/capi/getmessage.c:44-51 | An answer without data makes the daemon write nothing |
| EndToEnd.MessagesReachCapi | linux-server/src/capi/putmessage.c:52-95 | Once the server has served the stream of any list of messages: CAPI was handed the consistent ones and no others, in order, each for the right application and preserved, and the i-th answer carries the i-th id, the application and whether the message was consistent |
| EndToEnd.SentArePut | linux-client/daemon/src/c2pclient.c:562-603 | By induction over the list: if every message had the outcome it should, the calls made are the puts of the consistent ones, in order |
| EndToEnd.RegistrationReachesCapi | linux-server/src/capi/register.c:33-57 | The parameters of the kernel's registration reach `capi20_register`, cut to 8 blocks of 1024 bytes, and the answer carries the request's id and what CAPI said |
| Registry.RegistriesAgree | linux-server/src/old/main-rev1.14-cvs.c:77-157 | Under every sequence of adds of absent ids, deletes and drains, list and array hold the same set and release the same ids, each once |
| Registry.AgreeIffProper | linux-server/src/old/main-rev1.14-cvs.c:77-157 | Under every sequence of adds, deletes and drains of ids in the table, they agree throughout if and only if every id added was absent |
| Registry.AgreeIffAbsent | linux-server/src/old/main-rev1.14-cvs.c:85-131 | After adding and deleting an id they agree if and only if it was absent before |
| Registry.AscendingIs | linux-server/src/appindex.c:37-56 | What the array releases is its set, each member once |
| Registry.NoZeroAllReleased | linux-server/src/old/main-rev1.14-cvs.c:150-157 | Draining the list releases all of it if and only if it holds no id 0 |
| Registry.FlagRegistry.AddApp | linux-server/src/appindex.c:27-30 | Adds the id to the set |
| Registry.FlagRegistry.DelApp | linux-server/src/appindex.c:32-35 | Removes the id from the set |
| Registry.FlagRegistry.GetFirstApp | linux-server/src/appindex.c:37-47 | Removes and returns the least id, or 0 for the empty set |
| Registry.FlagRegistry.ReleaseAll | linux-server/src/appindex.c:49-56 | Terminates, releases the ids in ascending order and leaves none |
| Registry.ListRegistry.AddApp | linux-server/src/old/main-rev1.14-cvs.c:85-105 | Appends; the list stays acyclic and unshared |
| Registry.ListRegistry.DelApp | linux-server/src/old/main-rev1.14-cvs.c:107-131 | Removes the first node with the id, if any |
| Registry.ListRegistry.Unlink | linux-server/src/old/main-rev1.14-cvs.c:116-126 | Relinking around one node removes exactly that node |
| Registry.ListRegistry.GetFirstApp | linux-server/src/old/main-rev1.14-cvs.c:133-148 | Removes and returns the first id, or 0 for the empty list |
| Registry.ListRegistry.ReleaseAll | linux-server/src/old/main-rev1.14-cvs.c:150-157 | Releases the ids before the first 0 in order and leaves those behind it |
| Server.ParseAndPatch | linux-server/src/capi/putmessage.c:52-95 | The nested checks in place: the outcome of `PutMessage`, and not a byte outside the data touched |
| Server.Connection.ExecRegister | linux-server/src/capi/register.c:27-61 | CAPI is asked once with the parameters in the body, the answer tells what it said, and the flagged ids remain those CAPI holds |
| Server.Connection.ExecRelease | linux-server/src/capi/release.c:26-57 | The same for RELEASE |
| Server.Connection.ExecPutMessage | linux-server/src/capi/putmessage.c:26-99 | CAPI is handed consistent data once and the answer carries its error; anything else is answered with a parse error and CAPI never sees it |
| Server.Connection.ExecGetMessage | linux-server/src/capi/getmessage.c:26-86 | CAPI is asked once for the application, and the answer carries the message it gave with the payload behind it, or its error and nothing |
| Server.Connection.Dispatch | linux-server/src/capifwd.c:134-187 | One answer with the request's id, type and session, and exactly the CAPI calls of its type with what they returned; a request of another session changes nothing |
| Server.Connection.Receive | linux-server/src/capifwd.c:108-187 | What is dispatched is what the stream parses to, and each frame, in order, brought about the answer and the calls it should |
| Server.Connection.Teardown | linux-server/src/appindex.c:49-56 | Each id CAPI holds, and no other, is passed to `capi20_release` exactly once |
| Server.Connection.Serve | linux-server/src/capifwd.c:108-192 | The whole connection: `Receive`, and then the release of exactly the ids those calls left registered, each once |

## Left out

- CAPI_MAXDATAWINDOW and the other kernel constants come from a kernel header that is not part of this model; 8 and 1024 are used.
- Memory outside the buffers: a length or id that leaves its table or packet has no defined effect in C; the model ends the conversation (`Overrun`), sends no answer or changes nothing there.
- The DATA_B3_IND pointer is not an address in the model of GETMESSAGE: the payload behind it is given with the message.
- Server.Connection.Dispatch: answers REGISTER, RELEASE, PUTMESSAGE and GETMESSAGE; the source also answers HELO, AUTH, WAITFORSIGNAL and the information queries.
- Server.Connection.Receive: one answer for each request of those four types; requests of the others are received and get none here.
- Server.Connection.Serve: the same.
- Requests at byte level are REGISTER, RELEASE, PUTMESSAGE and GETMESSAGE; the fork of WAITFORSIGNAL is modelled at message level in `Protocol`, and the information queries have the same shape as the other synchronous calls.
- HELO and AUTH: partly unimplemented in the source; the model starts with an established session.
- A connection that fails inside `wait_for_answer`: the source returns with a stale buffer; the runs assume a live one.
- Several packets, or part of one, in a single `recv` of the daemon: the daemon's channel is modelled message by message.
- The sleeping branch of the module's read: the daemon opens the device non-blocking.
- Spinlocks, wait queues and bottom halves: each module operation is one step.
- `client_info.messageBufferLen`, which the server stores and nothing reads.
- NCCI bookkeeping: it depends on kernel macros that are not part of this model.
- `attach_ctr` failing, the -ENOTREG branch and the read of an uninitialised pointer at `linux-client/module/capi20proxy.c:735`.
- Matching.AnsweredAtMostOnce: assumes fewer than 2^32 requests, since after the wrap of the 32-bit counter an id is used again.
- Daemon.Session.Turn: says nothing about which steps the other parties take, and the ids of kernel messages are those of applications the kernel knows.
- EndToEnd.MessagesReachCapi: covers messages of at least 12 bytes, since the daemon writes a controller number at offset 8 whatever the length; shorter ones are covered by `Transport.Buffers.SendToServer` only.
- Sockets, daemonising, signals, logging, configuration, the /proc interface, the Windows client and server, and the kernel patches.
