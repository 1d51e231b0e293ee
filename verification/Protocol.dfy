/** The three parties as one state machine: the module's card, the client daemon and the
    server with its forked waiters, joined by two first-in-first-out channels.

    A step is one atomic action of one party; a run is any sequence of enabled steps, so
    every interleaving is a run. */
module Protocol {
  import opened CapiMessage
  import opened CardModel
  import Packets

  const ID_MODULUS := 0x1_0000_0000
  const DAEMON_BUFFER: nat := Packets.PACKET_SIZE
  const PERROR_NONE: nat := Packets.PERROR_NONE
  const PERROR_PARSE_ERROR: nat := Packets.PERROR_PARSE_ERROR
  const PERROR_NO_RESSOURCES: nat := Packets.PERROR_NO_RESSOURCES

  datatype Option<T> = None | Some(value: T)

  datatype Kind = Register | Release | PutMessage | GetMessage | WaitForSignal

  /** WAITFORSIGNAL and GETMESSAGE are the two faces of an application's circulating token;
      everything else is a call somebody spins for. */
  predicate IsToken(k: Kind) {
    k.GetMessage? || k.WaitForSignal?
  }

  /** The header fields requests and answers share, and the answer's proxy error (0 in a request). */
  datatype Packet = Packet(id: nat, kind: Kind, app: nat, session: nat, perror: nat)

  /** The synchronous call the daemon is spinning for, with the local application it serves. */
  datatype Call = RegisterCall(appl: nat) | ReleaseCall(appl: nat) | PutCall(appl: nat)

  datatype Mode = Idle | Waiting(call: Call, id: nat) | Down

  /** What happened so far; no party reads it. */
  datatype History = History(
    firstId: nat,                  // message id before the run
    sent: seq<Packet>,             // every request the daemon sent
    answered: seq<Packet>,         // every answer the server or a waiter sent
    accepted: multiset<nat>,       // remote ids of accepted REGISTER answers
    live: set<nat>,                // local ids registered and not yet released
    kernel: set<nat>,              // local ids the kernel has registered and not yet released
    delivered: seq<Message>,       // module messages the daemon read
    regQueued: multiset<nat>,      // REGISTER messages put into the card's queue
    regFlushed: multiset<nat>,     // ... lost to a flush
    regConfirmed: multiset<nat>,   // IOCTL_APPL_REGISTERED
    regFailed: multiset<nat>)      // IOCTL_ERROR_REGFAIL

  /** The two channels and the children forked for WAITFORSIGNAL. */
  datatype Net = Net(up: seq<Packet>, waiters: seq<Packet>, down: seq<Packet>)

  /** The server's session id and the ids CAPI holds registered for it. */
  datatype Server = Server(session: nat, held: set<nat>)

  /** The daemon's statics; `hand` is the packet in recvbuffer. */
  datatype Daemon = Daemon(mode: Mode, hand: Option<Packet>, msgid: nat, sessionId: nat, ltr: seq<nat>, rtl: seq<nat>)

  datatype State = State(net: Net, server: Server, d: Daemon, card: Card, h: History)

  function KindOf(c: Call): Kind {
    match c
    case RegisterCall(_) => Register
    case ReleaseCall(_) => Release
    case PutCall(_) => PutMessage
  }

  function Lookup(m: seq<nat>, k: nat): nat {
    if k < |m| then m[k] else 0
  }

  function Store(m: seq<nat>, k: nat, v: nat): (r: seq<nat>)
    ensures |r| == |m|
  {
    if k < |m| then m[k := v] else m
  }

  // ---- the daemon -------------------------------------------------------------------------

  function NextId(d: Daemon): nat {
    (d.msgid + 1) % ID_MODULUS
  }

  function RequestOf(d: Daemon, kind: Kind, app: nat): Packet {
    Packet(NextId(d), kind, app, d.sessionId, PERROR_NONE)
  }

  /** `remote_*`: stamp a request with the next id and send it. */
  function Send(s: State, kind: Kind, app: nat): State {
    var p := RequestOf(s.d, kind, app);
    s.(d := s.d.(msgid := p.id), net := s.net.(up := s.net.up + [p]), h := s.h.(sent := s.h.sent + [p]))
  }

  function SetMode(s: State, m: Mode): State {
    s.(d := s.d.(mode := m))
  }

  /** Send a request and spin in `wait_for_answer`. */
  function Begin(s: State, call: Call, app: nat): State {
    SetMode(Send(s, KindOf(call), app), Waiting(call, NextId(s.d)))
  }

  /** `handle_serverpacket`; any other type is reported and dropped. */
  function ServePacket(s: State, a: Packet): State {
    match a.kind
    case WaitForSignal => Send(s, GetMessage, a.app)
    case GetMessage => Send(s, WaitForSignal, a.app)
    case _ => s
  }

  /** `local_register_appl` and the ioctl that follows it, once the answer is there. */
  function Registered(s: State, appl: nat, a: Packet): State {
    if a.perror == PERROR_NONE then
      var t := Send(s, WaitForSignal, a.app);
      t.(d := t.d.(rtl := Store(t.d.rtl, a.app, appl), ltr := Store(t.d.ltr, appl, a.app)),
         card := Ioctl(t.card, appl, Confirmed),
         h := t.h.(accepted := t.h.accepted + multiset{a.app},
                   live := t.h.live + {appl},
                   regConfirmed := t.h.regConfirmed + multiset{appl}))
    else
      s.(card := Ioctl(s.card, appl, Revoked),
         h := s.h.(regFailed := s.h.regFailed + multiset{appl}))
  }

  /** The rest of a call once `wait_for_answer` has returned with `a` in recvbuffer. */
  function Complete(s: State, call: Call, a: Packet): State {
    if call.RegisterCall? then Registered(SetMode(s, Idle), call.appl, a) else SetMode(s, Idle)
  }

  function Ioctl(c: Card, appl: nat, a: AppState): (r: Card)
    ensures WellFormed(c) ==> WellFormed(r)
    ensures r.queue == c.queue && r.status == c.status
  {
    if ValidAppl(appl) && |c.apps| == CAPI_MAXAPPL then Mark(c, appl, a) else c
  }

  /** `recv` takes the packet at the head of the channel into recvbuffer. */
  function TakePacket(s: State): State
    requires s.net.down != []
  {
    s.(d := s.d.(hand := Some(s.net.down[0])), net := s.net.(down := s.net.down[1..]))
  }

  predicate Awaited(d: Daemon, a: Packet) {
    d.mode.Waiting? && a.kind == KindOf(d.mode.call)
  }

  function Unhand(s: State): State {
    s.(d := s.d.(hand := None))
  }

  function HandlePacket(s: State): State
    requires s.d.hand.Some?
  {
    var a := s.d.hand.value;
    if Awaited(s.d, a) then Complete(Unhand(s), s.d.mode.call, a) else ServePacket(Unhand(s), a)
  }

  function Unlive(s: State, appl: nat): State {
    s.(h := s.h.(live := s.h.live - {appl}))
  }

  /** The main loop's switch on a message read from the module. */
  function Obey(s: State, m: Message): State
    requires |m| >= 6
  {
    var appl := AppId(m);
    if Command(m) != TYPE_PROXY then Begin(s, PutCall(appl), Lookup(s.d.ltr, appl))
    else if Subcommand(m) == TYPE_REGISTER_APP then Begin(s, RegisterCall(appl), 0)
    else if Subcommand(m) == TYPE_RELEASE_APP then Begin(Unlive(s, appl), ReleaseCall(appl), appl)
    else if Subcommand(m) == TYPE_SHUTDOWN then SetMode(s, Down)
    else s
  }

  /** The daemon has read `m` and the card is left as `c`. */
  function Took(s: State, c: Card, m: Message): State {
    s.(card := c, h := s.h.(delivered := s.h.delivered + [m]))
  }

  function ReadModule(s: State): State {
    ReadTakes(s.card, DAEMON_BUFFER, 0);
    var (c, r) := Read(s.card, DAEMON_BUFFER, 0);
    if r.Delivered? then Obey(Took(s, c, r.m), r.m) else s.(card := c)
  }

  // ---- the server -------------------------------------------------------------------------

  /** What the server's environment decides: whether the CAPI call (or the fork) succeeds, the
      application id CAPI leaves in the answer, and whether PUTMESSAGE or GETMESSAGE found a
      parse error. */
  datatype Reply = Reply(ok: bool, app: nat, parseError: bool)

  function ProxyError(k: Kind, r: Reply): nat {
    match k
    case WaitForSignal => if r.ok then PERROR_NONE else PERROR_NO_RESSOURCES
    case PutMessage => if r.parseError then PERROR_PARSE_ERROR else PERROR_NONE
    case GetMessage => if r.parseError then PERROR_PARSE_ERROR else PERROR_NONE
    case _ => PERROR_NONE
  }

  /** The answer the server composes, or would compose, for a request. */
  function AnswerTo(p: Packet, r: Reply): Packet {
    p.(app := if p.kind.Register? then r.app else p.app, perror := ProxyError(p.kind, r))
  }

  function Answer(s: State, a: Packet): State {
    s.(net := s.net.(down := s.net.down + [a]), h := s.h.(answered := s.h.answered + [a]))
  }

  function Dequeue(s: State): State
    requires s.net.up != []
  {
    s.(net := s.net.(up := s.net.up[1..]))
  }

  function Hold(s: State, held: set<nat>): State {
    s.(server := s.server.(held := held))
  }

  function Fork(s: State, p: Packet): State {
    s.(net := s.net.(waiters := s.net.waiters + [p]))
  }

  /** The effect of a request on what CAPI holds for the session. */
  function HeldAfter(held: set<nat>, p: Packet, r: Reply): set<nat> {
    if p.kind.Register? && r.ok then held + {r.app}
    else if p.kind.Release? && r.ok then held - {p.app}
    else held
  }

  predicate Forks(p: Packet, r: Reply) {
    p.kind.WaitForSignal? && r.ok
  }

  function Dispatch(s: State, r: Reply): State
    requires s.net.up != []
  {
    var p := s.net.up[0];
    if p.session != s.server.session then Dequeue(s)
    else if Forks(p, r) then Fork(Dequeue(s), p)
    else Answer(Hold(Dequeue(s), HeldAfter(s.server.held, p, r)), AnswerTo(p, r))
  }

  function Exit(s: State, i: nat): State
    requires i < |s.net.waiters|
  {
    s.(net := s.net.(waiters := s.net.waiters[..i] + s.net.waiters[i + 1..]))
  }

  function WaiterAnswer(p: Packet): Packet {
    p.(perror := PERROR_NONE)
  }

  /** A forked waiter answers and exits; CAPI decides when. */
  function Signal(s: State, i: nat): State
    requires i < |s.net.waiters|
  {
    Answer(Exit(s, i), WaiterAnswer(s.net.waiters[i]))
  }

  /** The CAPI library hands out ids that are not in use, from 1 to CAPI_MAXAPPL, and releases
      only what is registered. A refused registration leaves some earlier id in the answer. */
  predicate Capi(s: State, r: Reply)
    requires s.net.up != []
  {
    var p := s.net.up[0];
    (p.kind.Register? ==> r.app <= CAPI_MAXAPPL && (r.ok ==> 1 <= r.app && r.app !in s.server.held)) &&
    (p.kind.Release? ==> r.ok ==> p.app in s.server.held)
  }

  // ---- the machine ------------------------------------------------------------------------

  datatype Action =
    | Serve(r: Reply)      // the server dispatches the request at the head of its channel
    | Wake(i: nat)         // a waiter answers
    | Receive              // the daemon takes a packet off the socket
    | Handle               // ... and acts on it
    | FromModule           // the daemon reads its device
    | FromKernel(op: KernelOp)

  function RegsOf(ms: seq<Message>): multiset<nat> {
    if ms == [] then multiset{} else RegOf(ms[0]) + RegsOf(ms[1..])
  }

  predicate IsRegister(m: Message) {
    |m| >= 6 && Command(m) == TYPE_PROXY && Subcommand(m) == TYPE_REGISTER_APP
  }

  function RegOf(m: Message): multiset<nat> {
    if IsRegister(m) then multiset{AppId(m) as nat} else multiset{}
  }

  /** The applications the kernel holds: a free card refuses its registrations. */
  function Held(kernel: set<nat>, c: Card, op: KernelOp): set<nat> {
    match op
    case RegisterAppl(appl, _, _) => if c.status.Free? then kernel else kernel + {appl}
    case ReleaseAppl(appl, _) => kernel - {appl}
    case _ => kernel
  }

  function KernelStep(s: State, op: KernelOp): State
    requires WellFormed(s.card) && Allowed(op)
  {
    s.(card := Kernel(s.card, op),
       h := s.h.(kernel := Held(s.h.kernel, s.card, op),
                 regQueued := s.h.regQueued + RegsOf(Posted(s.card, op)),
                 regFlushed := s.h.regFlushed + if Flushes(op) then RegsOf(s.card.queue) else multiset{}))
  }

  /** Application messages carry the id of an application the kernel knows. */
  predicate Addressed(m: Message) {
    |m| >= 6 ==> AppId(m) <= CAPI_MAXAPPL
  }

  predicate Enabled(s: State, a: Action) {
    match a
    case Serve(r) => s.net.up != [] && Capi(s, r)
    case Wake(i) => i < |s.net.waiters|
    case Receive => !s.d.mode.Down? && s.d.hand.None? && s.net.down != []
    case Handle => !s.d.mode.Down? && s.d.hand.Some?
    case FromModule => s.d.mode.Idle? && s.d.hand.None?
    case FromKernel(op) => WellFormed(s.card) && Allowed(op) && (op.SendMessage? ==> Addressed(op.m))
  }

  function Step(s: State, a: Action): State
    requires Enabled(s, a)
  {
    match a
    case Serve(r) => Dispatch(s, r)
    case Wake(i) => Signal(s, i)
    case Receive => TakePacket(s)
    case Handle => HandlePacket(s)
    case FromModule => ReadModule(s)
    case FromKernel(op) => KernelStep(s, op)
  }

  predicate IsRun(s: State, acts: seq<Action>)
    decreases |acts|
  {
    acts == [] || (Enabled(s, acts[0]) && IsRun(Step(s, acts[0]), acts[1..]))
  }

  function Exec(s: State, acts: seq<Action>): State
    requires IsRun(s, acts)
    decreases |acts|
  {
    if acts == [] then s else Exec(Step(s, acts[0]), acts[1..])
  }

  /** An established session: nothing in flight, nothing registered, the card open and empty. */
  predicate Initial(s: State) {
    s.net == Net([], [], []) && s.server.held == {} &&
    s.d.mode.Idle? && s.d.hand.None? && s.d.msgid == s.h.firstId && s.d.msgid < ID_MODULUS &&
    s.d.sessionId == s.server.session &&
    s.d.ltr == s.d.rtl == seq(CAPI_MAXAPPL + 1, _ => 0) &&
    WellFormed(s.card) && s.card.queue == [] &&
    s.h == History(s.h.firstId, [], [], multiset{}, {}, {}, [], multiset{}, multiset{}, multiset{}, multiset{})
  }
}
