/** What every step of the protocol keeps: the session, the single outstanding call, one
    token per accepted registration, and the pairing of answers with requests. */
module Conservation {
  import opened CapiMessage
  import opened CardModel
  import opened Protocol

  // ---- counting packets -------------------------------------------------------------------

  /** The multiset sum of `f` over a channel. */
  function Bag<X>(ps: seq<Packet>, f: Packet -> multiset<X>): multiset<X> {
    if ps == [] then multiset{} else f(ps[0]) + Bag(ps[1..], f)
  }

  lemma {:induction false} BagAppend<X>(a: seq<Packet>, b: seq<Packet>, f: Packet -> multiset<X>)
    ensures Bag(a + b, f) == Bag(a, f) + Bag(b, f)
  {
    if a == [] {
      assert a + b == b;
    } else {
      assert a + b == [a[0]] + (a[1..] + b);
      BagAppend(a[1..], b, f);
    }
  }

  lemma BagOne<X>(p: Packet, f: Packet -> multiset<X>)
    ensures Bag([p], f) == f(p)
  {
    assert Bag([], f) == multiset{};
  }

  lemma BagSnoc<X>(a: seq<Packet>, p: Packet, f: Packet -> multiset<X>)
    ensures Bag(a + [p], f) == Bag(a, f) + f(p)
  {
    BagAppend(a, [p], f);
    BagOne(p, f);
  }

  lemma BagPick<X>(ps: seq<Packet>, i: nat, f: Packet -> multiset<X>)
    requires i < |ps|
    ensures Bag(ps, f) == Bag(ps[..i] + ps[i + 1..], f) + f(ps[i])
  {
    var a, b := ps[..i], ps[i + 1..];
    assert ps == (a + [ps[i]]) + b;
    BagAppend(a + [ps[i]], b, f);
    BagSnoc(a, ps[i], f);
    BagAppend(a, b, f);
  }

  lemma {:induction false} BagMember<X>(ps: seq<Packet>, i: nat, f: Packet -> multiset<X>)
    requires i < |ps|
    ensures f(ps[i]) <= Bag(ps, f)
  {
    BagPick(ps, i, f);
  }

  /** The application a token packet carries. */
  function TokenIn(p: Packet): multiset<nat> {
    if IsToken(p.kind) then multiset{p.app} else multiset{}
  }

  /** The id and type of a call packet. */
  function CallIn(p: Packet): multiset<(nat, Kind)> {
    if IsToken(p.kind) then multiset{} else multiset{(p.id, p.kind)}
  }

  datatype Tag = Tag(id: nat, kind: Kind, app: nat)

  /** What an answer copies from its request: the id, the type, and the application id except
      where REGISTER fills it in. */
  function TagOf(p: Packet): Tag {
    Tag(p.id, p.kind, if p.kind.Register? then 0 else p.app)
  }

  function TagIn(p: Packet): multiset<Tag> {
    multiset{TagOf(p)}
  }

  /** Packets on their way to the daemon's handler: the one in hand, then the channel. */
  function Inbox(s: State): seq<Packet> {
    (if s.d.hand.Some? then [s.d.hand.value] else []) + s.net.down
  }

  function Flow<X>(s: State, f: Packet -> multiset<X>): multiset<X> {
    Bag(s.net.up, f) + Bag(s.net.waiters, f) + Bag(Inbox(s), f)
  }

  // ---- how each step moves packets --------------------------------------------------------

  lemma SendFlow<X>(s: State, kind: Kind, app: nat, f: Packet -> multiset<X>)
    ensures Flow(Send(s, kind, app), f) == Flow(s, f) + f(RequestOf(s.d, kind, app))
  {
    BagSnoc(s.net.up, RequestOf(s.d, kind, app), f);
  }

  lemma AnswerFlow<X>(s: State, a: Packet, f: Packet -> multiset<X>)
    ensures Inbox(Answer(s, a)) == Inbox(s) + [a]
    ensures Flow(Answer(s, a), f) == Flow(s, f) + f(a)
  {
    BagSnoc(Inbox(s), a, f);
    assert Inbox(Answer(s, a)) == Inbox(s) + [a];
  }

  lemma DispatchFlow<X>(s: State, r: Reply, f: Packet -> multiset<X>)
    requires s.net.up != [] && s.net.up[0].session == s.server.session
    requires f(AnswerTo(s.net.up[0], r)) == f(s.net.up[0])
    ensures Flow(Dispatch(s, r), f) == Flow(s, f)
  {
    var p := s.net.up[0];
    var t := Dequeue(s);
    assert Flow(s, f) == Flow(t, f) + f(p);
    if Forks(p, r) {
      BagSnoc(t.net.waiters, p, f);
    } else {
      AnswerFlow(Hold(t, HeldAfter(s.server.held, p, r)), AnswerTo(p, r), f);
    }
  }

  lemma SignalFlow<X>(s: State, i: nat, f: Packet -> multiset<X>)
    requires i < |s.net.waiters| && f(WaiterAnswer(s.net.waiters[i])) == f(s.net.waiters[i])
    ensures Flow(Signal(s, i), f) == Flow(s, f)
  {
    BagPick(s.net.waiters, i, f);
    AnswerFlow(Exit(s, i), WaiterAnswer(s.net.waiters[i]), f);
  }

  lemma TakeFlow<X>(s: State, f: Packet -> multiset<X>)
    requires s.d.hand.None? && s.net.down != []
    ensures Flow(TakePacket(s), f) == Flow(s, f) && Inbox(TakePacket(s)) == Inbox(s)
  {
    assert Inbox(TakePacket(s)) == Inbox(s);
  }

  lemma UnhandFlow<X>(s: State, f: Packet -> multiset<X>)
    requires s.d.hand.Some?
    ensures Inbox(s) == [s.d.hand.value] + Inbox(Unhand(s))
    ensures Flow(s, f) == Flow(Unhand(s), f) + f(s.d.hand.value)
  {
    assert Inbox(s) == [s.d.hand.value] + Inbox(Unhand(s));
  }

  /** Flows depend on the channels, the waiters and the hand, and on nothing else. */
  lemma SameFlow<X>(s: State, t: State, f: Packet -> multiset<X>)
    requires s.net == t.net && s.d.hand == t.d.hand
    ensures Inbox(s) == Inbox(t) && Flow(s, f) == Flow(t, f)
  {
  }

  // ---- the session and the single call ----------------------------------------------------

  function Outstanding(m: Mode): multiset<(nat, Kind)> {
    if m.Waiting? then multiset{(m.id, KindOf(m.call))} else multiset{}
  }

  predicate InRange(ps: seq<Packet>) {
    forall p | p in ps :: p.app <= CAPI_MAXAPPL
  }

  /** One session, waiters wait, and the only call in flight is the daemon's own. */
  ghost predicate Wire(s: State) {
    && s.d.sessionId == s.server.session
    && (forall p | p in s.net.up :: p.session == s.server.session)
    && (forall p | p in s.net.waiters :: p.kind.WaitForSignal?)
    && Flow(s, CallIn) == Outstanding(s.d.mode)
  }

  /** Every application id in flight fits the tables it will index. */
  ghost predicate Ranges(s: State) {
    InRange(s.net.up) && InRange(s.net.waiters) && InRange(Inbox(s)) && Tables(s.d) && Queue(s.card)
  }

  ghost predicate Tables(d: Daemon) {
    && |d.ltr| == CAPI_MAXAPPL + 1 && |d.rtl| == CAPI_MAXAPPL + 1
    && (forall i | 0 <= i < |d.ltr| :: d.ltr[i] <= CAPI_MAXAPPL)
  }

  ghost predicate Queue(c: Card) {
    WellFormed(c) && forall m | m in c.queue :: Addressed(m)
  }

  ghost predicate Core(s: State) {
    Wire(s) && Ranges(s)
  }

  /** The "wrong message type" branch of `handle_serverpacket` is dead, and the packet on
      which `wait_for_answer` stops answers the very request the daemon is spinning for. */
  lemma HandOnlyTokensOrTheAnswer(s: State)
    requires Core(s) && s.d.hand.Some?
    ensures Awaited(s.d, s.d.hand.value) || IsToken(s.d.hand.value.kind)
    ensures Awaited(s.d, s.d.hand.value) ==> s.d.hand.value.id == s.d.mode.id
  {
    var a := s.d.hand.value;
    UnhandFlow(s, CallIn);
    if !IsToken(a.kind) {
      assert (a.id, a.kind) in Flow(s, CallIn);
    }
  }

  lemma InRangeAppend(a: seq<Packet>, b: seq<Packet>)
    ensures InRange(a + b) <==> InRange(a) && InRange(b)
  {
    assert forall p | p in a :: p in a + b;
    assert forall p | p in b :: p in a + b;
  }

  lemma SendKeepsRanges(s: State, kind: Kind, app: nat)
    requires Ranges(s) && app <= CAPI_MAXAPPL
    ensures Ranges(Send(s, kind, app))
  {
    InRangeAppend(s.net.up, [RequestOf(s.d, kind, app)]);
  }

  lemma SendKeepsWire(s: State, kind: Kind, app: nat)
    requires Wire(s) && IsToken(kind)
    ensures Wire(Send(s, kind, app))
  {
    SendFlow(s, kind, app, CallIn);
  }

  lemma BeginKeepsCore(s: State, call: Call, app: nat)
    requires Core(s) && app <= CAPI_MAXAPPL && s.d.mode.Idle?
    ensures Core(Begin(s, call, app))
  {
    var t := Send(s, KindOf(call), app);
    SendFlow(s, KindOf(call), app, CallIn);
    SendKeepsRanges(s, KindOf(call), app);
    SameFlow(t, Begin(s, call, app), CallIn);
  }

  lemma AnswerKeepsRanges(s: State, a: Packet)
    requires Ranges(s) && a.app <= CAPI_MAXAPPL
    ensures Ranges(Answer(s, a))
  {
    AnswerFlow(s, a, CallIn);
    InRangeAppend(Inbox(s), [a]);
  }

  /** Answering changes neither the token, nor the call, nor the tag of a packet. */
  lemma AnswerKeepsIdentity(p: Packet, r: Reply)
    ensures TokenIn(AnswerTo(p, r)) == TokenIn(p)
    ensures CallIn(AnswerTo(p, r)) == CallIn(p)
    ensures TagIn(AnswerTo(p, r)) == TagIn(p)
  {
  }

  lemma ServeKeepsWire(s: State, r: Reply)
    requires Wire(s) && Enabled(s, Serve(r))
    ensures Wire(Dispatch(s, r))
  {
    var p := s.net.up[0];
    assert p in s.net.up && p.session == s.server.session;
    AnswerKeepsIdentity(p, r);
    DispatchFlow(s, r, CallIn);
    var t := Dispatch(s, r);
    assert t.net.up == s.net.up[1..];
    assert forall q | q in t.net.up :: q in s.net.up;
    assert t.net.waiters == if Forks(p, r) then s.net.waiters + [p] else s.net.waiters;
    assert t.d == s.d && t.server.session == s.server.session;
  }

  lemma ServeKeepsRanges(s: State, r: Reply)
    requires Core(s) && Enabled(s, Serve(r))
    ensures Ranges(Dispatch(s, r))
  {
    var p := s.net.up[0];
    var t := Dequeue(s);
    assert s.net.up == [p] + t.net.up;
    InRangeAppend([p], t.net.up);
    assert p in s.net.up;
    SameFlow(s.(net := t.net), t, CallIn);
    assert Ranges(t);
    if Forks(p, r) {
      InRangeAppend(t.net.waiters, [p]);
    } else {
      AnswerKeepsRanges(Hold(t, HeldAfter(s.server.held, p, r)), AnswerTo(p, r));
    }
  }

  lemma WakeKeepsCore(s: State, i: nat)
    requires Core(s) && Enabled(s, Wake(i))
    ensures Core(Signal(s, i))
  {
    SignalFlow(s, i, CallIn);
    var t := Exit(s, i);
    assert forall q | q in t.net.waiters :: q in s.net.waiters;
    AnswerKeepsRanges(t, WaiterAnswer(s.net.waiters[i]));
  }

  lemma UnhandKeepsRanges(s: State)
    requires Ranges(s) && s.d.hand.Some?
    ensures Ranges(Unhand(s)) && s.d.hand.value.app <= CAPI_MAXAPPL
  {
    UnhandFlow(s, CallIn);
    InRangeAppend([s.d.hand.value], Inbox(Unhand(s)));
    assert s.d.hand.value in [s.d.hand.value];
  }

  /** Handling a packet sends token requests and nothing else. */
  ghost predicate Framed(s: State, t: State) {
    t.server == s.server && Inbox(t) == Inbox(s) && t.card.queue == s.card.queue &&
    forall p | p in t.net.up && !IsToken(p.kind) :: p in s.net.up
  }

  lemma SendFramed(s: State, kind: Kind, app: nat)
    requires IsToken(kind)
    ensures Framed(s, Send(s, kind, app))
  {
  }

  lemma CompleteFramed(s: State, call: Call, a: Packet)
    ensures Framed(s, Complete(s, call, a))
  {
    SendFramed(SetMode(s, Idle), WaitForSignal, a.app);
  }

  lemma HandleFrame(s: State)
    requires s.d.hand.Some?
    ensures var t := HandlePacket(s);
      t.server == s.server && Inbox(t) == Inbox(Unhand(s)) && t.card.queue == s.card.queue &&
      forall p | p in t.net.up && !IsToken(p.kind) :: p in s.net.up
    ensures forall p | p in Inbox(HandlePacket(s)) :: p in Inbox(s)
  {
    var a, u := s.d.hand.value, Unhand(s);
    UnhandFlow(s, CallIn);
    if Awaited(s.d, a) {
      CompleteFramed(u, s.d.mode.call, a);
    } else if IsToken(a.kind) {
      SendFramed(u, NextKind(a.kind), a.app);
    }
  }

  lemma RegisteredKeepsCore(s: State, appl: nat, a: Packet)
    requires Core(s) && a.app <= CAPI_MAXAPPL
    ensures Core(Registered(s, appl, a))
  {
    var t := Send(s, WaitForSignal, a.app);
    SendKeepsWire(s, WaitForSignal, a.app);
    SendKeepsRanges(s, WaitForSignal, a.app);
    if a.perror == PERROR_NONE {
      SameFlow(t, Registered(s, appl, a), CallIn);
    } else {
      SameFlow(s, Registered(s, appl, a), CallIn);
    }
  }

  lemma CompleteKeepsCore(s: State)
    requires Core(s) && Enabled(s, Handle) && Awaited(s.d, s.d.hand.value)
    ensures Core(HandlePacket(s))
  {
    var a := s.d.hand.value;
    HandOnlyTokensOrTheAnswer(s);
    UnhandKeepsRanges(s);
    UnhandFlow(s, CallIn);
    var u := SetMode(Unhand(s), Idle);
    SameFlow(Unhand(s), u, CallIn);
    assert Flow(u, CallIn) == multiset{};
    RegisteredKeepsCore(u, s.d.mode.call.appl, a);
  }

  /** The token's next request. */
  function NextKind(k: Kind): Kind {
    if k.WaitForSignal? then GetMessage else WaitForSignal
  }

  lemma PassedOn(s: State)
    requires Core(s) && Enabled(s, Handle) && !Awaited(s.d, s.d.hand.value)
    ensures var a := s.d.hand.value;
      IsToken(a.kind) && HandlePacket(s) == Send(Unhand(s), NextKind(a.kind), a.app)
  {
    HandOnlyTokensOrTheAnswer(s);
  }

  lemma ServePacketKeepsCore(s: State)
    requires Core(s) && Enabled(s, Handle) && !Awaited(s.d, s.d.hand.value)
    ensures Core(HandlePacket(s))
  {
    var a := s.d.hand.value;
    PassedOn(s);
    UnhandKeepsRanges(s);
    UnhandFlow(s, CallIn);
    assert Wire(Unhand(s));
    SendKeepsWire(Unhand(s), NextKind(a.kind), a.app);
    SendKeepsRanges(Unhand(s), NextKind(a.kind), a.app);
  }

  lemma ObeyKeepsCore(s: State, m: Message)
    requires Core(s) && s.d.mode.Idle? && |m| >= 6 && Addressed(m)
    ensures Core(Obey(s, m))
  {
    var appl := AppId(m);
    if Command(m) != TYPE_PROXY {
      BeginKeepsCore(s, PutCall(appl), Lookup(s.d.ltr, appl));
    } else if Subcommand(m) == TYPE_REGISTER_APP {
      BeginKeepsCore(s, RegisterCall(appl), 0);
    } else if Subcommand(m) == TYPE_RELEASE_APP {
      SameFlow(s, Unlive(s, appl), CallIn);
      BeginKeepsCore(Unlive(s, appl), ReleaseCall(appl), appl);
    } else {
      SameFlow(s, Obey(s, m), CallIn);
    }
  }

  lemma TookKeepsCore(s: State)
    requires Core(s)
    ensures var (c, r) := Read(s.card, DAEMON_BUFFER, 0);
      if r.Delivered? then |r.m| >= 6 && Addressed(r.m) && Core(Took(s, c, r.m)) else Core(s.(card := c))
  {
    ReadTakes(s.card, DAEMON_BUFFER, 0);
    var (c, r) := Read(s.card, DAEMON_BUFFER, 0);
    assert forall m | m in c.queue :: m in s.card.queue;
    if r.Delivered? {
      assert r.m in s.card.queue;
      SameFlow(s, Took(s, c, r.m), CallIn);
    } else {
      SameFlow(s, s.(card := c), CallIn);
    }
  }

  lemma ReadKeepsCore(s: State)
    requires Core(s) && Enabled(s, FromModule)
    ensures Core(ReadModule(s))
  {
    TookKeepsCore(s);
    var (c, r) := Read(s.card, DAEMON_BUFFER, 0);
    if r.Delivered? {
      ObeyKeepsCore(Took(s, c, r.m), r.m);
    }
  }

  lemma KernelKeepsCore(s: State, op: KernelOp)
    requires Core(s) && Enabled(s, FromKernel(op))
    ensures Core(KernelStep(s, op))
  {
    KernelQueue(s.card, op);
    SameFlow(s, KernelStep(s, op), CallIn);
    PostedAddressed(s.card, op);
  }

  lemma PostedAddressed(c: Card, op: KernelOp)
    requires WellFormed(c) && Allowed(op) && (op.SendMessage? ==> Addressed(op.m))
    ensures forall m | m in Posted(c, op) :: Addressed(m)
  {
  }

  lemma StepKeepsCore(s: State, a: Action)
    requires Core(s) && Enabled(s, a)
    ensures Core(Step(s, a))
  {
    match a
    case Serve(r) =>
      ServeKeepsWire(s, r);
      ServeKeepsRanges(s, r);
    case Wake(i) => WakeKeepsCore(s, i);
    case Receive => TakeFlow(s, CallIn);
    case Handle => if Awaited(s.d, s.d.hand.value) { CompleteKeepsCore(s); } else { ServePacketKeepsCore(s); }
    case FromModule => ReadKeepsCore(s);
    case FromKernel(op) => KernelKeepsCore(s, op);
  }

  lemma InitialCore(s: State)
    requires Initial(s)
    ensures Core(s)
  {
    assert Inbox(s) == [];
  }

  lemma {:induction false} RunKeepsCore(s: State, acts: seq<Action>)
    requires Core(s) && IsRun(s, acts)
    ensures Core(Exec(s, acts))
    decreases |acts|
  {
    if acts != [] {
      StepKeepsCore(s, acts[0]);
      RunKeepsCore(Step(s, acts[0]), acts[1..]);
    }
  }

  // ---- tokens -----------------------------------------------------------------------------

  /** The remote ids of all tokens, wherever they are: WAITFORSIGNAL and GETMESSAGE requests
      and answers in both channels and in the daemon's hand, and the forked waiters. */
  function Tokens(s: State): multiset<nat> {
    Flow(s, TokenIn)
  }

  ghost predicate TokensConserved(s: State) {
    Tokens(s) == s.h.accepted
  }

  lemma RegisteredKeepsTokens(s: State, appl: nat, a: Packet)
    requires TokensConserved(s)
    ensures TokensConserved(Registered(s, appl, a))
  {
    var t := Send(s, WaitForSignal, a.app);
    if a.perror == PERROR_NONE {
      SendFlow(s, WaitForSignal, a.app, TokenIn);
      SameFlow(t, Registered(s, appl, a), TokenIn);
    } else {
      SameFlow(s, Registered(s, appl, a), TokenIn);
    }
  }

  lemma HandleKeepsTokens(s: State)
    requires Core(s) && Enabled(s, Handle) && TokensConserved(s)
    ensures TokensConserved(HandlePacket(s))
  {
    var a := s.d.hand.value;
    UnhandFlow(s, TokenIn);
    if Awaited(s.d, a) {
      assert TokenIn(a) == multiset{};
      CompleteKeepsTokens(Unhand(s), s.d.mode.call, a);
    } else {
      PassedOn(s);
      PassKeepsTokens(Unhand(s), a);
    }
  }

  lemma PassKeepsTokens(s: State, a: Packet)
    requires Tokens(s) + multiset{a.app} == s.h.accepted
    ensures TokensConserved(Send(s, NextKind(a.kind), a.app))
  {
    SendFlow(s, NextKind(a.kind), a.app, TokenIn);
  }

  lemma CompleteKeepsTokens(s: State, call: Call, a: Packet)
    requires TokensConserved(s)
    ensures TokensConserved(Complete(s, call, a))
  {
    var u := SetMode(s, Idle);
    SameFlow(s, u, TokenIn);
    RegisteredKeepsTokens(u, call.appl, a);
  }

  lemma BeginKeepsTokens(s: State, call: Call, app: nat)
    requires TokensConserved(s)
    ensures TokensConserved(Begin(s, call, app))
  {
    SendFlow(s, KindOf(call), app, TokenIn);
    SameFlow(Send(s, KindOf(call), app), Begin(s, call, app), TokenIn);
  }

  lemma ReadKeepsTokens(s: State)
    requires Enabled(s, FromModule) && TokensConserved(s)
    ensures TokensConserved(ReadModule(s))
  {
    ReadTakes(s.card, DAEMON_BUFFER, 0);
    var (c, r) := Read(s.card, DAEMON_BUFFER, 0);
    if r.Delivered? {
      SameFlow(s, Took(s, c, r.m), TokenIn);
      ObeyKeepsTokens(Took(s, c, r.m), r.m);
    }
  }

  lemma ObeyKeepsTokens(s: State, m: Message)
    requires |m| >= 6 && TokensConserved(s)
    ensures TokensConserved(Obey(s, m))
  {
    var appl := AppId(m);
    if Command(m) != TYPE_PROXY {
      BeginKeepsTokens(s, PutCall(appl), Lookup(s.d.ltr, appl));
    } else if Subcommand(m) == TYPE_REGISTER_APP {
      BeginKeepsTokens(s, RegisterCall(appl), 0);
    } else if Subcommand(m) == TYPE_RELEASE_APP {
      SameFlow(s, Unlive(s, appl), TokenIn);
      BeginKeepsTokens(Unlive(s, appl), ReleaseCall(appl), appl);
    } else {
      SameFlow(s, Obey(s, m), TokenIn);
    }
  }

  /** One step neither creates nor loses a token, except that accepting a registration
      starts one. */
  lemma StepKeepsTokens(s: State, a: Action)
    requires Core(s) && Enabled(s, a) && TokensConserved(s)
    ensures TokensConserved(Step(s, a))
  {
    match a
    case Serve(r) =>
      assert s.net.up[0] in s.net.up;
      AnswerKeepsIdentity(s.net.up[0], r);
      DispatchFlow(s, r, TokenIn);
    case Wake(i) => SignalFlow(s, i, TokenIn);
    case Receive => TakeFlow(s, TokenIn);
    case Handle => HandleKeepsTokens(s);
    case FromModule => ReadKeepsTokens(s);
    case FromKernel(op) => SameFlow(s, KernelStep(s, op), TokenIn);
  }

  /** Token conservation over every run of an established session. */
  lemma {:induction false} RunKeepsTokens(s: State, acts: seq<Action>)
    requires Core(s) && TokensConserved(s) && IsRun(s, acts)
    ensures Core(Exec(s, acts)) && TokensConserved(Exec(s, acts))
    decreases |acts|
  {
    if acts != [] {
      StepKeepsCore(s, acts[0]);
      StepKeepsTokens(s, acts[0]);
      RunKeepsTokens(Step(s, acts[0]), acts[1..]);
    }
  }

  lemma TokenConservation(s: State, acts: seq<Action>)
    requires Initial(s) && IsRun(s, acts)
    ensures Tokens(Exec(s, acts)) == Exec(s, acts).h.accepted
  {
    InitialCore(s);
    RunKeepsTokens(s, acts);
  }
}
