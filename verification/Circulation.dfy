/** How many tokens an application has, and a run in which the daemon waits for all of them. */
module Circulation {
  import opened CapiMessage
  import opened CardModel
  import opened Protocol
  import opened Conservation
  import opened BoundedWait
  import opened IdMaps
  import opened Scenarios

  // ---- one token for each application -----------------------------------------------------

  lemma AcceptedGrows(s: State, a: Action)
    requires Enabled(s, a)
    ensures Step(s, a).h.accepted ==
      s.h.accepted + if IdMaps.Accepts(s, a) then multiset{s.d.hand.value.app} else multiset{}
  {
    match a
    case Serve(r) =>
    case Wake(i) =>
    case Receive =>
    case Handle =>
    case FromModule =>
    case FromKernel(op) =>
  }

  lemma {:induction false} AcceptedStays(s: State, acts: seq<Action>, r: nat)
    requires IsRun(s, acts)
    ensures s.h.accepted[r] <= Exec(s, acts).h.accepted[r]
    decreases |acts|
  {
    if acts != [] {
      AcceptedGrows(s, acts[0]);
      AcceptedStays(Step(s, acts[0]), acts[1..], r);
    }
  }

  predicate AtMostOnce(m: multiset<nat>, r: nat) {
    m[r] <= 1
  }

  ghost predicate Single(m: multiset<nat>) {
    forall r: nat :: AtMostOnce(m, r)
  }

  /** An accepted registration brings a remote id never accepted before in the session. */
  predicate Unseen(s: State, a: Action) {
    IdMaps.Accepts(s, a) ==> s.h.accepted[s.d.hand.value.app] == 0
  }

  predicate UnseenRun(s: State, acts: seq<Action>)
    requires IsRun(s, acts)
    decreases |acts|
  {
    acts == [] || (Unseen(s, acts[0]) && UnseenRun(Step(s, acts[0]), acts[1..]))
  }

  lemma {:induction false} SingleIffUnseen(s: State, acts: seq<Action>)
    requires Single(s.h.accepted) && IsRun(s, acts)
    ensures Single(Exec(s, acts).h.accepted) <==> UnseenRun(s, acts)
    decreases |acts|
  {
    if acts != [] {
      var t := Step(s, acts[0]);
      AcceptedGrows(s, acts[0]);
      if Unseen(s, acts[0]) {
        assert forall r: nat :: AtMostOnce(s.h.accepted, r) ==> AtMostOnce(t.h.accepted, r);
        SingleIffUnseen(t, acts[1..]);
      } else {
        var r := s.d.hand.value.app;
        AcceptedStays(t, acts[1..], r);
        assert !AtMostOnce(Exec(t, acts[1..]).h.accepted, r);
      }
    }
  }

  /** Every token in the session carries an id of its own exactly if no remote id was accepted
      a second time; releasing an application retires no token. */
  lemma TokensDistinctIffUnseen(s: State, acts: seq<Action>)
    requires Initial(s) && IsRun(s, acts)
    ensures Single(Tokens(Exec(s, acts))) <==> UnseenRun(s, acts)
  {
    TokenConservation(s, acts);
    SingleIffUnseen(s, acts);
  }

  /** The remote ids of live applications were accepted. */
  ghost predicate LiveAccepted(s: State) {
    forall a | a in s.h.live :: s.h.accepted[Lookup(s.d.ltr, a)] >= 1
  }

  lemma StepKeepsLiveAccepted(s: State, a: Action)
    requires Mapped(s) && LiveAccepted(s) && Enabled(s, a)
    ensures LiveAccepted(Step(s, a))
  {
    AcceptedGrows(s, a);
    if IdMaps.Accepts(s, a) {
      MapsUpdated(s, a);
    } else {
      MapsUntouched(s, a);
    }
  }

  lemma {:induction false} RunKeepsLiveAccepted(s: State, acts: seq<Action>)
    requires Mapped(s) && LiveAccepted(s) && IsRun(s, acts)
    ensures LiveAccepted(Exec(s, acts))
    decreases |acts|
  {
    if acts != [] {
      StepKeepsMapped(s, acts[0]);
      StepKeepsLiveAccepted(s, acts[0]);
      RunKeepsLiveAccepted(Step(s, acts[0]), acts[1..]);
    }
  }

  /** A live application always has a token, and exactly one if and only if its remote id was
      accepted once. */
  lemma LiveHasToken(s: State, acts: seq<Action>, a: nat)
    requires Initial(s) && IsRun(s, acts) && a in Exec(s, acts).h.live
    ensures var t := Exec(s, acts);
      var r := Lookup(t.d.ltr, a);
      Tokens(t)[r] >= 1 && (Tokens(t)[r] == 1 <==> t.h.accepted[r] == 1)
  {
    InitialCore(s);
    TokenConservation(s, acts);
    RunKeepsLiveAccepted(s, acts);
  }

  // ---- whose turn it is -------------------------------------------------------------------

  function WaitIn(p: Packet): multiset<nat> {
    if p.kind.WaitForSignal? then multiset{p.app} else multiset{}
  }

  function GetIn(p: Packet): multiset<nat> {
    if p.kind.GetMessage? then multiset{p.app} else multiset{}
  }

  /** What answers of one type, and `start`, make the daemon ask for: a request of the other type
      for each that it has handled, and none besides. */
  ghost predicate Owed<X>(
    start: multiset<X>, answered: seq<Packet>, sent: seq<Packet>, inbox: seq<Packet>,
    f: Packet -> multiset<X>, g: Packet -> multiset<X>)
  {
    start + Bag(answered, f) == Bag(sent, g) + Bag(inbox, f)
  }

  lemma BothMore<X>(a: multiset<X>, b: multiset<X>, c: multiset<X>, d: multiset<X>, x: multiset<X>)
    requires a + b == c + d
    ensures a + (b + x) == c + (d + x) && (a + x) + b == (c + x) + d
  {
    assert a + (b + x) == (a + b) + x && (a + x) + b == (a + b) + x;
    assert c + (d + x) == (c + d) + x && (c + x) + d == (c + d) + x;
  }

  lemma OwedAnswer<X>(
    start: multiset<X>, answered: seq<Packet>, sent: seq<Packet>, inbox: seq<Packet>,
    f: Packet -> multiset<X>, g: Packet -> multiset<X>, a: Packet)
    requires Owed(start, answered, sent, inbox, f, g)
    ensures Owed(start, answered + [a], sent, inbox + [a], f, g)
  {
    BagSnoc(answered, a, f);
    BagSnoc(inbox, a, f);
    BothMore(start, Bag(answered, f), Bag(sent, g), Bag(inbox, f), f(a));
  }

  /** A packet is handled with one request. */
  lemma OwedRequest<X>(
    start: multiset<X>, answered: seq<Packet>, sent: seq<Packet>, a: Packet, inbox: seq<Packet>,
    f: Packet -> multiset<X>, g: Packet -> multiset<X>, q: Packet)
    requires Owed(start, answered, sent, [a] + inbox, f, g) && f(a) == g(q)
    ensures Owed(start, answered, sent + [q], inbox, f, g)
  {
    BagSnoc(sent, q, g);
    BagAppend([a], inbox, f);
    BagOne(a, f);
  }

  /** A request of another type is sent. */
  lemma OwedCall<X>(
    start: multiset<X>, answered: seq<Packet>, sent: seq<Packet>, inbox: seq<Packet>,
    f: Packet -> multiset<X>, g: Packet -> multiset<X>, q: Packet)
    requires Owed(start, answered, sent, inbox, f, g) && g(q) == multiset{}
    ensures Owed(start, answered, sent + [q], inbox, f, g)
  {
    BagSnoc(sent, q, g);
  }

  /** A packet of another type is handled without a request. */
  lemma OwedDrop<X>(
    start: multiset<X>, answered: seq<Packet>, sent: seq<Packet>, a: Packet, inbox: seq<Packet>,
    f: Packet -> multiset<X>, g: Packet -> multiset<X>)
    requires Owed(start, answered, sent, [a] + inbox, f, g) && f(a) == multiset{}
    ensures Owed(start, answered, sent, inbox, f, g)
  {
    BagAppend([a], inbox, f);
    BagOne(a, f);
  }

  ghost predicate Turns(s: State) {
    GetsOwed(s, Inbox(s)) && WaitsOwed(s, Inbox(s))
  }

  ghost predicate GetsOwed(s: State, inbox: seq<Packet>) {
    Owed(multiset{}, s.h.answered, s.h.sent, inbox, WaitIn, GetIn)
  }

  ghost predicate WaitsOwed(s: State, inbox: seq<Packet>) {
    Owed(s.h.accepted, s.h.answered, s.h.sent, inbox, GetIn, WaitIn)
  }

  lemma SameTurns(s: State, t: State)
    requires Turns(s) && t.h.sent == s.h.sent && Inbox(t) == Inbox(s)
    requires t.h.answered == s.h.answered && t.h.accepted == s.h.accepted
    ensures Turns(t)
  {
  }

  lemma AnswerKeepsTurns(s: State, a: Packet)
    requires Turns(s)
    ensures Turns(Answer(s, a))
  {
    AnswerFlow(s, a, WaitIn);
    OwedAnswer(multiset{}, s.h.answered, s.h.sent, Inbox(s), WaitIn, GetIn, a);
    OwedAnswer(s.h.accepted, s.h.answered, s.h.sent, Inbox(s), GetIn, WaitIn, a);
  }

  /** A call is not a token's business. */
  lemma CallKeepsTurns(s: State, kind: Kind, app: nat)
    requires Turns(s) && !IsToken(kind)
    ensures Turns(Send(s, kind, app))
  {
    var q := RequestOf(s.d, kind, app);
    OwedCall(multiset{}, s.h.answered, s.h.sent, Inbox(s), WaitIn, GetIn, q);
    OwedCall(s.h.accepted, s.h.answered, s.h.sent, Inbox(s), GetIn, WaitIn, q);
    assert Inbox(Send(s, kind, app)) == Inbox(s);
  }

  lemma PassKeepsTurns(s: State)
    requires Core(s) && Turns(s) && Enabled(s, Handle) && !Awaited(s.d, s.d.hand.value)
    ensures Turns(HandlePacket(s))
  {
    var a, u := s.d.hand.value, Unhand(s);
    UnhandFlow(s, CallIn);
    PassedOn(s);
    var q := RequestOf(u.d, NextKind(a.kind), a.app);
    PassIsPaid(s, a, Inbox(u), q);
    assert HandlePacket(s).h == s.h.(sent := s.h.sent + [q]) && Inbox(HandlePacket(s)) == Inbox(u);
  }

  lemma PassIsPaid(s: State, a: Packet, inbox: seq<Packet>, q: Packet)
    requires GetsOwed(s, [a] + inbox) && WaitsOwed(s, [a] + inbox)
    requires IsToken(a.kind) && q.app == a.app && q.kind == NextKind(a.kind)
    ensures GetsOwed(s.(h := s.h.(sent := s.h.sent + [q])), inbox)
    ensures WaitsOwed(s.(h := s.h.(sent := s.h.sent + [q])), inbox)
  {
    OwedRequest(multiset{}, s.h.answered, s.h.sent, a, inbox, WaitIn, GetIn, q);
    OwedRequest(s.h.accepted, s.h.answered, s.h.sent, a, inbox, GetIn, WaitIn, q);
  }

  lemma CallIsDropped(s: State, a: Packet, inbox: seq<Packet>)
    requires GetsOwed(s, [a] + inbox) && WaitsOwed(s, [a] + inbox) && !IsToken(a.kind)
    ensures GetsOwed(s, inbox) && WaitsOwed(s, inbox)
  {
    OwedDrop(multiset{}, s.h.answered, s.h.sent, a, inbox, WaitIn, GetIn);
    OwedDrop(s.h.accepted, s.h.answered, s.h.sent, a, inbox, GetIn, WaitIn);
  }

  lemma CompleteKeepsTurns(s: State)
    requires Core(s) && Turns(s) && Enabled(s, Handle) && Awaited(s.d, s.d.hand.value)
    ensures Turns(HandlePacket(s))
  {
    var a, u := s.d.hand.value, SetMode(Unhand(s), Idle);
    UnhandFlow(s, CallIn);
    SameFlow(Unhand(s), u, CallIn);
    CallIsDropped(s, a, Inbox(u));
    assert Turns(u);
    if s.d.mode.call.RegisterCall? {
      RegisteredKeepsTurns(u, s.d.mode.call.appl, a);
    }
  }

  lemma RegisteredKeepsTurns(s: State, appl: nat, a: Packet)
    requires Turns(s)
    ensures Turns(Registered(s, appl, a))
  {
    var t := Registered(s, appl, a);
    var q := RequestOf(s.d, WaitForSignal, a.app);
    assert Inbox(t) == Inbox(s);
    if a.perror == PERROR_NONE {
      OwedCall(multiset{}, s.h.answered, s.h.sent, Inbox(s), WaitIn, GetIn, q);
      OwedMore(s.h.accepted, s.h.answered, s.h.sent, Inbox(s), GetIn, WaitIn, q);
      assert t.h.sent == s.h.sent + [q] && t.h.accepted == s.h.accepted + WaitIn(q);
    }
  }

  lemma OwedMore<X>(
    start: multiset<X>, answered: seq<Packet>, sent: seq<Packet>, inbox: seq<Packet>,
    f: Packet -> multiset<X>, g: Packet -> multiset<X>, q: Packet)
    requires Owed(start, answered, sent, inbox, f, g)
    ensures Owed(start + g(q), answered, sent + [q], inbox, f, g)
  {
    BagSnoc(sent, q, g);
    BothMore(start, Bag(answered, f), Bag(sent, g), Bag(inbox, f), g(q));
  }

  lemma BeginKeepsTurns(s: State, call: Call, app: nat)
    requires Turns(s)
    ensures Turns(Begin(s, call, app))
  {
    CallKeepsTurns(s, KindOf(call), app);
    SameTurns(Send(s, KindOf(call), app), Begin(s, call, app));
  }

  lemma ObeyKeepsTurns(s: State, m: Message)
    requires Turns(s) && |m| >= 6
    ensures Turns(Obey(s, m))
  {
    var appl := AppId(m);
    if Command(m) != TYPE_PROXY {
      BeginKeepsTurns(s, PutCall(appl), Lookup(s.d.ltr, appl));
    } else if Subcommand(m) == TYPE_REGISTER_APP {
      BeginKeepsTurns(s, RegisterCall(appl), 0);
    } else if Subcommand(m) == TYPE_RELEASE_APP {
      SameTurns(s, Unlive(s, appl));
      BeginKeepsTurns(Unlive(s, appl), ReleaseCall(appl), appl);
    } else {
      SameTurns(s, Obey(s, m));
    }
  }

  lemma StepKeepsTurns(s: State, a: Action)
    requires Core(s) && Turns(s) && Enabled(s, a)
    ensures Turns(Step(s, a))
  {
    match a
    case Serve(r) => ServeKeepsTurns(s, r);
    case Wake(i) =>
      SameTurns(s, Exit(s, i));
      AnswerKeepsTurns(Exit(s, i), WaiterAnswer(s.net.waiters[i]));
    case Receive =>
      TakeFlow(s, CallIn);
    case Handle => if Awaited(s.d, s.d.hand.value) { CompleteKeepsTurns(s); } else { PassKeepsTurns(s); }
    case FromModule => ReadKeepsTurns(s);
    case FromKernel(op) => SameTurns(s, KernelStep(s, op));
  }

  lemma ServeKeepsTurns(s: State, r: Reply)
    requires Turns(s) && Enabled(s, Serve(r))
    ensures Turns(Dispatch(s, r))
  {
    var p := s.net.up[0];
    if p.session == s.server.session && !Forks(p, r) {
      var t := Hold(Dequeue(s), HeldAfter(s.server.held, p, r));
      SameTurns(s, t);
      AnswerKeepsTurns(t, AnswerTo(p, r));
    } else {
      SameTurns(s, Dispatch(s, r));
    }
  }

  lemma ReadKeepsTurns(s: State)
    requires Core(s) && Turns(s) && Enabled(s, FromModule)
    ensures Turns(ReadModule(s))
  {
    TookKeepsCore(s);
    var (c, r) := Read(s.card, DAEMON_BUFFER, 0);
    if r.Delivered? {
      SameTurns(s, Took(s, c, r.m));
      ObeyKeepsTurns(Took(s, c, r.m), r.m);
    }
  }

  lemma {:induction false} RunKeepsTurns(s: State, acts: seq<Action>)
    requires Core(s) && Turns(s) && IsRun(s, acts)
    ensures Turns(Exec(s, acts))
    decreases |acts|
  {
    if acts != [] {
      StepKeepsCore(s, acts[0]);
      StepKeepsTurns(s, acts[0]);
      RunKeepsTurns(Step(s, acts[0]), acts[1..]);
    }
  }

  /** Over every run, for each remote id r: every WAITFORSIGNAL answer that the daemon has handled
      made it send one GETMESSAGE request for r, and nothing else did; every GETMESSAGE answer it
      has handled and every accepted registration made it send one WAITFORSIGNAL request, and
      nothing else did. */
  lemma TokensTakeTurns(s: State, acts: seq<Action>, r: nat)
    requires Initial(s) && IsRun(s, acts)
    ensures var t := Exec(s, acts);
      Bag(t.h.answered, WaitIn)[r] == Bag(t.h.sent, GetIn)[r] + Bag(Inbox(t), WaitIn)[r]
    ensures var t := Exec(s, acts);
      t.h.accepted[r] + Bag(t.h.answered, GetIn)[r] == Bag(t.h.sent, WaitIn)[r] + Bag(Inbox(t), GetIn)[r]
  {
    InitialCore(s);
    assert Inbox(s) == [];
    RunKeepsTurns(s, acts);
    OwedAt(multiset{}, Exec(s, acts), WaitIn, GetIn, r);
    OwedAt(Exec(s, acts).h.accepted, Exec(s, acts), GetIn, WaitIn, r);
  }

  lemma OwedAt<X>(start: multiset<X>, t: State, f: Packet -> multiset<X>, g: Packet -> multiset<X>, r: X)
    requires Owed(start, t.h.answered, t.h.sent, Inbox(t), f, g)
    ensures start[r] + Bag(t.h.answered, f)[r] == Bag(t.h.sent, g)[r] + Bag(Inbox(t), f)[r]
  {
    assert (start + Bag(t.h.answered, f))[r] == (Bag(t.h.sent, g) + Bag(Inbox(t), f))[r];
  }

  // ---- many tokens ------------------------------------------------------------------------

  /** Application 1 comes and goes n times under remote id 1, and leaves n waiters. */
  lemma {:induction false} ComeAndGo(s: State, n: nat) returns (run: seq<Action>)
    requires FreshCard(s)
    ensures IsRun(s, run)
    ensures var t := Exec(s, run);
      Quiet(t) && AppOf(t.card, 1).Unused? && t.server.held == {} && t.h.live == {} &&
      |t.net.waiters| == n && |t.h.accepted| == n && t.h.accepted[1] == n
  {
    run := [];
    if n > 0 {
      run := ComeAndGo(s, n - 1);
      var t := Exec(s, run);
      var next := RegisterRound(t, 1, true, 1);
      Join(s, run, next);
      run := run + next;
      var u := Exec(t, next);
      next := ReleaseRound(u, 1);
      Join(s, run, next);
      run := run + next;
    }
  }

  /** A run after which n tokens circulate for application 1, the only one that is live and the
      only one CAPI holds: its remote id has been handed out n times. */
  lemma TokensPileUp(s: State, n: nat) returns (run: seq<Action>)
    requires FreshCard(s) && n > 0
    ensures IsRun(s, run)
    ensures var t := Exec(s, run);
      t.h.live == {1} && Lookup(t.d.ltr, 1) == 1 && t.server.held == {1} && Tokens(t)[1] == n
  {
    run := ComeAndGo(s, n - 1);
    var t := Exec(s, run);
    var next := RegisterRound(t, 1, true, 1);
    Join(s, run, next);
    run := run + next;
    TokenConservation(s, run);
  }

  // ---- the bound is reached ---------------------------------------------------------------

  /** All waiters answer. */
  lemma {:induction false} WakeAll(s: State) returns (acts: seq<Action>)
    ensures IsRun(s, acts)
    ensures var t := Exec(s, acts);
      t.net.up == s.net.up && t.net.waiters == [] && |t.net.down| == |s.net.down| + |s.net.waiters| &&
      t.d == s.d && t.server == s.server && t.card == s.card && t.h.accepted == s.h.accepted
    decreases |s.net.waiters|
  {
    acts := [];
    if s.net.waiters != [] {
      var t := Step(s, Wake(0));
      assert |t.net.waiters| == |s.net.waiters| - 1;
      var rest := WakeAll(t);
      acts := [Wake(0)] + rest;
      assert acts[1..] == rest;
    }
  }

  /** A spinning daemon services everything in the channel before the server turns to its call. */
  lemma {:induction false} ServiceAll(s: State) returns (acts: seq<Action>)
    requires Core(s) && s.d.mode.Waiting? && s.d.mode.call.PutCall? && s.d.hand.None?
    requires s.net.up != [] && s.net.up[0].kind.PutMessage?
    ensures IsRun(s, acts) && Spins(s, acts) && Handled(acts) == |s.net.down|
    ensures var t := Exec(s, acts).d; t.hand.Some? && Awaited(t, t.hand.value)
    decreases |s.net.down|
  {
    if s.net.down == [] {
      acts := AnswerPut(s);
    } else {
      var t, u := ServiceOne(s);
      var rest := ServiceAll(u);
      acts := [Receive, Handle] + rest;
      TwoSteps(s, t, u, Receive, Handle, rest);
    }
  }

  lemma TwoSteps(s: State, t: State, u: State, a: Action, b: Action, rest: seq<Action>)
    requires Enabled(s, a) && t == Step(s, a) && Enabled(t, b) && u == Step(t, b) && IsRun(u, rest)
    requires s.d.mode.Waiting? && t.d.mode == u.d.mode == s.d.mode && Spins(u, rest) && !a.Handle?
    ensures var acts := [a, b] + rest;
      IsRun(s, acts) && Spins(s, acts) && Exec(s, acts) == Exec(u, rest) &&
      Handled(acts) == Handled(rest) + if b.Handle? then 1 else 0
  {
    var acts := [a, b] + rest;
    assert acts[1..] == [b] + rest && acts[1..][1..] == rest;
  }

  lemma ServiceOne(s: State) returns (t: State, u: State)
    requires Core(s) && s.d.mode.Waiting? && s.d.hand.None? && s.net.down != []
    requires s.net.up != [] && s.net.up[0].kind == KindOf(s.d.mode.call)
    ensures Enabled(s, Receive) && t == Step(s, Receive) && Enabled(t, Handle) && u == Step(t, Handle)
    ensures Core(u) && t.d.mode == u.d.mode == s.d.mode && u.d.hand.None?
    ensures |u.net.down| == |s.net.down| - 1 && u.net.up != [] && u.net.up[0] == s.net.up[0]
  {
    t := Step(s, Receive);
    StepKeepsCore(s, Receive);
    CallIsSomewhere(t);
    var a := t.d.hand.value;
    assert Inbox(t)[0] == a;
    assert FirstCall(t.net.up) == 0;
    assert IsToken(a.kind);
    PassedOn(t);
    StepKeepsCore(t, Handle);
    u := Step(t, Handle);
  }

  lemma AnswerPut(s: State) returns (acts: seq<Action>)
    requires Core(s) && s.d.mode.Waiting? && s.d.mode.call.PutCall? && s.d.hand.None? && s.net.down == []
    requires s.net.up != [] && s.net.up[0].kind.PutMessage?
    ensures IsRun(s, acts) && Spins(s, acts) && Handled(acts) == 0
    ensures var t := Exec(s, acts).d; t.hand.Some? && Awaited(t, t.hand.value)
  {
    var serve := Serve(Reply(false, 0, false));
    assert s.net.up[0] in s.net.up;
    var t := Step(s, serve);
    assert t.d == s.d && t.net.down == [AnswerTo(s.net.up[0], serve.r)];
    var u := Step(t, Receive);
    acts := [serve, Receive];
    assert acts[1..] == [Receive] && acts[1..][1..] == [];
    assert IsRun(u, []) && Spins(u, []) && Exec(u, []) == u;
    assert IsRun(t, [Receive]) && Spins(t, [Receive]) && Exec(t, [Receive]) == u && Handled([Receive]) == 0;
  }

  /** A message from an application, such as the kernel queues them. */
  predicate FromApplication(m: Message) {
    6 <= |m| <= DAEMON_BUFFER && Command(m) != TYPE_PROXY && Addressed(m)
  }

  /** The daemon reads a message from an application, and begins to put it. */
  lemma PutBegins(s: State, m: Message)
    requires Core(s) && s.net.up == [] && s.d.mode.Idle? && s.d.hand.None?
    requires s.card.queue == [m] && FromApplication(m)
    ensures Enabled(s, FromModule)
    ensures var t := ReadModule(s);
      Core(t) && t.d.mode.Waiting? && t.d.mode.call.PutCall? && t.d.hand.None? &&
      |t.net.up| == 1 && t.net.up[0].kind.PutMessage? && t.net.down == s.net.down
  {
    ReadOne(s, m);
    ReadKeepsCore(s);
  }

  /** n tokens, all of them in the channel, and a message in the card's queue. */
  lemma AllAnswered(s: State, n: nat, m: Message) returns (run: seq<Action>)
    requires FreshCard(s) && FromApplication(m)
    ensures IsRun(s, run)
    ensures var t := Exec(s, run);
      t.net.up == [] && |t.net.down| == n && t.d.mode.Idle? && t.d.hand.None? && |t.h.accepted| == n &&
      t.card.queue == [m]
  {
    run := ComeAndGo(s, n);
    var t := Exec(s, run);
    var next := WakeAll(t);
    Join(s, run, next);
    run := run + next;
    assert t.card == Exec(s, run).card;
    var post := FromKernel(SendMessage(m));
    Extend(s, run, post);
    run := run + [post];
  }

  /** A call begun in `t` waits for `n` packets before its answer, as many as there are tokens. */
  ghost predicate ReachesBound(t: State, acts: seq<Action>, n: nat) {
    Core(t) && TokensConserved(t) && |t.h.accepted| == |t.net.down| == n &&
    Enabled(t, FromModule) && ReadModule(t).d.mode.Waiting? &&
    IsRun(ReadModule(t), acts) && Spins(ReadModule(t), acts) && Handled(acts) == n &&
    var d := Exec(ReadModule(t), acts).d; d.hand.Some? && Awaited(d, d.hand.value)
  }

  /** For every n and any message there is a run after which n registrations have been accepted and n packets
      wait in the channel, and a continuation in which the daemon handles all n of them before
      the answer it waits for. */
  lemma BoundIsReached(s: State, n: nat, m: Message) returns (run: seq<Action>, acts: seq<Action>)
    requires FreshCard(s) && FromApplication(m)
    ensures IsRun(s, run) && ReachesBound(Exec(s, run), acts, n)
  {
    run := AllAnswered(s, n, m);
    InitialCore(s);
    RunKeepsTokens(s, run);
    var t := Exec(s, run);
    PutBegins(t, m);
    acts := ServiceAll(ReadModule(t));
  }
}
