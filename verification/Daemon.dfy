/** The daemon's loops in place, running against a server, waiters and kernel that take any
    steps they can between two of its own. */
module Daemon {
  import opened Bytes
  import opened CapiMessage
  import opened CardModel
  import opened Protocol
  import opened Conservation
  import opened BoundedWait
  import opened Scenarios

  /** Steps of the other parties. */
  predicate Foreign(a: Action) {
    a.Serve? || a.Wake? || a.FromKernel?
  }

  class Session {
    var net: Net
    var server: Server
    var card: Card
    var h: History
    // the daemon's own statics, and where in its program it is
    var mode: Mode
    var hand: Option<Packet>
    var msgid: nat
    const sessionId: nat
    const ltr: array<nat>
    const rtl: array<nat>

    function View(): State
      reads this, ltr, rtl
    {
      State(net, server, Protocol.Daemon(mode, hand, msgid, sessionId, ltr[..], rtl[..]), card, h)
    }

    ghost predicate Valid()
      reads this, ltr, rtl
    {
      ltr != rtl && Core(View())
    }

    constructor (session: nat, firstId: nat, card: Card)
      requires firstId < ID_MODULUS && WellFormed(card) && card.queue == []
      ensures Valid() && Initial(View())
    {
      net := Net([], [], []);
      server := Server(session, {});
      this.card := card;
      h := History(firstId, [], [], multiset{}, {}, {}, [], multiset{}, multiset{}, multiset{}, multiset{});
      mode, hand, msgid, sessionId := Idle, None, firstId, session;
      ltr := new nat[CAPI_MAXAPPL + 1](_ => 0);
      rtl := new nat[CAPI_MAXAPPL + 1](_ => 0);
      new;
      assert ltr[..] == seq(CAPI_MAXAPPL + 1, _ => 0) == rtl[..];
      InitialCore(View());
    }

    // ---- the others -----------------------------------------------------------------------

    /** One step of another party. */
    method ForeignStep(a: Action)
      requires Valid() && Foreign(a) && Enabled(View(), a)
      modifies this`net, this`server, this`card, this`h
      ensures Valid() && View() == Step(old(View()), a)
      ensures h.sent == old(h.sent) && old(net.down) <= net.down
    {
      var t := Step(View(), a);
      ForeignKeepsDaemon(View(), a, t);
      net, server, card, h := t.net, t.server, t.card, t.h;
      assert View() == t;
    }

    /** Any number of steps of the others. */
    method Interfere() returns (ghost acts: seq<Action>)
      requires Valid()
      modifies this`net, this`server, this`card, this`h
      ensures Valid() && IsRun(old(View()), acts) && View() == Exec(old(View()), acts)
      ensures forall a | a in acts :: Foreign(a)
      ensures h.sent == old(h.sent) && old(net.down) <= net.down
    {
      acts := [];
      var n: nat := *;
      while n > 0
        invariant Valid() && IsRun(old(View()), acts) && View() == Exec(old(View()), acts)
        invariant forall a | a in acts :: Foreign(a)
        invariant h.sent == old(h.sent) && old(net.down) <= net.down
      {
        var a: Action := *;
        if Foreign(a) && Enabled(View(), a) {
          Extend(old(View()), acts, a);
          ForeignStep(a);
          acts := acts + [a];
        }
        n := n - 1;
      }
    }

    // ---- the socket -----------------------------------------------------------------------

    /** The server dispatches one request, with any result CAPI allows. */
    method ServeOne() returns (r: Reply)
      requires Valid() && net.up != []
      modifies this`net, this`server, this`card, this`h
      ensures Valid() && Enabled(old(View()), Serve(r)) && View() == Step(old(View()), Serve(r))
      ensures |net.up| < |old(net.up)|
    {
      r := *;
      if !Capi(View(), r) {
        r := Reply(false, 0, false);
      }
      ForeignStep(Serve(r));
    }

    /** Block until the others have put a packet into the channel, which a live server does
        even if no waiter ever wakes. */
    method AwaitPacket() returns (ghost acts: seq<Action>)
      requires Valid() && mode.Waiting? && hand.None?
      modifies this`net, this`server, this`card, this`h
      ensures Valid() && IsRun(old(View()), acts) && View() == Exec(old(View()), acts)
      ensures net.down != [] && forall a | a in acts :: Foreign(a)
    {
      acts := Interfere();
      while net.down == []
        invariant Valid() && IsRun(old(View()), acts) && View() == Exec(old(View()), acts)
        invariant forall a | a in acts :: Foreign(a)
        decreases |net.up|
      {
        CallIsSomewhere(View());
        var r := ServeOne();
        Extend(old(View()), acts, Serve(r));
        acts := acts + [Serve(r)];
      }
    }

    method Take()
      requires Valid() && !mode.Down? && hand.None? && net.down != []
      modifies this`net, this`hand
      ensures Valid() && hand.Some? && View() == Step(old(View()), Receive)
    {
      StepKeepsCore(View(), Receive);
      hand, net := Some(net.down[0]), net.(down := net.down[1..]);
    }

    /** Blocking `recv`. */
    method Recv() returns (ghost acts: seq<Action>)
      requires Valid() && mode.Waiting? && hand.None?
      modifies this`net, this`server, this`card, this`h, this`hand
      ensures Valid() && IsRun(old(View()), acts) && View() == Exec(old(View()), acts)
      ensures Handled(acts) == 0 && hand.Some? && FromModule !in acts
    {
      acts := AwaitPacket();
      Received(old(View()), acts, View());
      Take();
      acts := acts + [Receive];
    }

    method Send(kind: Kind, app: nat)
      modifies this`net, this`msgid, this`h
      ensures View() == Protocol.Send(old(View()), kind, app)
    {
      var p := Packet((msgid + 1) % ID_MODULUS, kind, app, sessionId, PERROR_NONE);
      msgid := p.id;
      net := net.(up := net.up + [p]);
      h := h.(sent := h.sent + [p]);
    }

    /** `handle_serverpacket`. */
    method HandleServerPacket()
      requires hand.Some?
      modifies this`net, this`msgid, this`h, this`hand
      ensures View() == ServePacket(Unhand(old(View())), old(hand.value))
      ensures IsToken(old(hand.value).kind) ==>
        |h.sent| == |old(h.sent)| + 1 && old(h.sent) <= h.sent && Follows(h.sent[|old(h.sent)|], old(hand.value))
      ensures !IsToken(old(hand.value).kind) ==> h.sent == old(h.sent)
    {
      var a := hand.value;
      hand := None;
      match a.kind {
        case WaitForSignal => Send(GetMessage, a.app);
        case GetMessage => Send(WaitForSignal, a.app);
        case _ =>
      }
    }

    /** A packet that is not the awaited one, serviced at the end of a run. */
    method Service(ghost s: State, ghost acts: seq<Action>)
      requires Valid() && IsRun(s, acts) && View() == Exec(s, acts)
      requires mode.Waiting? && hand.Some? && hand.value.kind != KindOf(mode.call)
      modifies this`net, this`h, this`hand, this`msgid
      ensures Valid() && IsRun(s, acts + [Handle]) && View() == Exec(s, acts + [Handle])
      ensures hand.None? && Ahead(View()) < Ahead(old(View()))
      ensures Ahead(View()) + Handled(acts + [Handle]) <= Ahead(old(View())) + Handled(acts)
    {
      Serviced(s, acts);
      HandleServerPacket();
    }

    /** ... and the next one received. */
    method ServiceAndRecv(ghost s: State, ghost acts: seq<Action>) returns (ghost next: seq<Action>)
      requires Valid() && IsRun(s, acts) && View() == Exec(s, acts)
      requires mode.Waiting? && hand.Some? && hand.value.kind != KindOf(mode.call)
      modifies this`net, this`server, this`card, this`h, this`hand, this`msgid
      ensures Valid() && IsRun(s, next) && View() == Exec(s, next)
      ensures hand.Some? && mode == old(mode) && Ahead(View()) < Ahead(old(View()))
      ensures Ahead(View()) + Handled(next) <= Ahead(old(View())) + Handled(acts)
      ensures FromModule !in acts ==> FromModule !in next
    {
      Service(s, acts);
      ghost var serviced := acts + [Handle];
      ghost var more := Recv();
      Spun(s, serviced, more);
      next := serviced + more;
    }

    /** `wait_for_answer`: receive, and service what is not the awaited type, until it is. The
        loop terminates because every packet serviced was ahead of the answer. */
    method WaitForAnswer(kind: Kind) returns (ghost acts: seq<Action>)
      requires Valid() && mode.Waiting? && kind == KindOf(mode.call) && hand.None?
      modifies this`net, this`server, this`card, this`h, this`hand, this`msgid
      ensures Valid() && IsRun(old(View()), acts) && View() == Exec(old(View()), acts)
      ensures hand.Some? && hand.value.kind == kind && hand.value.id == mode.id
      ensures Handled(acts) <= Ahead(old(View())) && mode == old(mode) && FromModule !in acts
    {
      ghost var s := View();
      acts := Recv();
      SpinProgressed(s, acts);
      while hand.value.kind != kind
        invariant Valid() && IsRun(s, acts) && View() == Exec(s, acts)
        invariant mode == s.d.mode && hand.Some? && Ahead(View()) + Handled(acts) <= Ahead(s)
        invariant FromModule !in acts
        decreases Ahead(View())
      {
        acts := ServiceAndRecv(s, acts);
      }
      HandOnlyTokensOrTheAnswer(View());
    }

    // ---- calls ----------------------------------------------------------------------------

    /** Send a synchronous request. */
    method BeginCall(call: Call, app: nat)
      modifies this`net, this`msgid, this`h, this`mode
      ensures View() == Begin(old(View()), call, app)
    {
      var id := (msgid + 1) % ID_MODULUS;
      Send(KindOf(call), app);
      mode := Waiting(call, id);
    }

    /** The end of `remote_register_appl`, `local_register_appl` and the ioctl after it. */
    method FinishRegister(appl: nat)
      requires ltr != rtl && hand.Some? && hand.value.app < rtl.Length && appl < ltr.Length
      modifies this, ltr, rtl
      ensures View() == Registered(SetMode(Unhand(old(View())), Idle), appl, old(hand.value))
    {
      var a := hand.value;
      hand, mode := None, Idle;
      if a.perror == PERROR_NONE {
        Send(WaitForSignal, a.app);
        rtl[a.app] := appl;
        ltr[appl] := a.app;
        card := Ioctl(card, appl, Confirmed);
        h := h.(accepted := h.accepted + multiset{a.app}, live := h.live + {appl},
                regConfirmed := h.regConfirmed + multiset{appl});
      } else {
        card := Ioctl(card, appl, Revoked);
        h := h.(regFailed := h.regFailed + multiset{appl});
      }
    }

    /** The calls whose answer only ends the wait: RELEASE and PUTMESSAGE. */
    method FinishSimple()
      modifies this`hand, this`mode
      ensures View() == SetMode(Unhand(old(View())), Idle)
    {
      hand, mode := None, Idle;
    }

    method FinishCall()
      requires Valid() && mode.Waiting? && mode.call.appl <= CAPI_MAXAPPL
      requires hand.Some? && hand.value.kind == KindOf(mode.call)
      modifies this, ltr, rtl
      ensures Valid() && mode.Idle? && hand.None? && View() == Step(old(View()), Handle)
    {
      StepKeepsCore(View(), Handle);
      UnhandKeepsRanges(View());
      if mode.call.RegisterCall? {
        FinishRegister(mode.call.appl);
      } else {
        FinishSimple();
      }
    }

    /** One synchronous call of the daemon, from `send` to the return of its caller. */
    method DoCall(call: Call, app: nat) returns (ghost acts: seq<Action>)
      requires Valid() && mode.Idle? && hand.None? && app <= CAPI_MAXAPPL && call.appl <= CAPI_MAXAPPL
      modifies this, ltr, rtl
      ensures Called(old(View()), call, app, acts) && View() == AfterCall(old(View()), call, app, acts)
      ensures FromModule !in acts
      ensures Valid() && mode.Idle? && hand.None?
    {
      StartCall(View(), call, app);
      BeginCall(call, app);
      ghost var s := View();
      acts := WaitForAnswer(KindOf(call));
      Completed(s, acts, View());
      FinishCall();
      acts := acts + [Handle];
    }

    // ---- the main loop --------------------------------------------------------------------

    /** A packet taken off the socket while no call is outstanding, which is a token's answer,
        and the token's next request. */
    method PassOn()
      requires Valid() && mode.Idle? && hand.None? && net.down != []
      modifies this`net, this`h, this`hand, this`msgid
      ensures Valid() && mode.Idle? && hand.None?
      ensures Enabled(old(View()), Receive) && Enabled(TakePacket(old(View())), Handle)
      ensures View() == HandlePacket(TakePacket(old(View())))
      ensures |h.sent| == |old(h.sent)| + 1 && old(h.sent) <= h.sent && Follows(h.sent[|old(h.sent)|], old(net.down)[0])
    {
      Take();
      StepKeepsCore(View(), Handle);
      PassedOn(View());
      HandleServerPacket();
    }

    /** The non-blocking `recv` of the main loop and what it leads to: if a packet was there, it
        is handled, and its token's next request is the first one sent. */
    method Poll() returns (ghost acts: seq<Action>)
      requires Valid() && mode.Idle? && hand.None?
      modifies this`net, this`server, this`card, this`h, this`hand, this`msgid
      ensures Valid() && mode.Idle? && hand.None? && IsRun(old(View()), acts) && View() == Exec(old(View()), acts)
      ensures net.down == [] || Handle in acts
      ensures FromModule !in acts && old(h.sent) <= h.sent
      ensures old(net.down) != [] ==>
        Handle in acts && |h.sent| > |old(h.sent)| && Follows(h.sent[|old(h.sent)|], old(net.down)[0])
    {
      acts := Interfere();
      if net.down != [] {
        ghost var t := View();
        PassOn();
        Polled(old(View()), acts, t);
        acts := acts + [Receive, Handle];
      }
    }

    /** `read` from the device, which does not block either. */
    method ReadDevice() returns (r: ReadResult)
      requires Valid()
      modifies this`card, this`h
      ensures Valid() && mode == old(mode) && hand == old(hand)
      ensures var (c, r') := CardModel.Read(old(card), DAEMON_BUFFER, 0);
        r == r' && View() == if r.Delivered? then Took(old(View()), c, r.m) else old(View()).(card := c)
      ensures r.Delivered? ==> |r.m| >= 6 && Addressed(r.m)
    {
      TookKeepsCore(View());
      var (c, r') := CardModel.Read(card, DAEMON_BUFFER, 0);
      r, card := r', c;
      if r.Delivered? {
        h := h.(delivered := h.delivered + [r.m]);
      }
    }

    /** The switch on a message from the module, with the whole call it leads to. */
    method ObeyModule(m: Message) returns (ghost acts: seq<Action>)
      requires Valid() && mode.Idle? && hand.None? && |m| >= 6 && Addressed(m)
      modifies this, ltr, rtl
      ensures Valid() && hand.None? && !mode.Waiting?
      ensures IsRun(Obey(old(View()), m), acts) && View() == Exec(Obey(old(View()), m), acts)
      ensures Handled(acts) <= |Tokens(old(View()))| + 1 && FromModule !in acts
      ensures old(h.sent) <= h.sent && Obeyed(m, old(h.sent), h.sent, old(ltr[..]), mode)
    {
      var appl := AppId(m);
      acts := [];
      ghost var s := View();
      SameButLive(s, appl);
      SameButMode(s);
      if Command(m) != TYPE_PROXY {
        acts := DoCall(PutCall(appl), ltr[appl]);
      } else if Subcommand(m) == TYPE_REGISTER_APP {
        acts := DoCall(RegisterCall(appl), 0);
      } else if Subcommand(m) == TYPE_RELEASE_APP {
        h := h.(live := h.live - {appl as nat});
        acts := DoCall(ReleaseCall(appl), appl);
      } else if Subcommand(m) == TYPE_SHUTDOWN {
        mode := Down;
      }
      ObeyBegan(s, m, acts);
    }

    /** The rest of a turn: read the device once, and obey what it says. */
    method ReadAndObey() returns (ghost acts: seq<Action>)
      requires Valid() && mode.Idle? && hand.None?
      modifies this, ltr, rtl
      ensures Valid() && hand.None? && !mode.Waiting?
      ensures IsRun(old(View()), [FromModule] + acts) && View() == Exec(old(View()), [FromModule] + acts)
      ensures old(h.sent) <= h.sent && FromModule !in acts
    {
      var r := ReadDevice();
      acts := [];
      if r.Delivered? {
        acts := ObeyModule(r.m);
      }
      ReadFirst(old(View()), acts);
    }

    /** One turn of the main loop: whatever the others do meanwhile, it comes back idle, or
        down for good after a SHUTDOWN, having made a run of the protocol in which it read its
        device once, and before that handled the packet that was there. */
    method Turn() returns (ghost acts: seq<Action>)
      requires Valid() && mode.Idle? && hand.None?
      modifies this, ltr, rtl
      ensures Valid() && hand.None? && !mode.Waiting?
      ensures IsRun(old(View()), acts) && View() == Exec(old(View()), acts)
      ensures old(h.sent) <= h.sent && ReadsOnce(acts)
      ensures old(net.down) != [] ==>
        HandlesFirst(acts) && |h.sent| > |old(h.sent)| && Follows(h.sent[|old(h.sent)|], old(net.down)[0])
    {
      ghost var polled := Poll();
      ghost var more := ReadAndObey();
      Join(old(View()), polled, [FromModule] + more);
      acts := polled + ([FromModule] + more);
      OneRead(polled, more);
    }
  }

  lemma Polled(s: State, acts: seq<Action>, t: State)
    requires IsRun(s, acts) && t == Exec(s, acts)
    requires Enabled(t, Receive) && Enabled(TakePacket(t), Handle) && FromModule !in acts
    ensures Handle in acts + [Receive, Handle] && FromModule !in acts + [Receive, Handle]
    ensures IsRun(s, acts + [Receive, Handle]) && Exec(s, acts + [Receive, Handle]) == HandlePacket(TakePacket(t))
  {
    Extend(s, acts, Receive);
    Extend(s, acts + [Receive], Handle);
    assert acts + [Receive, Handle] == acts + [Receive] + [Handle];
  }

  lemma ReadFirst(s: State, acts: seq<Action>)
    requires Enabled(s, FromModule) && IsRun(ReadModule(s), acts)
    ensures IsRun(s, [FromModule] + acts) && Exec(s, [FromModule] + acts) == Exec(ReadModule(s), acts)
  {
    assert ([FromModule] + acts)[1..] == acts;
  }

  /** `q` is the next request of the token whose answer `a` is: GETMESSAGE after WAITFORSIGNAL and
      the other way round, for the same application. */
  predicate Follows(q: Packet, a: Packet) {
    q.app == a.app &&
    ((a.kind.WaitForSignal? && q.kind.GetMessage?) || (a.kind.GetMessage? && q.kind.WaitForSignal?))
  }

  /** The device is read exactly once. */
  ghost predicate ReadsOnce(acts: seq<Action>) {
    exists k :: 0 <= k < |acts| && acts[k] == FromModule && FromModule !in acts[..k] && FromModule !in acts[k + 1..]
  }

  /** A packet is handled before the device is read. */
  ghost predicate HandlesFirst(acts: seq<Action>) {
    exists k :: 0 <= k < |acts| && acts[k] == Handle && FromModule !in acts[..k]
  }

  lemma OneRead(polled: seq<Action>, more: seq<Action>)
    requires FromModule !in polled && FromModule !in more
    ensures var acts := polled + ([FromModule] + more); ReadsOnce(acts) && (Handle in polled ==> HandlesFirst(acts))
  {
    var acts := polled + ([FromModule] + more);
    var n := |polled|;
    assert acts[n] == FromModule && acts[..n] == polled && acts[n + 1..] == more;
    if Handle in polled {
      var k :| 0 <= k < |polled| && polled[k] == Handle;
      assert acts[k] == Handle;
      assert forall a | a in acts[..k] :: a in polled;
    }
  }

  /** What a message from the module makes the daemon do first: PUTMESSAGE under the mapped id,
      REGISTER, RELEASE under the local id, going down, or nothing. */
  predicate Obeyed(m: Message, before: seq<Packet>, sent: seq<Packet>, ltr: seq<nat>, mode: Mode)
    requires |m| >= 6 && |before| <= |sent|
  {
    var appl := U16(m, 2);
    if m[4] == 0 && m[5] !in {2, 3} then
      sent == before && (mode.Down? <==> m[5] == 4)
    else
      |sent| > |before| && !mode.Down? &&
      var q := sent[|before|];
      if m[4] != 0 then q.kind.PutMessage? && appl < |ltr| && q.app == ltr[appl]
      else if m[5] == 2 then q.kind.Register? && q.app == 0
      else q.kind.Release? && q.app == appl
  }

  lemma ObeySends(s: State, m: Message)
    requires s.d.mode.Idle? && |m| >= 6 && AppId(m) < |s.d.ltr|
    ensures s.h.sent <= Obey(s, m).h.sent && Obeyed(m, s.h.sent, Obey(s, m).h.sent, s.d.ltr, Obey(s, m).d.mode)
  {
  }

  lemma SameButLive(s: State, appl: nat)
    requires Core(s)
    ensures Core(Unlive(s, appl)) && Tokens(Unlive(s, appl)) == Tokens(s)
  {
    SameFlow(s, Unlive(s, appl), CallIn);
    SameFlow(s, Unlive(s, appl), TokenIn);
  }

  lemma SameButMode(s: State)
    requires Core(s) && s.d.mode.Idle?
    ensures Core(SetMode(s, Down))
  {
    SameFlow(s, SetMode(s, Down), CallIn);
  }

  /** What was sent first stays first, whatever the rest of the run sends. */
  lemma ObeyBegan(s: State, m: Message, acts: seq<Action>)
    requires s.d.mode.Idle? && |m| >= 6 && AppId(m) < |s.d.ltr| && IsRun(Obey(s, m), acts)
    requires Obey(s, m).d.mode.Waiting? ==> !Exec(Obey(s, m), acts).d.mode.Down?
    requires !Obey(s, m).d.mode.Waiting? ==> acts == []
    ensures var t := Exec(Obey(s, m), acts);
      s.h.sent <= t.h.sent && Obeyed(m, s.h.sent, t.h.sent, s.d.ltr, t.d.mode)
  {
    ObeySends(s, m);
    SentGrows(Obey(s, m), acts);
  }

  /** Requests once sent stay in the history. */
  lemma {:induction false} SentGrows(s: State, acts: seq<Action>)
    requires IsRun(s, acts)
    ensures s.h.sent <= Exec(s, acts).h.sent
    decreases |acts|
  {
    if acts != [] {
      StepSends(s, acts[0]);
      SentGrows(Step(s, acts[0]), acts[1..]);
    }
  }

  lemma StepSends(s: State, a: Action)
    requires Enabled(s, a)
    ensures s.h.sent <= Step(s, a).h.sent
  {
    match a
    case Serve(r) =>
    case Wake(i) =>
    case Receive =>
    case Handle =>
    case FromModule =>
    case FromKernel(op) =>
  }

  /** `acts` takes the daemon from the sending of a call to its completion, and on the way it
      handles no more packets than there were tokens, and the answer. */
  ghost predicate Called(s: State, call: Call, app: nat, acts: seq<Action>) {
    IsRun(Begin(s, call, app), acts) && Handled(acts) <= |Tokens(s)| + 1
  }

  function AfterCall(s: State, call: Call, app: nat, acts: seq<Action>): State
    requires IsRun(Begin(s, call, app), acts)
  {
    Exec(Begin(s, call, app), acts)
  }

  lemma StartCall(s: State, call: Call, app: nat)
    requires Core(s) && s.d.mode.Idle? && s.d.hand.None? && app <= CAPI_MAXAPPL
    ensures Core(Begin(s, call, app)) && Ahead(Begin(s, call, app)) == |Tokens(s)|
  {
    BeginKeepsCore(s, call, app);
    CallStarts(s, call, app);
  }

  /** The other parties never touch the daemon's statics. */
  lemma ForeignKeepsDaemon(s: State, a: Action, t: State)
    requires Core(s) && Foreign(a) && Enabled(s, a) && t == Step(s, a)
    ensures Core(t) && t.d == s.d && t.h.sent == s.h.sent && s.net.down <= t.net.down
  {
    StepKeepsCore(s, a);
    OnlyAppends(s, a);
  }

  lemma Received(s: State, acts: seq<Action>, t: State)
    requires IsRun(s, acts) && t == Exec(s, acts) && Enabled(t, Receive) && forall a | a in acts :: Foreign(a)
    ensures IsRun(s, acts + [Receive]) && Exec(s, acts + [Receive]) == Step(t, Receive)
    ensures Handled(acts + [Receive]) == 0 && FromModule !in acts + [Receive]
  {
    NoneHandled(acts, Receive);
    Extend(s, acts, Receive);
  }

  lemma Completed(s: State, acts: seq<Action>, t: State)
    requires IsRun(s, acts) && t == Exec(s, acts) && Enabled(t, Handle) && FromModule !in acts
    ensures IsRun(s, acts + [Handle]) && Exec(s, acts + [Handle]) == Step(t, Handle)
    ensures Handled(acts + [Handle]) == Handled(acts) + 1 && FromModule !in acts + [Handle]
  {
    Extend(s, acts, Handle);
    HandledOneMore(acts, Handle);
  }

  lemma OnlyAppends(s: State, a: Action)
    requires Foreign(a) && Enabled(s, a)
    ensures Step(s, a).d == s.d && Step(s, a).h.sent == s.h.sent && s.net.down <= Step(s, a).net.down
  {
  }

  lemma {:induction false} NoneHandled(acts: seq<Action>, last: Action)
    requires !last.Handle? && forall a | a in acts :: Foreign(a)
    ensures Handled(acts + [last]) == 0
  {
    var all := acts + [last];
    if acts != [] {
      assert all[0] == acts[0] && all[1..] == acts[1..] + [last];
      assert acts[0] in acts;
      NoneHandled(acts[1..], last);
    } else {
      assert all[1..] == [];
    }
  }

  lemma {:induction false} HandledJoin(a: seq<Action>, b: seq<Action>)
    ensures Handled(a + b) == Handled(a) + Handled(b)
  {
    if a == [] {
      assert a + b == b;
    } else {
      assert (a + b)[0] == a[0] && (a + b)[1..] == a[1..] + b;
      HandledJoin(a[1..], b);
    }
  }

  lemma HandledOneMore(acts: seq<Action>, a: Action)
    ensures Handled(acts + [a]) == Handled(acts) + if a.Handle? then 1 else 0
  {
    HandledJoin(acts, [a]);
    assert [a][1..] == [];
  }

  /** A run that handles nothing keeps a spinning daemon spinning. */
  lemma {:induction false} NothingHandledSpins(s: State, acts: seq<Action>)
    requires s.d.mode.Waiting? && IsRun(s, acts) && Handled(acts) == 0
    ensures Spins(s, acts)
    decreases |acts|
  {
    if acts != [] {
      var a := acts[0];
      assert !a.Handle?;
      assert Step(s, a).d.mode == s.d.mode;
      NothingHandledSpins(Step(s, a), acts[1..]);
    }
  }

  lemma SpinProgressed(s: State, acts: seq<Action>)
    requires Core(s) && s.d.mode.Waiting? && IsRun(s, acts) && Handled(acts) == 0
    ensures Exec(s, acts).d.mode == s.d.mode && Ahead(Exec(s, acts)) <= Ahead(s)
  {
    NothingHandledSpins(s, acts);
    SpinProgress(s, acts);
  }

  /** A packet serviced while spinning leaves one less ahead of the answer. */
  lemma Serviced(s: State, acts: seq<Action>)
    requires IsRun(s, acts) && Core(Exec(s, acts)) && Exec(s, acts).d.mode.Waiting?
    requires Exec(s, acts).d.hand.Some? && !Awaited(Exec(s, acts).d, Exec(s, acts).d.hand.value)
    ensures IsRun(s, acts + [Handle])
    ensures var t, u := Exec(s, acts), Exec(s, acts + [Handle]);
      u == ServePacket(Unhand(t), t.d.hand.value) && Core(u) && u.d.mode == t.d.mode &&
      Ahead(u) + Handled(acts + [Handle]) <= Ahead(t) + Handled(acts) && Ahead(u) < Ahead(t)
  {
    Extend(s, acts, Handle);
    HandleProgress(Exec(s, acts));
    StepKeepsCore(Exec(s, acts), Handle);
    HandledOneMore(acts, Handle);
  }

  lemma Spun(s: State, acts: seq<Action>, more: seq<Action>)
    requires IsRun(s, acts) && Core(Exec(s, acts)) && Exec(s, acts).d.mode.Waiting?
    requires IsRun(Exec(s, acts), more) && Handled(more) == 0
    ensures IsRun(s, acts + more)
    ensures var t, u := Exec(s, acts), Exec(s, acts + more);
      u == Exec(t, more) && u.d.mode == t.d.mode && Ahead(u) <= Ahead(t) && Handled(acts + more) == Handled(acts)
  {
    SpinProgressed(Exec(s, acts), more);
    Join(s, acts, more);
    HandledJoin(acts, more);
  }
}
