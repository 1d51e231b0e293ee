/** `wait_for_answer` returns: while the daemon spins for a synchronous call it services at
    most as many other packets as there were tokens when the call was sent, whatever the
    interleaving of server and waiters, and it never gets stuck. */
module BoundedWait {
  import opened CapiMessage
  import opened CardModel
  import opened Protocol
  import opened Conservation

  /** Position of the first packet that is not a token, or the length if there is none. */
  function FirstCall(ps: seq<Packet>): (n: nat)
    ensures n <= |ps|
  {
    if ps == [] || !IsToken(ps[0].kind) then 0 else 1 + FirstCall(ps[1..])
  }

  predicate HasCall(ps: seq<Packet>) {
    FirstCall(ps) < |ps|
  }

  lemma {:induction false} FirstCallAppend(a: seq<Packet>, b: seq<Packet>)
    ensures FirstCall(a + b) == if HasCall(a) then FirstCall(a) else |a| + FirstCall(b)
  {
    if a == [] {
      assert a + b == b;
    } else {
      assert a + b == [a[0]] + (a[1..] + b);
      FirstCallAppend(a[1..], b);
    }
  }

  lemma {:induction false} HasCallIffBag(ps: seq<Packet>)
    ensures HasCall(ps) <==> Bag(ps, CallIn) != multiset{}
    ensures !HasCall(ps) ==> |Bag(ps, TokenIn)| == |ps|
  {
    if ps != [] {
      HasCallIffBag(ps[1..]);
    }
  }

  lemma WaitersHaveNoCall(ps: seq<Packet>)
    requires forall p | p in ps :: p.kind.WaitForSignal?
    ensures !HasCall(ps)
  {
    if ps != [] {
      WaitersHaveNoCall(ps[1..]);
    }
  }

  /** The call in flight is either still a request or already an answer. */
  lemma CallIsSomewhere(s: State)
    requires Wire(s)
    ensures s.d.mode.Waiting? ==> (HasCall(s.net.up) <==> !HasCall(Inbox(s)))
    ensures !s.d.mode.Waiting? ==> !HasCall(s.net.up) && !HasCall(Inbox(s))
  {
    HasCallIffBag(s.net.up);
    HasCallIffBag(s.net.waiters);
    HasCallIffBag(Inbox(s));
    WaitersHaveNoCall(s.net.waiters);
    assert |Flow(s, CallIn)| == |Bag(s.net.up, CallIn)| + |Bag(Inbox(s), CallIn)|;
  }

  /** Packets the daemon may still receive before the answer it waits for: while the call is
      queued behind k tokens, those k, the waiters and everything in the inbox; once it is
      answered, what lies ahead of it in the inbox. */
  function Ahead(s: State): nat {
    if HasCall(s.net.up) then FirstCall(s.net.up) + |s.net.waiters| + |Inbox(s)| else FirstCall(Inbox(s))
  }

  /** Packets the daemon is bound to receive first. */
  function Bound(s: State): nat {
    if HasCall(s.net.up) then |Inbox(s)| else FirstCall(Inbox(s))
  }

  /** Steps left, counting two for a request, one for a waiter and four for a packet ahead. */
  function Work(s: State): nat {
    2 * |s.net.up| + |s.net.waiters| + 4 * Ahead(s) + if s.d.hand.None? then 1 else 0
  }

  /** The daemon is spinning and keeps spinning for the same call. */
  predicate Spins(s: State, acts: seq<Action>)
    requires IsRun(s, acts)
    decreases |acts|
  {
    s.d.mode.Waiting? &&
    (acts == [] || (Step(s, acts[0]).d.mode == s.d.mode && Spins(Step(s, acts[0]), acts[1..])))
  }

  /** How many packets the daemon handled, and how many steps the protocol parties made. */
  function Handled(acts: seq<Action>): nat {
    if acts == [] then 0 else (if acts[0].Handle? then 1 else 0) + Handled(acts[1..])
  }

  function Moves(acts: seq<Action>): nat {
    if acts == [] then 0 else (if acts[0].FromKernel? then 0 else 1) + Moves(acts[1..])
  }

  ghost predicate Progress(s: State, t: State, a: Action) {
    var handled := if a.Handle? then 1 else 0;
    var moved := if a.FromKernel? then 0 else 1;
    Ahead(t) + handled <= Ahead(s) && Bound(t) + handled >= Bound(s) && Work(t) + moved <= Work(s)
  }

  lemma ForkProgress(s: State, r: Reply)
    requires Wire(s) && s.d.mode.Waiting? && s.net.up != []
    requires Forks(s.net.up[0], r) && s.net.up[0].session == s.server.session
    ensures Progress(s, Dispatch(s, r), Serve(r))
  {
    var p := s.net.up[0];
    var t := Fork(Dequeue(s), p);
    assert t.net.up == s.net.up[1..] && Inbox(t) == Inbox(s);
    assert FirstCall(s.net.up) == 1 + FirstCall(t.net.up);
  }

  lemma AnswerProgress(s: State, r: Reply)
    requires Wire(s) && s.d.mode.Waiting? && s.net.up != []
    requires !Forks(s.net.up[0], r) && s.net.up[0].session == s.server.session
    requires var t := Dispatch(s, r); t.d == s.d && (HasCall(t.net.up) <==> !HasCall(Inbox(t)))
    ensures Progress(s, Dispatch(s, r), Serve(r))
  {
    var p := s.net.up[0];
    var t := Dispatch(s, r);
    var a := AnswerTo(p, r);
    assert t.net == Net(s.net.up[1..], s.net.waiters, s.net.down + [a]);
    assert Inbox(t) == Inbox(s) + [a];
    FirstCallAppend(Inbox(s), [a]);
    CallIsSomewhere(s);
    assert IsToken(p.kind) ==> FirstCall(s.net.up) == 1 + FirstCall(t.net.up);
  }

  lemma ServeProgress(s: State, r: Reply)
    requires Core(s) && s.d.mode.Waiting? && Enabled(s, Serve(r))
    ensures Progress(s, Dispatch(s, r), Serve(r))
  {
    var p := s.net.up[0];
    assert p in s.net.up;
    if Forks(p, r) {
      ForkProgress(s, r);
    } else {
      ServeKeepsWire(s, r);
      CallIsSomewhere(Dispatch(s, r));
      AnswerProgress(s, r);
    }
  }

  lemma WakeProgress(s: State, i: nat)
    requires Core(s) && s.d.mode.Waiting? && Enabled(s, Wake(i))
    ensures Progress(s, Signal(s, i), Wake(i))
  {
    AnswerFlow(Exit(s, i), WaiterAnswer(s.net.waiters[i]), CallIn);
    FirstCallAppend(Inbox(s), [WaiterAnswer(s.net.waiters[i])]);
    CallIsSomewhere(s);
    assert Inbox(Exit(s, i)) == Inbox(s);
  }

  lemma HandleProgress(s: State)
    requires Core(s) && s.d.mode.Waiting? && Enabled(s, Handle) && !Awaited(s.d, s.d.hand.value)
    ensures Progress(s, HandlePacket(s), Handle)
  {
    var a := s.d.hand.value;
    PassedOn(s);
    var u := Unhand(s);
    UnhandFlow(s, CallIn);
    FirstCallAppend([a], Inbox(u));
    assert FirstCall([a]) == 1 + FirstCall([]);
    FirstCallAppend(s.net.up, [RequestOf(u.d, NextKind(a.kind), a.app)]);
    CallIsSomewhere(s);
    assert Inbox(HandlePacket(s)) == Inbox(u);
  }

  lemma KernelProgress(s: State, op: KernelOp)
    requires Enabled(s, FromKernel(op))
    ensures Progress(s, KernelStep(s, op), FromKernel(op)) && KernelStep(s, op).d == s.d
  {
    var t := KernelStep(s, op);
    assert t.net == s.net && t.d == s.d;
    SameFlow(s, t, CallIn);
  }

  lemma TakeProgress(s: State)
    requires Enabled(s, Receive)
    ensures Progress(s, TakePacket(s), Receive)
  {
    TakeFlow(s, CallIn);
  }

  lemma StepProgress(s: State, a: Action)
    requires Core(s) && s.d.mode.Waiting? && Enabled(s, a) && Step(s, a).d.mode == s.d.mode
    ensures Progress(s, Step(s, a), a)
  {
    match a
    case Serve(r) => ServeProgress(s, r);
    case Wake(i) => WakeProgress(s, i);
    case Receive => TakeProgress(s);
    case Handle => HandleProgress(s);
    case FromKernel(op) => KernelProgress(s, op);
  }

  lemma {:induction false} SpinProgress(s: State, acts: seq<Action>)
    requires Core(s) && IsRun(s, acts) && Spins(s, acts)
    ensures var t := Exec(s, acts);
      Core(t) && t.d.mode == s.d.mode &&
      Ahead(t) + Handled(acts) <= Ahead(s) && Bound(t) + Handled(acts) >= Bound(s) &&
      Work(t) + Moves(acts) <= Work(s)
    decreases |acts|
  {
    if acts != [] {
      var t := Step(s, acts[0]);
      StepProgress(s, acts[0]);
      StepKeepsCore(s, acts[0]);
      SpinProgress(t, acts[1..]);
    }
  }

  lemma AllInFlightAreTokens(s: State)
    requires Wire(s) && s.d.mode.Idle?
    ensures |s.net.up| + |s.net.waiters| + |Inbox(s)| == |Tokens(s)|
    ensures !HasCall(s.net.up) && !HasCall(Inbox(s))
  {
    CallIsSomewhere(s);
    HasCallIffBag(s.net.up);
    HasCallIffBag(Inbox(s));
    HasCallIffBag(s.net.waiters);
    WaitersHaveNoCall(s.net.waiters);
  }

  lemma CallStarts(s: State, call: Call, app: nat)
    requires Wire(s) && s.d.mode.Idle? && s.d.hand.None?
    ensures var t := Begin(s, call, app);
      Ahead(t) == |Tokens(s)| && Bound(t) == |s.net.down| && Work(t) <= 6 * |Tokens(s)| + 3
  {
    var q := RequestOf(s.d, KindOf(call), app);
    AllInFlightAreTokens(s);
    CallComesLast(s.net.up, q);
    assert Begin(s, call, app).net == s.net.(up := s.net.up + [q]);
  }

  lemma CallComesLast(up: seq<Packet>, q: Packet)
    requires !HasCall(up) && !IsToken(q.kind)
    ensures HasCall(up + [q]) && FirstCall(up + [q]) == |up|
  {
    FirstCallAppend(up, [q]);
  }

  ghost predicate Started(n: nat, down: nat, t: State) {
    Ahead(t) == n && Bound(t) == down && Work(t) <= 6 * n + 3
  }

  lemma ObeyStartsCall(s: State, m: Message)
    requires Wire(s) && s.d.mode.Idle? && s.d.hand.None? && |m| >= 6
    requires Obey(s, m).d.mode.Waiting?
    ensures Started(|Tokens(s)|, |s.net.down|, Obey(s, m))
  {
    var appl := AppId(m);
    if Command(m) != TYPE_PROXY {
      CallStarts(s, PutCall(appl), Lookup(s.d.ltr, appl));
    } else if Subcommand(m) == TYPE_REGISTER_APP {
      CallStarts(s, RegisterCall(appl), 0);
    } else if Subcommand(m) == TYPE_RELEASE_APP {
      SameFlow(s, Unlive(s, appl), CallIn);
      SameFlow(s, Unlive(s, appl), TokenIn);
      CallStarts(Unlive(s, appl), ReleaseCall(appl), appl);
    }
  }

  lemma ReadStartsCall(s: State)
    requires Core(s) && Enabled(s, FromModule) && ReadModule(s).d.mode.Waiting?
    ensures Core(ReadModule(s)) && Started(|Tokens(s)|, |s.net.down|, ReadModule(s))
  {
    ReadKeepsCore(s);
    ReadTakes(s.card, DAEMON_BUFFER, 0);
    var (c, r) := Read(s.card, DAEMON_BUFFER, 0);
    if r.Delivered? {
      var u := Took(s, c, r.m);
      SameFlow(s, u, CallIn);
      SameFlow(s, u, TokenIn);
      ObeyStartsCall(u, r.m);
    }
  }

  /** The bound. A call begins in `s`, when n registrations have been accepted and so n tokens
      circulate. However server, waiters and kernel interleave, the daemon services at most n
      other packets before the answer, and the parties make at most 6n + 3 moves. */
  lemma WaitIsBounded(s: State, acts: seq<Action>)
    requires Core(s) && TokensConserved(s)
    requires Enabled(s, FromModule) && ReadModule(s).d.mode.Waiting?
    requires IsRun(ReadModule(s), acts) && Spins(ReadModule(s), acts)
    ensures Handled(acts) <= |s.h.accepted|
    ensures Moves(acts) <= 6 * |s.h.accepted| + 3
  {
    ReadStartsCall(s);
    SpinProgress(ReadModule(s), acts);
  }

  lemma AwaitedIsFirst(s: State)
    requires Wire(s) && s.d.hand.Some? && Awaited(s.d, s.d.hand.value)
    ensures Bound(s) == 0
  {
    CallIsSomewhere(s);
    assert Inbox(s)[0] == s.d.hand.value;
    assert FirstCall(Inbox(s)) == 0;
  }

  /** The bound cannot be lowered: whatever had been answered before the call was sent is
      serviced first, so with all n tokens in the downward channel exactly n are. */
  lemma WaitIsAtLeast(s: State, acts: seq<Action>)
    requires Core(s) && TokensConserved(s)
    requires Enabled(s, FromModule) && ReadModule(s).d.mode.Waiting?
    requires IsRun(ReadModule(s), acts) && Spins(ReadModule(s), acts)
    requires var t := Exec(ReadModule(s), acts); t.d.hand.Some? && Awaited(t.d, t.d.hand.value)
    ensures |s.net.down| <= Handled(acts) <= |s.h.accepted|
  {
    ReadStartsCall(s);
    SpinProgress(ReadModule(s), acts);
    AwaitedIsFirst(Exec(ReadModule(s), acts));
  }

  /** A spinning daemon can always move without any waiter being woken: it has a packet in
      hand, or one to receive, or the server has a request to dispatch. With the bound on
      moves, `wait_for_answer` returns on every run in which somebody who can move does. */
  lemma NeverStuck(s: State)
    requires Core(s) && s.d.mode.Waiting?
    ensures Enabled(s, Handle) || Enabled(s, Receive) || Enabled(s, Serve(Reply(false, 0, false)))
  {
    CallIsSomewhere(s);
  }
}
