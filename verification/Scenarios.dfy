/** Complete calls as runs, and three runs in which the parties lose touch. */
module Scenarios {
  import opened Bytes
  import opened CapiMessage
  import opened CardModel
  import opened Protocol
  import IdMaps
  import KernelView

  /** Nothing in flight but tokens parked in waiters, and nothing queued. */
  predicate Quiet(s: State) {
    && s.net.up == [] && s.net.down == [] && s.d.mode.Idle? && s.d.hand.None? && s.d.sessionId == s.server.session
    && |s.d.ltr| == CAPI_MAXAPPL + 1 && |s.d.rtl| == CAPI_MAXAPPL + 1
    && WellFormed(s.card) && s.card.queue == [] && !s.card.status.Free?
  }

  lemma {:induction false} Extend(s: State, acts: seq<Action>, a: Action)
    requires IsRun(s, acts) && Enabled(Exec(s, acts), a)
    ensures IsRun(s, acts + [a]) && Exec(s, acts + [a]) == Step(Exec(s, acts), a)
    decreases |acts|
  {
    var all := acts + [a];
    if acts == [] {
      assert all == [a] && all[1..] == [];
      assert IsRun(Step(s, a), []);
    } else {
      assert all[0] == acts[0] && all[1..] == acts[1..] + [a];
      Extend(Step(s, acts[0]), acts[1..], a);
    }
  }

  lemma {:induction false} Join(s: State, a: seq<Action>, b: seq<Action>)
    requires IsRun(s, a) && IsRun(Exec(s, a), b)
    ensures IsRun(s, a + b) && Exec(s, a + b) == Exec(Exec(s, a), b)
    decreases |a|
  {
    if a == [] {
      assert a + b == b;
    } else {
      assert (a + b)[0] == a[0] && (a + b)[1..] == a[1..] + b;
      Join(Step(s, a[0]), a[1..], b);
    }
  }

  const Window := Params(1, 1, 1)

  /** The daemon reads the only message queued and begins a call. */
  lemma ReadOne(s: State, m: Message)
    requires s.d.mode.Idle? && s.d.hand.None? && s.card.queue == [m] && 6 <= |m| <= DAEMON_BUFFER
    ensures Enabled(s, FromModule) && Step(s, FromModule) == Obey(Took(s, s.card.(queue := []), m), m)
  {
    ReadTakes(s.card, DAEMON_BUFFER, 0);
  }

  /** One call from begin to end: `s` has just sent the request, nothing else is in flight. */
  lemma CallRound(s: State, start: State, acts: seq<Action>, r: Reply) returns (run: seq<Action>)
    requires IsRun(start, acts) && Exec(start, acts) == s
    requires |s.net.up| == 1 && s.net.down == [] && s.d.hand.None? && s.d.mode.Waiting?
    requires s.net.up[0].kind == KindOf(s.d.mode.call) && s.net.up[0].session == s.server.session && Capi(s, r)
    ensures IsRun(start, run)
    ensures var p := s.net.up[0];
      var t := Hold(Dequeue(s), HeldAfter(s.server.held, p, r));
      var h := s.h.(answered := s.h.answered + [AnswerTo(p, r)]);
      Exec(start, run) == Complete(t.(h := h), s.d.mode.call, AnswerTo(p, r))
  {
    var p := s.net.up[0];
    var a := AnswerTo(p, r);
    Extend(start, acts, Serve(r));
    var s1 := Step(s, Serve(r));
    assert s1.net == Net([], s.net.waiters, [a]) && s1.d == s.d;
    Extend(start, acts + [Serve(r)], Receive);
    var s2 := Step(s1, Receive);
    assert s2.d.hand == Some(a) && s2.net == Net([], s.net.waiters, []);
    Extend(start, acts + [Serve(r)] + [Receive], Handle);
    assert Unhand(s2) == Hold(Dequeue(s), HeldAfter(s.server.held, p, r)).(h := s1.h);
    run := acts + [Serve(r)] + [Receive] + [Handle];
  }

  /** The kernel queues `m` and the daemon reads it. */
  lemma Prompt(s: State, op: KernelOp, m: Message) returns (run: seq<Action>)
    requires s.d.mode.Idle? && s.d.hand.None? && Enabled(s, FromKernel(op))
    requires Kernel(s.card, op).queue == [m] && 6 <= |m| <= DAEMON_BUFFER
    ensures IsRun(s, run)
    ensures var t := KernelStep(s, op); Exec(s, run) == Obey(Took(t, t.card.(queue := []), m), m)
  {
    Extend(s, [], FromKernel(op));
    ReadOne(KernelStep(s, op), m);
    Extend(s, [] + [FromKernel(op)], FromModule);
    run := [] + [FromKernel(op)] + [FromModule];
  }

  /** The kernel registers an application and the daemon sends REGISTER. */
  lemma RegisterBegins(s: State, appl: word) returns (run: seq<Action>)
    requires Quiet(s) && ValidAppl(appl) && AppOf(s.card, appl).Unused?
    ensures IsRun(s, run)
    ensures var t := Exec(s, run);
      t.net == s.net.(up := [RequestOf(s.d, Register, 0)]) && t.server == s.server &&
      t.d == s.d.(mode := Waiting(RegisterCall(appl), NextId(s.d)), msgid := NextId(s.d)) &&
      t.card == Mark(s.card, appl, Pending) && t.h.live == s.h.live && t.h.accepted == s.h.accepted &&
      t.h.kernel == s.h.kernel + {appl as nat}
  {
    var op := RegisterAppl(appl, Window, true);
    var m := RegisterMessage(appl, Clipped(Window));
    assert Kernel(s.card, op) == Mark(s.card.(queue := [m]), appl, Pending);
    run := Prompt(s, op, m);
  }

  /** The answer comes back and the application's token is parked in a waiter. */
  lemma RegisterEnds(s: State, start: State, acts: seq<Action>, appl: word, ok: bool, r: nat) returns (run: seq<Action>)
    requires IsRun(start, acts) && Exec(start, acts) == s
    requires |s.net.up| == 1 && s.net.down == [] && s.d.hand.None? && s.d.mode.Waiting?
    requires s.d.mode.call == RegisterCall(appl) && s.net.up[0].kind.Register?
    requires s.net.up[0].session == s.server.session == s.d.sessionId && s.net.up[0].perror == PERROR_NONE
    requires ValidAppl(appl) && WellFormed(s.card) && 1 <= r <= CAPI_MAXAPPL && (ok ==> r !in s.server.held)
    requires |s.d.ltr| == CAPI_MAXAPPL + 1 && |s.d.rtl| == CAPI_MAXAPPL + 1
    ensures IsRun(start, run)
    ensures var t := Exec(start, run);
      t.net.up == [] && t.net.down == [] && t.d.mode.Idle? && t.d.hand.None? && t.d.sessionId == t.server.session &&
      t.d.ltr == s.d.ltr[appl := r] && t.d.rtl == s.d.rtl[r := appl] &&
      t.h.live == s.h.live + {appl as nat} && t.server.held == (if ok then s.server.held + {r} else s.server.held) &&
      t.card == Mark(s.card, appl, Confirmed) && |t.net.waiters| == |s.net.waiters| + 1 &&
      t.h.accepted == s.h.accepted + multiset{r} && t.h.kernel == s.h.kernel
  {
    run := CallRound(s, start, acts, Reply(ok, r, false));
    var t := Exec(start, run);
    assert |t.net.up| == 1 && t.net.up[0].kind.WaitForSignal? && t.net.down == [];
    var fork := Serve(Reply(true, 0, false));
    Extend(start, run, fork);
    run := run + [fork];
  }

  /** An application registers; the server answers with `r`, and CAPI refuses if `!ok`. */
  lemma RegisterRound(s: State, appl: word, ok: bool, r: nat) returns (run: seq<Action>)
    requires Quiet(s) && ValidAppl(appl) && AppOf(s.card, appl).Unused?
    requires 1 <= r <= CAPI_MAXAPPL && (ok ==> r !in s.server.held)
    ensures IsRun(s, run)
    ensures var t := Exec(s, run);
      Quiet(t) && t.d.ltr == s.d.ltr[appl := r] && t.d.rtl == s.d.rtl[r := appl] &&
      t.h.live == s.h.live + {appl as nat} && t.server.held == (if ok then s.server.held + {r} else s.server.held) &&
      t.card.apps == s.card.apps[appl - 1 := Confirmed] && |t.net.waiters| == |s.net.waiters| + 1 &&
      t.h.accepted == s.h.accepted + multiset{r} && t.h.kernel == s.h.kernel + {appl as nat}
  {
    run := RegisterBegins(s, appl);
    run := RegisterEnds(Exec(s, run), s, run, appl, ok, r);
  }

  /** The daemon reads a queued RELEASE and CAPI agrees; the module is not involved. */
  lemma ReleaseQueued(s: State, appl: word) returns (run: seq<Action>)
    requires s.card.queue == [ControlMessage(appl, TYPE_RELEASE_APP)] && Quiet(s.(card := s.card.(queue := [])))
    requires appl as nat in s.server.held
    ensures IsRun(s, run)
    ensures var t := Exec(s, run);
      Quiet(t) && t.card.apps == s.card.apps && t.d.ltr == s.d.ltr && t.d.rtl == s.d.rtl &&
      t.h.live == s.h.live - {appl as nat} && t.server.held == s.server.held - {appl as nat} &&
      t.net.waiters == s.net.waiters && t.h.accepted == s.h.accepted && t.h.kernel == s.h.kernel
  {
    var l := ControlMessage(appl, TYPE_RELEASE_APP);
    ReadOne(s, l);
    Extend(s, [], FromModule);
    var t := Step(s, FromModule);
    assert t == Begin(Unlive(Took(s, s.card.(queue := []), l), appl), ReleaseCall(appl), appl);
    run := CallRound(t, s, [] + [FromModule], Reply(true, 0, false));
  }

  /** The kernel releases an application. */
  lemma ReleaseRound(s: State, appl: word) returns (run: seq<Action>)
    requires Quiet(s) && ValidAppl(appl) && !AppOf(s.card, appl).Unused? && appl as nat in s.server.held
    ensures IsRun(s, run)
    ensures var t := Exec(s, run);
      Quiet(t) && t.d.ltr == s.d.ltr && t.d.rtl == s.d.rtl &&
      t.h.live == s.h.live - {appl as nat} && t.server.held == s.server.held - {appl as nat} &&
      t.card.apps == s.card.apps[appl - 1 := Unused] && t.net.waiters == s.net.waiters &&
      t.h.accepted == s.h.accepted && t.h.kernel == s.h.kernel - {appl as nat}
  {
    var op := FromKernel(ReleaseAppl(appl, true));
    Extend(s, [], op);
    var t := Step(s, op);
    assert t.card.queue == [ControlMessage(appl, TYPE_RELEASE_APP)];
    var next := ReleaseQueued(t, appl);
    run := [] + [op];
    Join(s, run, next);
    run := run + next;
  }

  predicate FreshCard(s: State) {
    Initial(s) && !s.card.status.Free? && forall i | 0 <= i < CAPI_MAXAPPL :: s.card.apps[i].Unused?
  }

  /** RELEASE carries the local id, so it can release somebody else's registration. Local 1 gets
      remote 2 and local 2 gets remote 1; releasing local 2 frees remote 2, which CAPI then
      gives to local 3: applications 1 and 3, both live, share remote id 2, and what arrives
      for 1 is delivered to 3. */
  lemma ReleaseBreaksTheMaps(s: State) returns (run: seq<Action>)
    requires FreshCard(s)
    ensures IsRun(s, run)
    ensures var t := Exec(s, run);
      {1, 3} <= t.h.live && Lookup(t.d.ltr, 1) == Lookup(t.d.ltr, 3) == 2 && Lookup(t.d.rtl, 2) == 3 &&
      !IdMaps.Inverse(t)
  {
    run := RegisterRound(s, 1, true, 2);
    var s1 := Exec(s, run);
    var next := RegisterRound(s1, 2, true, 1);
    Join(s, run, next);
    run := run + next;
    var s2 := Exec(s1, next);
    next := ReleaseRound(s2, 2);
    Join(s, run, next);
    run := run + next;
    var s3 := Exec(s2, next);
    next := RegisterRound(s3, 3, true, 2);
    Join(s, run, next);
    run := run + next;
  }

  /** A registration that CAPI refuses is confirmed all the same, under whatever id the answer
      happens to carry: application 2 takes over the translation of application 1. */
  lemma RefusalBreaksTheMaps(s: State) returns (run: seq<Action>)
    requires FreshCard(s)
    ensures IsRun(s, run)
    ensures var t := Exec(s, run);
      {1, 2} <= t.h.live && t.server.held == {1} && WellFormed(t.card) && AppOf(t.card, 2).Confirmed? &&
      Lookup(t.d.ltr, 1) == Lookup(t.d.ltr, 2) == 1 && Lookup(t.d.rtl, 1) == 2 && !IdMaps.Inverse(t)
  {
    run := RegisterRound(s, 1, true, 1);
    var s1 := Exec(s, run);
    var next := RegisterRound(s1, 2, false, 1);
    Join(s, run, next);
    run := run + next;
  }

  /** The daemon handles the REGISTER of application 1 while the kernel is already releasing
      it: the RELEASE waits in the queue, the module has forgotten the application, and then the
      late APPL_REGISTERED marks it confirmed. */
  lemma RegisterOvertaken(s: State) returns (run: seq<Action>)
    requires FreshCard(s)
    ensures IsRun(s, run)
    ensures var t := Exec(s, run);
      t.card.queue == [ControlMessage(1, TYPE_RELEASE_APP)] && Quiet(t.(card := t.card.(queue := []))) &&
      t.h.live == {1} && t.server.held == {1} && t.h.kernel == {} &&
      |t.card.apps| == CAPI_MAXAPPL && AppOf(t.card, 1).Confirmed?
  {
    run := RegisterBegins(s, 1);
    var t := Exec(s, run);
    var op := FromKernel(ReleaseAppl(1, true));
    Extend(s, run, op);
    run := run + [op];
    var u := Step(t, op);
    assert u.card == Mark(t.card.(queue := [ControlMessage(1, TYPE_RELEASE_APP)]), 1, Unused);
    run := RegisterEnds(u, s, run, 1, true, 1);
  }

  /** A late APPL_REGISTERED puts the module out of step: kernel, daemon and server have all let
      go of application 1, but the module believes it is confirmed, and a new registration of it
      has no effect until the kernel releases it once more. */
  lemma LateConfirmationBlocks(s: State) returns (run: seq<Action>)
    requires FreshCard(s)
    ensures IsRun(s, run)
    ensures var t := Exec(s, run);
      Quiet(t) && t.h.live == {} && t.server.held == {} && t.h.kernel == {} && AppOf(t.card, 1).Confirmed? &&
      !KernelView.InStep(t) &&
      forall p, alloc :: Kernel(t.card, KernelOp.RegisterAppl(1, p, alloc)) == t.card
  {
    run := RegisterOvertaken(s);
    var next := ReleaseQueued(Exec(s, run), 1);
    Join(s, run, next);
    run := run + next;
  }

  /** Local application 1 registers and gets remote id 2; its next message is a PUTMESSAGE request
      for application 2 at the server. */
  lemma MessageGoesOutMapped(s: State, m: Message) returns (run: seq<Action>)
    requires FreshCard(s) && 6 <= |m| <= DAEMON_BUFFER && AppId(m) == 1 && Command(m) != TYPE_PROXY
    ensures IsRun(s, run)
    ensures var t := Exec(s, run);
      |t.net.up| == 1 && t.net.up[0].kind.PutMessage? && t.net.up[0].app == 2 && m in t.h.delivered
  {
    run := RegisterRound(s, 1, true, 2);
    var t := Exec(s, run);
    var next := Prompt(t, SendMessage(m), m);
    Join(s, run, next);
    run := run + next;
  }

  // ---- what the server and a refused registration do --------------------------------------

  /** The packet `a` was put into the channel as the answer to `p`. */
  predicate AnsweredWith(s: State, t: State, p: Packet, app: nat, perror: nat) {
    t.net.down == s.net.down + [Packet(p.id, p.kind, app, p.session, perror)] && t.net.waiters == s.net.waiters
  }

  /** Request by request, what the server answers and what CAPI holds afterwards. A WAITFORSIGNAL
      is answered at once only if there is no process to wait in. */
  lemma DispatchSays(s: State, r: Reply)
    requires s.net.up != [] && s.net.up[0].session == s.server.session
    ensures var p, t := s.net.up[0], Dispatch(s, r);
      t.net.up == s.net.up[1..] && t.d == s.d && t.card == s.card &&
      match p.kind
      case WaitForSignal =>
        t.server.held == s.server.held &&
        (if r.ok then t.net.waiters == s.net.waiters + [p] && t.net.down == s.net.down
         else AnsweredWith(s, t, p, p.app, 0x80))
      case Register =>
        AnsweredWith(s, t, p, r.app, 0) && t.server.held == s.server.held + if r.ok then {r.app} else {}
      case Release =>
        AnsweredWith(s, t, p, p.app, 0) && t.server.held == s.server.held - if r.ok then {p.app} else {}
      case _ =>
        AnsweredWith(s, t, p, p.app, if r.parseError then 6 else 0) && t.server.held == s.server.held
  {
  }

  /** A request of another session is dropped. */
  lemma OtherSessionIgnored(s: State, r: Reply)
    requires s.net.up != [] && s.net.up[0].session != s.server.session
    ensures Dispatch(s, r) == s.(net := Net(s.net.up[1..], s.net.waiters, s.net.down))
  {
  }

  /** If the server did report an error, the application would be marked revoked, and nothing else
      would change. */
  lemma RefusedRegistration(s: State, appl: word, a: Packet)
    requires ValidAppl(appl) && WellFormed(s.card) && a.perror != 0
    ensures var t := Registered(s, appl, a);
      t.net == s.net && t.d == s.d && t.h.live == s.h.live && t.h.accepted == s.h.accepted &&
      t.card == s.card.(apps := s.card.apps[appl - 1 := Revoked])
  {
  }
}
