/** What the daemon is told of each application: the control messages it has read, against the
    ones still queued and what the module believes. */
module Orders {
  import opened CapiMessage
  import opened CardModel
  import opened Protocol
  import opened KernelView
  import opened Scenarios
  import ModuleSide

  lemma BalanceAppend(a: seq<Message>, b: seq<Message>, appl: int)
    ensures Balance(a + b, appl) == Balance(a, appl) + Balance(b, appl)
  {
    CountAppend(a, b, TYPE_REGISTER_APP, appl);
    CountAppend(a, b, TYPE_RELEASE_APP, appl);
  }

  function Weight(m: Message, appl: int): int {
    if IsControl(m, TYPE_REGISTER_APP, appl) then 1 else if IsControl(m, TYPE_RELEASE_APP, appl) then -1 else 0
  }

  lemma BalanceOne(m: Message, appl: int)
    ensures Balance([m], appl) == Weight(m, appl)
  {
    CountOne(m, TYPE_REGISTER_APP, appl);
    CountOne(m, TYPE_RELEASE_APP, appl);
  }

  lemma {:induction false} RuntsWeighNothing(ms: seq<Message>, appl: int)
    requires forall i :: 0 <= i < |ms| ==> |ms[i]| < 6
    ensures Balance(ms, appl) == 0
  {
    if ms != [] {
      RuntsWeighNothing(ms[1..], appl);
    }
  }

  // ---- first in, first out, as the daemon sees it -----------------------------------------

  function PostedBy(s: State, a: Action): seq<Message>
    requires Enabled(s, a)
  {
    if a.FromKernel? then Posted(s.card, a.op) else []
  }

  /** Every message the run puts into the card's queue. */
  function AllPosted(s: State, acts: seq<Action>): seq<Message>
    requires IsRun(s, acts)
    decreases |acts|
  {
    if acts == [] then [] else PostedBy(s, acts[0]) + AllPosted(Step(s, acts[0]), acts[1..])
  }

  /** From `s` to `t`, with `posted` put into the queue on the way, the daemon has read what is
      no longer queued, all of it and in order, less the messages shorter than a CAPI header. */
  ghost predicate InOrder(s: State, posted: seq<Message>, t: State) {
    s.h.delivered + LongOnly(s.card.queue) + LongOnly(posted) == t.h.delivered + LongOnly(t.card.queue)
  }

  lemma InOrderJoin(s: State, p: seq<Message>, t: State, q: seq<Message>, u: State)
    requires InOrder(s, p, t) && InOrder(t, q, u)
    ensures InOrder(s, p + q, u)
  {
    LongOnlyAppend(p, q);
  }

  predicate NoFlush(acts: seq<Action>) {
    forall a | a in acts :: a.FromKernel? ==> !Flushes(a.op)
  }

  /** What a read takes from the queue, and what of it the daemon gets. */
  lemma ReadMoves(s: State) returns (runts: seq<Message>, out: seq<Message>, rest: seq<Message>)
    requires Enabled(s, FromModule)
    ensures s.card.queue == runts + out + rest
    ensures ReadModule(s).card == s.card.(queue := rest) && ReadModule(s).h.delivered == s.h.delivered + out
    ensures forall i :: 0 <= i < |runts| ==> |runts[i]| < 6
    ensures |out| <= 1 && (out != [] ==> |out[0]| >= 6)
  {
    ReadTakes(s.card, DAEMON_BUFFER, 0);
    var (c, r) := Read(s.card, DAEMON_BUFFER, 0);
    runts := s.card.queue[..Runts(s.card.queue, DAEMON_BUFFER)];
    out := if r.Delivered? then [r.m] else [];
    rest := c.queue;
    RuntsAreShort(s.card.queue, DAEMON_BUFFER);
    if r.Delivered? {
      ModuleSide.ObeyFrame(Took(s, c, r.m), r.m);
    }
  }

  lemma ReadInOrder(s: State)
    requires Enabled(s, FromModule)
    ensures InOrder(s, [], ReadModule(s))
  {
    var runts, out, rest := ReadMoves(s);
    LongOnlyAppend(runts + out, rest);
    LongOnlyAppend(runts, out);
    NoLong(runts);
    assert out != [] ==> out[1..] == [] && out == [out[0]];
  }

  lemma StepInOrder(s: State, a: Action)
    requires Enabled(s, a) && (a.FromKernel? ==> !Flushes(a.op))
    ensures InOrder(s, PostedBy(s, a), Step(s, a))
  {
    if a.FromKernel? {
      KernelQueue(s.card, a.op);
      LongOnlyAppend(s.card.queue, Posted(s.card, a.op));
    } else if a.FromModule? {
      ReadInOrder(s);
    } else {
      OthersLeaveTheQueue(s, a);
    }
  }

  lemma OthersLeaveTheQueue(s: State, a: Action)
    requires Enabled(s, a) && !a.FromKernel? && !a.FromModule?
    ensures Step(s, a).card.queue == s.card.queue && Step(s, a).h.delivered == s.h.delivered
  {
    match a
    case Serve(r) =>
    case Wake(i) =>
    case Receive =>
    case Handle =>
  }

  /** Between flushes the daemon reads what the kernel queued, in that order. */
  lemma {:induction false} DaemonReadsInOrder(s: State, acts: seq<Action>)
    requires IsRun(s, acts) && NoFlush(acts)
    ensures InOrder(s, AllPosted(s, acts), Exec(s, acts))
    decreases |acts|
  {
    if acts != [] {
      var a, rest, t := acts[0], acts[1..], Step(s, acts[0]);
      assert a in acts && forall b | b in rest :: b in acts;
      StepInOrder(s, a);
      DaemonReadsInOrder(t, rest);
      InOrderJoin(s, PostedBy(s, a), t, AllPosted(t, rest), Exec(t, rest));
    }
  }

  // ---- registrations and releases ---------------------------------------------------------

  /** At every point one REGISTER more than RELEASE messages, or as many. */
  predicate Alternates(ms: seq<Message>, appl: int) {
    forall n | 0 <= n <= |ms| :: 0 <= Balance(ms[..n], appl) <= 1
  }

  /** Once it has read its queue, the daemon will have been told what the module believes. */
  ghost predicate InTune(s: State, appl: int)
    requires ValidAppl(appl)
  {
    WellFormed(s.card) &&
    Balance(s.h.delivered, appl) + Balance(s.card.queue, appl) == if AppOf(s.card, appl).Unused? then 0 else 1
  }

  /** A control message that is due gets into the queue, none is forged, and a flush drops no
      unmatched one; and no registration ends after the application has been released. */
  ghost predicate Tuned(s: State, a: Action, appl: int)
    requires ValidAppl(appl) && WellFormed(s.card) && Enabled(s, a)
  {
    match a
    case FromKernel(op) => TunedOp(s.card, op, appl)
    case Handle => Completes(s, a) && s.d.mode.call.appl == appl ==> !AppOf(s.card, appl).Unused?
    case _ => true
  }

  predicate TunedOp(c: Card, op: KernelOp, appl: int)
    requires ValidAppl(appl) && WellFormed(c)
  {
    match op
    case RegisterAppl(x, _, alloc) =>
      x as int == appl && !c.status.Free? && AppOf(c, appl).Unused? ==> alloc && Accepts(c)
    case ReleaseAppl(x, alloc) => x as int == appl && !AppOf(c, appl).Unused? ==> alloc && Accepts(c)
    case SendMessage(m) => Accepts(c) ==> Weight(m, appl) == 0
    case ResetCtr => Balance(c.queue, appl) == 0
    case RemoveCtr(alloc) => alloc ==> Balance(c.queue, appl) == 0
  }

  lemma PostedWeighs(c: Card, op: KernelOp, appl: int)
    requires WellFormed(c) && Allowed(op)
    ensures Balance(Posted(c, op), appl) == if Posted(c, op) == [] then 0 else Weight(Posted(c, op)[0], appl)
  {
    var p := Posted(c, op);
    if p != [] {
      assert p == [p[0]];
      BalanceOne(p[0], appl);
    }
  }

  lemma KernelKeepsTuneIff(s: State, op: KernelOp, appl: int)
    requires ValidAppl(appl) && InTune(s, appl) && Enabled(s, FromKernel(op))
    ensures InTune(KernelStep(s, op), appl) <==> TunedOp(s.card, op, appl)
  {
    var c, p := s.card, Posted(s.card, op);
    KernelQueue(c, op);
    PostedWeighs(c, op, appl);
    BalanceAppend(if Flushes(op) then [] else c.queue, p, appl);
  }

  lemma ReadKeepsTune(s: State, appl: int)
    requires ValidAppl(appl) && InTune(s, appl) && Enabled(s, FromModule)
    ensures InTune(ReadModule(s), appl)
  {
    var runts, out, rest := ReadMoves(s);
    RuntsWeighNothing(runts, appl);
    BalanceAppend(runts + out, rest, appl);
    BalanceAppend(runts, out, appl);
    BalanceAppend(s.h.delivered, out, appl);
  }

  lemma StepKeepsTuneIff(s: State, a: Action, appl: int)
    requires ValidAppl(appl) && InTune(s, appl) && Enabled(s, a)
    ensures InTune(Step(s, a), appl) <==> Tuned(s, a, appl)
  {
    if a.FromKernel? {
      KernelKeepsTuneIff(s, a.op, appl);
    } else if a.FromModule? {
      ReadKeepsTune(s, appl);
    } else {
      StepKeepsWellFormed(s, a);
      OthersLeaveTheQueue(s, a);
      if Completes(s, a) {
        AppMarked(s, a);
      } else {
        AppsUntouched(s, a);
      }
    }
  }

  ghost predicate TunedRun(s: State, acts: seq<Action>, appl: int)
    requires ValidAppl(appl) && WellFormed(s.card) && IsRun(s, acts)
    decreases |acts|
  {
    acts == [] ||
    (Tuned(s, acts[0], appl) && (StepKeepsWellFormed(s, acts[0]); TunedRun(Step(s, acts[0]), acts[1..], appl)))
  }

  ghost predicate AlwaysInTune(s: State, acts: seq<Action>, appl: int)
    requires ValidAppl(appl) && IsRun(s, acts)
    decreases |acts|
  {
    InTune(s, appl) && (acts == [] || AlwaysInTune(Step(s, acts[0]), acts[1..], appl))
  }

  /** Daemon and module stay in tune throughout a run exactly if no control message of the
      application is forged or lost unmatched, and none of its registrations ends late. */
  lemma {:induction false} InTuneIffTuned(s: State, acts: seq<Action>, appl: int)
    requires ValidAppl(appl) && InTune(s, appl) && IsRun(s, acts)
    ensures AlwaysInTune(s, acts, appl) <==> TunedRun(s, acts, appl)
    decreases |acts|
  {
    if acts != [] {
      var t := Step(s, acts[0]);
      StepKeepsTuneIff(s, acts[0], appl);
      if InTune(t, appl) {
        InTuneIffTuned(t, acts[1..], appl);
      } else {
        assert !AlwaysInTune(t, acts[1..], appl);
      }
    }
  }

  lemma AlternatesPrefix(a: seq<Message>, b: seq<Message>, appl: int)
    requires Alternates(a + b, appl)
    ensures Alternates(a, appl)
  {
    forall n | 0 <= n <= |a| ensures 0 <= Balance(a[..n], appl) <= 1 {
      assert (a + b)[..n] == a[..n];
    }
  }

  lemma AlternatesOneMore(a: seq<Message>, p: seq<Message>, appl: int)
    requires Alternates(a, appl) && |p| <= 1 && 0 <= Balance(a + p, appl) <= 1
    ensures Alternates(a + p, appl)
  {
    var all := a + p;
    forall n | 0 <= n <= |all| ensures 0 <= Balance(all[..n], appl) <= 1 {
      if n <= |a| {
        assert all[..n] == a[..n];
      } else {
        assert all[..n] == all;
      }
    }
  }

  lemma AlternatesWithout(a: seq<Message>, runts: seq<Message>, b: seq<Message>, appl: int)
    requires Alternates(a + runts + b, appl) && Balance(runts, appl) == 0
    ensures Alternates(a + b, appl)
  {
    var with, without := a + runts + b, a + b;
    forall n | 0 <= n <= |without| ensures 0 <= Balance(without[..n], appl) <= 1 {
      if n <= |a| {
        assert without[..n] == with[..n];
      } else {
        var rest := b[..n - |a|];
        assert without[..n] == a + rest && with[..n + |runts|] == a + runts + rest;
        BalanceAppend(a, rest, appl);
        BalanceAppend(a + runts, rest, appl);
        BalanceAppend(a, runts, appl);
      }
    }
  }

  lemma AlternatesTaken(
    told: seq<Message>, runts: seq<Message>, out: seq<Message>, rest: seq<Message>, appl: int)
    requires Alternates(told + (runts + out + rest), appl) && Balance(runts, appl) == 0
    ensures Alternates((told + out) + rest, appl)
  {
    assert told + (runts + out + rest) == told + runts + (out + rest);
    AlternatesWithout(told, runts, out + rest, appl);
    assert (told + out) + rest == told + (out + rest);
  }

  /** In tune, and the control messages read and still queued alternate. */
  ghost predicate Steady(s: State, appl: int)
    requires ValidAppl(appl)
  {
    InTune(s, appl) && Alternates(s.h.delivered + s.card.queue, appl)
  }

  lemma KernelKeepsSteady(s: State, op: KernelOp, appl: int)
    requires ValidAppl(appl) && Steady(s, appl) && Enabled(s, FromKernel(op)) && TunedOp(s.card, op, appl)
    ensures Steady(KernelStep(s, op), appl)
  {
    var t := KernelStep(s, op);
    var told, kept, p := s.h.delivered, if Flushes(op) then [] else s.card.queue, Posted(s.card, op);
    KernelKeepsTuneIff(s, op, appl);
    KernelQueue(s.card, op);
    AlternatesPrefix(told, s.card.queue, appl);
    assert told + [] == told;
    BalanceAppend(told, t.card.queue, appl);
    assert told + t.card.queue == (told + kept) + p;
    AlternatesOneMore(told + kept, p, appl);
  }

  lemma ReadKeepsSteady(s: State, appl: int)
    requires ValidAppl(appl) && Steady(s, appl) && Enabled(s, FromModule)
    ensures Steady(ReadModule(s), appl)
  {
    var runts, out, rest := ReadMoves(s);
    ReadKeepsTune(s, appl);
    RuntsWeighNothing(runts, appl);
    AlternatesTaken(s.h.delivered, runts, out, rest, appl);
  }

  lemma StepKeepsSteady(s: State, a: Action, appl: int)
    requires ValidAppl(appl) && Steady(s, appl) && Enabled(s, a) && Tuned(s, a, appl)
    ensures Steady(Step(s, a), appl)
  {
    if a.FromKernel? {
      KernelKeepsSteady(s, a.op, appl);
    } else if a.FromModule? {
      ReadKeepsSteady(s, appl);
    } else {
      StepKeepsTuneIff(s, a, appl);
      OthersLeaveTheQueue(s, a);
    }
  }

  /** On such runs the daemon reads an application's REGISTER and RELEASE messages in turn,
      REGISTER first, and never more than one ahead. */
  lemma {:induction false} DaemonToldInTurn(s: State, acts: seq<Action>, appl: int)
    requires ValidAppl(appl) && Steady(s, appl) && IsRun(s, acts) && TunedRun(s, acts, appl)
    ensures Steady(Exec(s, acts), appl) && Alternates(Exec(s, acts).h.delivered, appl)
    decreases |acts|
  {
    if acts != [] {
      StepKeepsSteady(s, acts[0], appl);
      DaemonToldInTurn(Step(s, acts[0]), acts[1..], appl);
    } else {
      AlternatesPrefix(s.h.delivered, s.card.queue, appl);
    }
  }

  lemma FreshIsSteady(s: State, appl: int)
    requires FreshCard(s) && ValidAppl(appl)
    ensures Steady(s, appl)
  {
    assert s.h.delivered + s.card.queue == [];
  }

  /** A reset between the two makes the daemon read a RELEASE of an application it has never
      heard of. */
  lemma ResetBreaksTheOrder(s: State) returns (run: seq<Action>)
    requires FreshCard(s)
    ensures IsRun(s, run) && Exec(s, run).h.delivered == [ControlMessage(1, TYPE_RELEASE_APP)]
    ensures !Alternates(Exec(s, run).h.delivered, 1)
  {
    var m := ControlMessage(1, TYPE_RELEASE_APP);
    var v;
    run, v := RegisterLost(s);
    ReadOne(v, m);
    Extend(s, run, FromModule);
    run := run + [FromModule];
    BalanceOne(m, 1);
    assert [m][..1] == [m];
  }

  lemma ResetBetween(c: Card)
    requires WellFormed(c) && !c.status.Free? && c.queue == [] && AppOf(c, 1).Unused?
    ensures var d := Kernel(Kernel(c, RegisterAppl(1, Window, true)), ResetCtr);
      Kernel(d, ReleaseAppl(1, true)).queue == [ControlMessage(1, TYPE_RELEASE_APP)]
  {
    var d := Kernel(c, RegisterAppl(1, Window, true));
    assert d.status == c.status && AppOf(d, 1) == Pending;
  }

  lemma OneMoreOp(s: State, acts: seq<Action>, op: KernelOp) returns (run: seq<Action>, t: State)
    requires IsRun(s, acts) && WellFormed(Exec(s, acts).card) && Allowed(op) && !op.SendMessage?
    ensures IsRun(s, run) && Exec(s, run) == t && t.d == Exec(s, acts).d
    ensures t.card == Kernel(Exec(s, acts).card, op) && t.h.delivered == Exec(s, acts).h.delivered
  {
    Extend(s, acts, FromKernel(op));
    run := acts + [FromKernel(op)];
    t := Exec(s, run);
  }

  lemma RegisterLost(s: State) returns (run: seq<Action>, t: State)
    requires FreshCard(s)
    ensures IsRun(s, run) && Exec(s, run) == t && t.card.queue == [ControlMessage(1, TYPE_RELEASE_APP)]
    ensures t.d == s.d && t.h.delivered == []
  {
    ResetBetween(s.card);
    run, t := OneMoreOp(s, [], RegisterAppl(1, Window, true));
    run, t := OneMoreOp(s, run, ResetCtr);
    run, t := OneMoreOp(s, run, ReleaseAppl(1, true));
  }
}
