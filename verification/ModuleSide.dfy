/** What the module and the daemon owe each other: every REGISTER message is accounted for,
    and a removed card shuts the daemon down. */
module ModuleSide {
  import opened CapiMessage
  import opened CardModel
  import opened Protocol
  import opened Conservation

  // ---- registrations ----------------------------------------------------------------------

  /** The REGISTER the daemon is working on. */
  function Handling(m: Mode): multiset<nat> {
    if m.Waiting? && m.call.RegisterCall? then multiset{m.call.appl} else multiset{}
  }

  ghost predicate Accounted(queue: seq<Message>, mode: Mode, h: History) {
    h.regQueued == RegsOf(queue) + h.regFlushed + Handling(mode) + h.regConfirmed + h.regFailed
  }

  /** The server never puts a proxy error into a REGISTER answer. */
  ghost predicate NoRefusals(s: State) {
    s.h.regFailed == multiset{} && forall p | p in Inbox(s) :: p.kind.Register? ==> p.perror == PERROR_NONE
  }

  lemma {:induction false} RegsAppend(a: seq<Message>, b: seq<Message>)
    ensures RegsOf(a + b) == RegsOf(a) + RegsOf(b)
  {
    if a == [] {
      assert a + b == b;
    } else {
      assert a + b == [a[0]] + (a[1..] + b);
      RegsAppend(a[1..], b);
    }
  }

  lemma {:induction false} RuntsRegisterNothing(ms: seq<Message>)
    requires forall i :: 0 <= i < |ms| ==> |ms[i]| < 6
    ensures RegsOf(ms) == multiset{}
  {
    if ms != [] {
      RuntsRegisterNothing(ms[1..]);
    }
  }

  lemma KernelKeepsAccounts(s: State, op: KernelOp)
    requires WellFormed(s.card) && Allowed(op) && Accounted(s.card.queue, s.d.mode, s.h)
    ensures var t := KernelStep(s, op); Accounted(t.card.queue, t.d.mode, t.h)
  {
    var posted := Posted(s.card, op);
    KernelQueue(s.card, op);
    if Flushes(op) {
      assert KernelStep(s, op).card.queue == posted;
    } else {
      RegsAppend(s.card.queue, posted);
    }
  }

  lemma ReadRegs(c: Card)
    ensures var (c', r) := Read(c, DAEMON_BUFFER, 0);
      RegsOf(c.queue) == (if r.Delivered? then RegOf(r.m) else multiset{}) + RegsOf(c'.queue)
  {
    ReadTakes(c, DAEMON_BUFFER, 0);
    var (c', r) := Read(c, DAEMON_BUFFER, 0);
    var runts := c.queue[..Runts(c.queue, DAEMON_BUFFER)];
    var out := if r.Delivered? then [r.m] else [];
    RegsAppend(runts + out, c'.queue);
    RegsAppend(runts, out);
    RuntsRegisterNothing(runts);
    assert RegsOf([]) == multiset{};
    assert r.Delivered? ==> RegsOf([r.m]) == RegOf(r.m) + RegsOf([]);
  }

  lemma ObeyFrame(s: State, m: Message)
    requires |m| >= 6
    ensures Obey(s, m).card == s.card && Inbox(Obey(s, m)) == Inbox(s)
    ensures Obey(s, m).h.(live := s.h.live, sent := s.h.sent) == s.h
  {
  }

  lemma ObeyHandles(s: State, m: Message)
    requires |m| >= 6 && s.d.mode.Idle?
    ensures Handling(Obey(s, m).d.mode) == RegOf(m)
  {
  }

  lemma ObeyKeepsAccounts(s: State, m: Message)
    requires |m| >= 6 && s.d.mode.Idle?
    requires s.h.regQueued == RegsOf(s.card.queue) + s.h.regFlushed + RegOf(m) + s.h.regConfirmed + s.h.regFailed
    ensures var t := Obey(s, m); Accounted(t.card.queue, t.d.mode, t.h)
  {
    ObeyFrame(s, m);
    ObeyHandles(s, m);
  }

  lemma ReadKeepsAccounts(s: State)
    requires Enabled(s, FromModule) && Accounted(s.card.queue, s.d.mode, s.h)
    ensures var t := ReadModule(s); Accounted(t.card.queue, t.d.mode, t.h)
  {
    ReadTakes(s.card, DAEMON_BUFFER, 0);
    ReadRegs(s.card);
    var (c, r) := Read(s.card, DAEMON_BUFFER, 0);
    if r.Delivered? {
      ObeyKeepsAccounts(Took(s, c, r.m), r.m);
    }
  }

  lemma RegisteredKeepsAccounts(s: State, appl: nat, a: Packet)
    requires s.d.mode.Idle?
    requires s.h.regQueued ==
      RegsOf(s.card.queue) + s.h.regFlushed + multiset{appl} + s.h.regConfirmed + s.h.regFailed
    ensures var t := Registered(s, appl, a); Accounted(t.card.queue, t.d.mode, t.h)
  {
  }

  lemma HandleKeepsAccounts(s: State)
    requires Enabled(s, Handle) && Accounted(s.card.queue, s.d.mode, s.h)
    ensures var t := HandlePacket(s); Accounted(t.card.queue, t.d.mode, t.h)
  {
    if Awaited(s.d, s.d.hand.value) && s.d.mode.call.RegisterCall? {
      RegisteredKeepsAccounts(SetMode(Unhand(s), Idle), s.d.mode.call.appl, s.d.hand.value);
    }
  }

  lemma StepKeepsAccounts(s: State, a: Action)
    requires Enabled(s, a) && Accounted(s.card.queue, s.d.mode, s.h)
    ensures var t := Step(s, a); Accounted(t.card.queue, t.d.mode, t.h)
  {
    match a
    case Serve(r) =>
    case Wake(i) =>
    case Receive =>
    case Handle => HandleKeepsAccounts(s);
    case FromModule => ReadKeepsAccounts(s);
    case FromKernel(op) => KernelKeepsAccounts(s, op);
  }

  lemma {:induction false} RunKeepsAccounts(s: State, acts: seq<Action>)
    requires IsRun(s, acts) && Accounted(s.card.queue, s.d.mode, s.h)
    ensures var t := Exec(s, acts); Accounted(t.card.queue, t.d.mode, t.h)
    decreases |acts|
  {
    if acts != [] {
      StepKeepsAccounts(s, acts[0]);
      RunKeepsAccounts(Step(s, acts[0]), acts[1..]);
    }
  }

  lemma ServeKeepsNoRefusals(s: State, r: Reply)
    requires Enabled(s, Serve(r)) && NoRefusals(s)
    ensures NoRefusals(Dispatch(s, r))
  {
    var p := s.net.up[0];
    if p.session == s.server.session && !Forks(p, r) {
      assert Inbox(Dispatch(s, r)) == Inbox(s) + [AnswerTo(p, r)];
    } else {
      assert Inbox(Dispatch(s, r)) == Inbox(s);
    }
  }

  lemma HandleKeepsNoRefusals(s: State)
    requires Enabled(s, Handle) && NoRefusals(s)
    ensures NoRefusals(HandlePacket(s))
  {
    HandleFrame(s);
    assert s.d.hand.value in Inbox(s);
  }

  lemma ReadKeepsNoRefusals(s: State)
    requires Enabled(s, FromModule) && NoRefusals(s)
    ensures NoRefusals(ReadModule(s))
  {
    ReadTakes(s.card, DAEMON_BUFFER, 0);
    var (c, r) := Read(s.card, DAEMON_BUFFER, 0);
    if r.Delivered? {
      ObeyFrame(Took(s, c, r.m), r.m);
      SameFlow(s, Took(s, c, r.m), CallIn);
    }
  }

  lemma StepKeepsNoRefusals(s: State, a: Action)
    requires Wire(s) && Enabled(s, a) && NoRefusals(s)
    ensures NoRefusals(Step(s, a))
  {
    match a
    case Serve(r) => ServeKeepsNoRefusals(s, r);
    case Wake(i) =>
      AnswerFlow(Exit(s, i), WaiterAnswer(s.net.waiters[i]), CallIn);
      assert s.net.waiters[i] in s.net.waiters;
    case Receive => TakeFlow(s, CallIn);
    case Handle => HandleKeepsNoRefusals(s);
    case FromModule => ReadKeepsNoRefusals(s);
    case FromKernel(op) => SameFlow(s, KernelStep(s, op), CallIn);
  }

  lemma {:induction false} RunKeepsNoRefusals(s: State, acts: seq<Action>)
    requires Core(s) && IsRun(s, acts) && NoRefusals(s)
    ensures NoRefusals(Exec(s, acts))
    decreases |acts|
  {
    if acts != [] {
      StepKeepsCore(s, acts[0]);
      StepKeepsNoRefusals(s, acts[0]);
      RunKeepsNoRefusals(Step(s, acts[0]), acts[1..]);
    }
  }

  /** For each application, the REGISTER messages ever accepted into the queue are those still
      queued, those flushed, the one being handled and those answered by exactly one ioctl;
      and that ioctl is always APPL_REGISTERED, even when CAPI refused the registration. */
  lemma RegistrationsAccounted(s: State, acts: seq<Action>)
    requires Initial(s) && IsRun(s, acts)
    ensures var t := Exec(s, acts);
      t.h.regFailed == multiset{} &&
      t.h.regQueued == RegsOf(t.card.queue) + t.h.regFlushed + Handling(t.d.mode) + t.h.regConfirmed
  {
    InitialCore(s);
    assert Inbox(s) == [];
    RunKeepsAccounts(s, acts);
    RunKeepsNoRefusals(s, acts);
  }

  // ---- shutdown ---------------------------------------------------------------------------

  /** Either SHUTDOWN is the next message any read will deliver and nothing has been delivered
      since `before`, or it was the one message delivered since and the daemon has left its loop. */
  ghost predicate ShuttingDown(s: State, before: seq<Message>) {
    if s.d.mode.Down? && s.h.delivered == before + [Shutdown()] then true
    else !s.d.mode.Down? && s.h.delivered == before && s.card.queue != [] && s.card.queue[0] == Shutdown()
  }

  predicate NoReset(acts: seq<Action>) {
    forall a | a in acts :: !(a.FromKernel? && a.op.ResetCtr?)
  }

  lemma ReadShutdown(s: State)
    requires Enabled(s, FromModule) && s.card.queue != [] && s.card.queue[0] == Shutdown()
    ensures ReadModule(s).d.mode.Down? && ReadModule(s).h.delivered == s.h.delivered + [Shutdown()]
  {
    ReadTakes(s.card, DAEMON_BUFFER, 0);
    assert Read(s.card, DAEMON_BUFFER, 0).1 == Delivered(Shutdown());
  }

  lemma StepKeepsShuttingDown(s: State, a: Action, before: seq<Message>)
    requires Enabled(s, a) && ShuttingDown(s, before) && NoReset([a])
    ensures ShuttingDown(Step(s, a), before)
  {
    match a
    case Serve(r) =>
    case Wake(i) =>
    case Receive =>
    case Handle =>
      assert HandlePacket(s).card.queue == s.card.queue;
      assert HandlePacket(s).h.delivered == s.h.delivered;
    case FromModule => ReadShutdown(s);
    case FromKernel(op) =>
      assert a in [a];
      KernelQueue(s.card, op);
  }

  lemma {:induction false} RunKeepsShuttingDown(s: State, acts: seq<Action>, before: seq<Message>)
    requires IsRun(s, acts) && NoReset(acts) && ShuttingDown(s, before)
    ensures ShuttingDown(Exec(s, acts), before)
    decreases |acts|
  {
    if acts != [] {
      StepKeepsShuttingDown(s, acts[0], before);
      RunKeepsShuttingDown(Step(s, acts[0]), acts[1..], before);
    }
  }

  /** Orderly shutdown. Once `remove_ctr` has succeeded, and as long as the card is not reset,
      the first and last message the daemon reads is SHUTDOWN; nothing queued earlier reaches
      it, and having read it the daemon is out of its loop. */
  lemma OrderlyShutdown(s: State, acts: seq<Action>)
    requires WellFormed(s.card) && !s.d.mode.Down?
    requires var t := KernelStep(s, RemoveCtr(true)); IsRun(t, acts) && NoReset(acts)
    ensures var t := Exec(KernelStep(s, RemoveCtr(true)), acts);
      if t.h.delivered == s.h.delivered
      then !t.d.mode.Down? && t.card.queue != [] && t.card.queue[0] == Shutdown()
      else t.h.delivered == s.h.delivered + [Shutdown()] && t.d.mode.Down?
  {
    var t := KernelStep(s, RemoveCtr(true));
    KernelQueue(s.card, RemoveCtr(true));
    assert t.card.queue == [Shutdown()];
    RunKeepsShuttingDown(t, acts, s.h.delivered);
  }

  // ---- when SHUTDOWN arrives ----------------------------------------------------------------

  predicate IsShutdown(m: Message) {
    |m| >= 6 && Command(m) == TYPE_PROXY && Subcommand(m) == TYPE_SHUTDOWN
  }

  /** Only the module itself makes SHUTDOWN messages. */
  predicate Genuine(acts: seq<Action>) {
    forall a | a in acts :: a.FromKernel? && a.op.SendMessage? ==> !IsShutdown(a.op.m)
  }

  /** Does the daemon read its device after a successful removal with no reset in between?
      `notice` says whether a SHUTDOWN is waiting at the start. */
  predicate ReadInTime(notice: bool, acts: seq<Action>)
    decreases |acts|
  {
    acts != [] &&
    match acts[0]
    case FromModule => notice || ReadInTime(false, acts[1..])
    case FromKernel(ResetCtr) => ReadInTime(false, acts[1..])
    case FromKernel(RemoveCtr(alloc)) => ReadInTime(notice || alloc, acts[1..])
    case _ => ReadInTime(notice, acts[1..])
  }

  /** A waiting SHUTDOWN is at the head of the queue; otherwise there is none in it. */
  ghost predicate Notice(c: Card, notice: bool) {
    if notice then c.queue != [] && c.queue[0] == Shutdown() else forall m | m in c.queue :: !IsShutdown(m)
  }

  function NoticeAfter(notice: bool, op: KernelOp): bool {
    match op
    case ResetCtr => false
    case RemoveCtr(alloc) => notice || alloc
    case _ => notice
  }

  lemma KernelKeepsNotice(c: Card, op: KernelOp, notice: bool)
    requires WellFormed(c) && Allowed(op) && Notice(c, notice) && (op.SendMessage? ==> !IsShutdown(op.m))
    ensures Notice(Kernel(c, op), NoticeAfter(notice, op))
  {
    KernelQueue(c, op);
  }

  /** Without a notice the daemon reads on; with one it goes down. */
  lemma ReadUnnoticed(s: State)
    requires Enabled(s, FromModule) && Notice(s.card, false)
    ensures !ReadModule(s).d.mode.Down? && Notice(ReadModule(s).card, false)
  {
    ReadTakes(s.card, DAEMON_BUFFER, 0);
    var (c, r) := Read(s.card, DAEMON_BUFFER, 0);
    assert forall m | m in c.queue :: m in s.card.queue;
    if r.Delivered? {
      assert r.m in s.card.queue;
      ObeyFrame(Took(s, c, r.m), r.m);
    }
  }

  lemma OthersKeepNotice(s: State, a: Action)
    requires Enabled(s, a) && !a.FromKernel? && !a.FromModule?
    ensures Step(s, a).card.queue == s.card.queue && (Step(s, a).d.mode.Down? <==> s.d.mode.Down?)
  {
    match a
    case Serve(r) =>
    case Wake(i) =>
    case Receive =>
    case Handle =>
  }

  lemma {:induction false} DownStaysDown(s: State, acts: seq<Action>)
    requires s.d.mode.Down? && IsRun(s, acts)
    ensures Exec(s, acts).d.mode.Down?
    decreases |acts|
  {
    if acts != [] {
      if !acts[0].FromKernel? {
        OthersKeepNotice(s, acts[0]);
      }
      DownStaysDown(Step(s, acts[0]), acts[1..]);
    }
  }

  /** The exact condition. In every run in which nobody forges a SHUTDOWN, the daemon ends up
      down if and only if it read its device after a successful removal and before any reset. */
  lemma {:induction false} DownIffReadInTime(s: State, acts: seq<Action>, notice: bool)
    requires !s.d.mode.Down? && IsRun(s, acts) && Genuine(acts) && Notice(s.card, notice)
    ensures Exec(s, acts).d.mode.Down? <==> ReadInTime(notice, acts)
    decreases |acts|
  {
    if acts != [] {
      var a, rest, t := acts[0], acts[1..], Step(s, acts[0]);
      assert a in acts && forall b | b in rest :: b in acts;
      if a.FromModule? && notice {
        ReadShutdown(s);
        DownStaysDown(t, rest);
      } else if a.FromModule? {
        ReadUnnoticed(s);
        DownIffReadInTime(t, rest, false);
      } else if a.FromKernel? {
        KernelKeepsNotice(s.card, a.op, notice);
        DownIffReadInTime(t, rest, NoticeAfter(notice, a.op));
      } else {
        OthersKeepNotice(s, a);
        DownIffReadInTime(t, rest, notice);
      }
    }
  }

  /** Over a whole session. */
  lemma SessionEndsIffReadInTime(s: State, acts: seq<Action>)
    requires Initial(s) && IsRun(s, acts) && Genuine(acts)
    ensures Exec(s, acts).d.mode.Down? <==> ReadInTime(false, acts)
  {
    DownIffReadInTime(s, acts, false);
  }

  lemma {:induction false} NoNoticeNoRead(acts: seq<Action>)
    requires forall a | a in acts :: !(a.FromKernel? && a.op.RemoveCtr? && a.op.alloc)
    ensures !ReadInTime(false, acts)
  {
    if acts != [] {
      assert acts[0] in acts;
      NoNoticeNoRead(acts[1..]);
    }
  }

  /** A reset before the daemon has read anything loses SHUTDOWN for good: nothing has been
      delivered, the queue is empty, and until the next successful removal no run takes the
      daemon down, wherever in its program it was. */
  lemma ResetLosesNotice(s: State, pre: seq<Action>, post: seq<Action>)
    requires WellFormed(s.card) && !s.d.mode.Down?
    requires IsRun(KernelStep(s, RemoveCtr(true)), pre) && NoReset(pre)
    requires var t := Exec(KernelStep(s, RemoveCtr(true)), pre);
      t.h.delivered == s.h.delivered && Enabled(t, FromKernel(ResetCtr)) && IsRun(KernelStep(t, ResetCtr), post)
    requires Genuine(post) && forall a | a in post :: !(a.FromKernel? && a.op.RemoveCtr? && a.op.alloc)
    ensures var u := KernelStep(Exec(KernelStep(s, RemoveCtr(true)), pre), ResetCtr);
      u.card.queue == [] && u.h.delivered == s.h.delivered && !Exec(u, post).d.mode.Down?
  {
    var t := Exec(KernelStep(s, RemoveCtr(true)), pre);
    OrderlyShutdown(s, pre);
    var u := KernelStep(t, ResetCtr);
    assert !u.d.mode.Down?;
    DownIffReadInTime(u, post, false);
    NoNoticeNoRead(post);
  }

  /** The shortest such run. */
  lemma ResetLosesShutdown(s: State)
    requires WellFormed(s.card) && s.d.mode.Idle? && s.d.hand.None?
    ensures var acts := [FromKernel(RemoveCtr(true)), FromKernel(ResetCtr), FromModule];
      IsRun(s, acts) && Exec(s, acts).card.queue == [] && Exec(s, acts).d.mode.Idle? &&
      Exec(s, acts).h.delivered == s.h.delivered
  {
    var t := KernelStep(s, RemoveCtr(true));
    var u := KernelStep(t, ResetCtr);
    var acts := [FromKernel(RemoveCtr(true)), FromKernel(ResetCtr), FromModule];
    assert acts[1..] == [FromKernel(ResetCtr), FromModule] && acts[1..][1..] == [FromModule];
    assert [FromModule][1..] == [];
    assert Step(s, acts[0]) == t && Step(t, acts[1]) == u;
    assert ReadModule(u).d == u.d;
    assert IsRun(ReadModule(u), []);
    assert IsRun(u, [FromModule]) && Exec(u, [FromModule]) == ReadModule(u);
    assert IsRun(t, acts[1..]) && Exec(t, acts[1..]) == ReadModule(u);
  }
}
