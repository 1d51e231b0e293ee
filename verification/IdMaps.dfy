/** The daemon's two application id maps: when translating an id out and back is the
    identity, and when it is not. */
module IdMaps {
  import opened CapiMessage
  import opened CardModel
  import opened Protocol
  import opened Conservation
  import BoundedWait

  /** `applmap_rtl` undoes `applmap_ltr` on every live application. */
  ghost predicate Inverse(s: State) {
    InverseOn(s.d.ltr, s.d.rtl, s.h.live)
  }

  ghost predicate InverseOn(ltr: seq<nat>, rtl: seq<nat>, live: set<nat>) {
    forall a | a in live :: a <= CAPI_MAXAPPL && Lookup(rtl, Lookup(ltr, a)) == a
  }

  /** No live application other than `appl` has remote id `r`. */
  ghost predicate Fresh(s: State, appl: nat, r: nat) {
    FreshIn(s.d.ltr, s.h.live, appl, r)
  }

  ghost predicate FreshIn(ltr: seq<nat>, live: set<nat>, appl: nat, r: nat) {
    forall b | b in live && b != appl :: Lookup(ltr, b) != r
  }

  /** The call being served comes from an addressed message, so its id fits the tables. */
  ghost predicate Addressee(m: Mode) {
    m.Waiting? ==> m.call.appl <= CAPI_MAXAPPL
  }

  ghost predicate Mapped(s: State) {
    Core(s) && Addressee(s.d.mode)
  }

  lemma ReadKeepsAddressee(s: State)
    requires Queue(s.card) && s.d.mode.Idle?
    ensures Addressee(ReadModule(s).d.mode)
  {
    ReadTakes(s.card, DAEMON_BUFFER, 0);
    var (c, r) := Read(s.card, DAEMON_BUFFER, 0);
    if r.Delivered? {
      assert r.m in s.card.queue;
    }
  }

  lemma HandleKeepsAddressee(s: State)
    requires s.d.hand.Some? && Addressee(s.d.mode)
    ensures Addressee(HandlePacket(s).d.mode)
  {
  }

  lemma StepKeepsMapped(s: State, a: Action)
    requires Mapped(s) && Enabled(s, a)
    ensures Mapped(Step(s, a))
  {
    StepKeepsCore(s, a);
    match a
    case Handle => HandleKeepsAddressee(s);
    case FromModule => ReadKeepsAddressee(s);
    case Serve(r) => assert Dispatch(s, r).d == s.d;
    case Wake(i) => assert Signal(s, i).d == s.d;
    case Receive => assert TakePacket(s).d.mode == s.d.mode;
    case FromKernel(op) => assert KernelStep(s, op).d == s.d;
  }

  /** Will this step accept a registration? */
  predicate Accepts(s: State, a: Action) {
    a.Handle? && s.d.hand.Some? && Awaited(s.d, s.d.hand.value) && s.d.mode.call.RegisterCall? &&
    s.d.hand.value.perror == PERROR_NONE
  }

  /** A step that accepts no registration leaves both maps alone and adds nobody to the living. */
  lemma MapsUntouched(s: State, a: Action)
    requires Enabled(s, a) && !Accepts(s, a)
    ensures var t := Step(s, a); t.d.ltr == s.d.ltr && t.d.rtl == s.d.rtl && t.h.live <= s.h.live
  {
    match a
    case Serve(r) =>
    case Wake(i) =>
    case Receive =>
    case Handle =>
    case FromModule =>
    case FromKernel(op) =>
  }

  lemma MapsUpdated(s: State, a: Action)
    requires Enabled(s, a) && Accepts(s, a)
    ensures var t := Step(s, a);
      var appl, r := s.d.mode.call.appl, s.d.hand.value.app;
      t.d.ltr == Store(s.d.ltr, appl, r) && t.d.rtl == Store(s.d.rtl, r, appl) &&
      t.h.live == s.h.live + {appl}
  {
  }

  /** Accepting a registration keeps the maps inverse exactly when its remote id is not the
      image of another live application. */
  lemma AcceptKeepsInverseIffFresh(s: State)
    requires Mapped(s) && Inverse(s) && Enabled(s, Handle) && Accepts(s, Handle)
    ensures Inverse(HandlePacket(s)) <==> Fresh(s, s.d.mode.call.appl, s.d.hand.value.app)
  {
    MapsUpdated(s, Handle);
    UnhandKeepsRanges(s);
    StoreKeepsInverseIffFresh(s.d.ltr, s.d.rtl, s.h.live, s.d.mode.call.appl, s.d.hand.value.app);
  }

  lemma StoreKeepsInverseIffFresh(ltr: seq<nat>, rtl: seq<nat>, live: set<nat>, appl: nat, r: nat)
    requires InverseOn(ltr, rtl, live) && appl <= CAPI_MAXAPPL && appl < |ltr| && r < |rtl|
    ensures InverseOn(Store(ltr, appl, r), Store(rtl, r, appl), live + {appl}) <==> FreshIn(ltr, live, appl, r)
  {
    var ltr', rtl' := Store(ltr, appl, r), Store(rtl, r, appl);
    forall b | b in live && b != appl
      ensures Lookup(rtl', Lookup(ltr', b)) == b <==> Lookup(ltr, b) != r
    {
      assert Lookup(ltr', b) == Lookup(ltr, b) && Lookup(rtl, Lookup(ltr, b)) == b;
    }
    if InverseOn(ltr', rtl', live + {appl}) {
      assert forall b | b in live :: b in live + {appl};
    }
  }

  ghost predicate FreshStep(s: State, a: Action) {
    Accepts(s, a) ==> Fresh(s, s.d.mode.call.appl, s.d.hand.value.app)
  }

  ghost predicate FreshRun(s: State, acts: seq<Action>)
    requires IsRun(s, acts)
    decreases |acts|
  {
    acts == [] || (FreshStep(s, acts[0]) && FreshRun(Step(s, acts[0]), acts[1..]))
  }

  ghost predicate AlwaysInverse(s: State, acts: seq<Action>)
    requires IsRun(s, acts)
    decreases |acts|
  {
    Inverse(s) && (acts == [] || AlwaysInverse(Step(s, acts[0]), acts[1..]))
  }

  lemma StepKeepsInverseIffFresh(s: State, a: Action)
    requires Mapped(s) && Enabled(s, a) && Inverse(s)
    ensures Inverse(Step(s, a)) <==> FreshStep(s, a)
  {
    if Accepts(s, a) {
      AcceptKeepsInverseIffFresh(s);
    } else {
      MapsUntouched(s, a);
    }
  }

  /** The maps stay inverse throughout a run exactly when every accepted registration brought
      a remote id that no other live application had; stale entries of released applications
      do no harm. */
  lemma {:induction false} InverseIffFresh(s: State, acts: seq<Action>)
    requires Mapped(s) && Inverse(s) && IsRun(s, acts)
    ensures AlwaysInverse(s, acts) <==> FreshRun(s, acts)
    decreases |acts|
  {
    if acts != [] {
      var t := Step(s, acts[0]);
      StepKeepsMapped(s, acts[0]);
      StepKeepsInverseIffFresh(s, acts[0]);
      if Inverse(t) {
        InverseIffFresh(t, acts[1..]);
      } else {
        assert !AlwaysInverse(t, acts[1..]);
      }
    }
  }

  // ---- when CAPI guarantees freshness -----------------------------------------------------

  /** Neither a pending REGISTER answer nor a pending RELEASE names a live application. */
  ghost predicate Spares(s: State, p: Packet) {
    forall b | b in s.h.live :: Lookup(s.d.ltr, b) != p.app
  }

  ghost predicate Backed(s: State) {
    && Inverse(s)
    && (forall a | a in s.h.live :: Lookup(s.d.ltr, a) in s.server.held)
    && (forall p | p in s.net.up && p.kind.Release? :: Spares(s, p))
    && (forall p | p in Inbox(s) && p.kind.Register? :: p.app in s.server.held && Spares(s, p))
  }

  /** CAPI refuses no registration, and a RELEASE, which carries the local id, names no other
      application's remote id. */
  ghost predicate Benign(s: State, a: Action) {
    && (a.Serve? && s.net.up != [] && s.net.up[0].kind.Register? ==> a.r.ok)
    && (a.FromModule? && ReadModule(s).d.mode.Waiting? && ReadModule(s).d.mode.call.ReleaseCall? ==>
         var appl := ReadModule(s).d.mode.call.appl; Fresh(s, appl, appl))
  }

  ghost predicate BenignRun(s: State, acts: seq<Action>)
    requires IsRun(s, acts)
    decreases |acts|
  {
    acts == [] || (Benign(s, acts[0]) && BenignRun(Step(s, acts[0]), acts[1..]))
  }

  lemma {:induction false} NoCallNoRegister(ps: seq<Packet>, p: Packet)
    requires !BoundedWait.HasCall(ps) && p in ps
    ensures IsToken(p.kind)
  {
    if ps[0] != p {
      NoCallNoRegister(ps[1..], p);
    }
  }

  lemma SameBacking(s: State, t: State)
    requires Backed(s)
    requires t.d.ltr == s.d.ltr && t.d.rtl == s.d.rtl && t.h.live <= s.h.live && t.server.held >= s.server.held
    requires forall p | p in t.net.up && p.kind.Release? :: p in s.net.up
    requires forall p | p in Inbox(t) && p.kind.Register? :: p in Inbox(s)
    ensures Backed(t)
  {
  }

  lemma ReleaseKeepsBacked(s: State, r: Reply, t: State)
    requires Wire(s) && Backed(s) && s.net.up != [] && s.net.up[0].kind.Release?
    requires t.d == s.d && t.h.live == s.h.live
    requires t.server.held == HeldAfter(s.server.held, s.net.up[0], r)
    requires t.net.up == s.net.up[1..] && Inbox(t) == Inbox(s) + [AnswerTo(s.net.up[0], r)]
    ensures Backed(t)
  {
    BoundedWait.CallIsSomewhere(s);
    assert BoundedWait.FirstCall(s.net.up) == 0;
    forall q | q in Inbox(s) ensures IsToken(q.kind) {
      NoCallNoRegister(Inbox(s), q);
    }
    assert s.net.up[0] in s.net.up;
  }

  lemma RegisterKeepsBacked(s: State, r: Reply, t: State)
    requires Backed(s) && s.net.up != [] && s.net.up[0].kind.Register? && r.ok && r.app !in s.server.held
    requires t.d == s.d && t.h.live == s.h.live && t.server.held == s.server.held + {r.app}
    requires t.net.up == s.net.up[1..] && Inbox(t) == Inbox(s) + [AnswerTo(s.net.up[0], r)]
    ensures Backed(t)
  {
    assert Spares(s, AnswerTo(s.net.up[0], r));
  }

  lemma ServeKeepsBacked(s: State, r: Reply)
    requires Wire(s) && Backed(s) && Enabled(s, Serve(r)) && Benign(s, Serve(r))
    ensures Backed(Dispatch(s, r))
  {
    var p := s.net.up[0];
    var t := Dispatch(s, r);
    var a := AnswerTo(p, r);
    assert p in s.net.up && p.session == s.server.session;
    assert t.d == s.d && t.h.live == s.h.live && t.net.up == s.net.up[1..];
    if Forks(p, r) {
      assert Inbox(t) == Inbox(s) && t.server == s.server;
      SameBacking(s, t);
    } else {
      assert Inbox(t) == Inbox(s) + [a] && t.server.held == HeldAfter(s.server.held, p, r);
      if p.kind.Release? {
        ReleaseKeepsBacked(s, r, t);
      } else if p.kind.Register? {
        RegisterKeepsBacked(s, r, t);
      } else {
        SameBacking(s, t);
      }
    }
  }

  lemma IdleHasNoCalls(s: State)
    requires Wire(s) && s.d.mode.Idle?
    ensures forall p | p in s.net.up :: IsToken(p.kind)
    ensures forall p | p in Inbox(s) :: IsToken(p.kind)
  {
    BoundedWait.CallIsSomewhere(s);
    forall p | p in s.net.up ensures IsToken(p.kind) {
      NoCallNoRegister(s.net.up, p);
    }
    forall p | p in Inbox(s) ensures IsToken(p.kind) {
      NoCallNoRegister(Inbox(s), p);
    }
  }

  lemma AcceptKeepsHeld(s: State, t: State, appl: nat, r: nat)
    requires Backed(s) && r in s.server.held && t.server == s.server && appl < |s.d.ltr|
    requires t.d.ltr == Store(s.d.ltr, appl, r) && t.h.live == s.h.live + {appl}
    ensures forall a | a in t.h.live :: Lookup(t.d.ltr, a) in t.server.held
  {
  }

  lemma AcceptKeepsBacked(s: State)
    requires Mapped(s) && Backed(s) && Enabled(s, Handle) && Accepts(s, Handle)
    ensures Backed(HandlePacket(s))
  {
    var t := HandlePacket(s);
    var a := s.d.hand.value;
    assert a in Inbox(s) && Spares(s, a);
    AcceptKeepsInverseIffFresh(s);
    MapsUpdated(s, Handle);
    HandleFrame(s);
    assert t.d.mode.Idle?;
    AcceptKeepsHeld(s, t, s.d.mode.call.appl, a.app);
    StepKeepsCore(s, Handle);
    IdleIsBacked(t);
  }

  lemma IdleIsBacked(s: State)
    requires Wire(s) && s.d.mode.Idle? && Inverse(s)
    requires forall a | a in s.h.live :: Lookup(s.d.ltr, a) in s.server.held
    ensures Backed(s)
  {
    IdleHasNoCalls(s);
  }

  lemma HandleKeepsBacked(s: State)
    requires Mapped(s) && Backed(s) && Enabled(s, Handle) && !Accepts(s, Handle)
    ensures Backed(HandlePacket(s))
  {
    var t := HandlePacket(s);
    HandleFrame(s);
    MapsUntouched(s, Handle);
    SameBacking(s, t);
  }

  lemma ReadBegins(s: State)
    requires Enabled(s, FromModule)
    ensures var t := ReadModule(s);
      t.server == s.server && Inbox(t) == Inbox(s) &&
      (t.net.up == s.net.up ||
       (t.d.mode.Waiting? &&
        (exists p :: t.net.up == s.net.up + [p] && p.kind == KindOf(t.d.mode.call) &&
           (p.kind.Release? ==> p.app == t.d.mode.call.appl && t.h.live == s.h.live - {p.app}))))
  {
    ReadTakes(s.card, DAEMON_BUFFER, 0);
    var (c, r) := Read(s.card, DAEMON_BUFFER, 0);
    if r.Delivered? {
      var u := Took(s, c, r.m);
      var t := Obey(u, r.m);
      assert Inbox(t) == Inbox(s);
      if t.net.up != s.net.up {
        assert t.net.up == s.net.up + [RequestOf(s.d, KindOf(t.d.mode.call), t.net.up[|s.net.up|].app)];
      }
    }
  }

  lemma ReadKeepsBacked(s: State)
    requires Mapped(s) && Backed(s) && Enabled(s, FromModule) && Benign(s, FromModule)
    ensures Backed(ReadModule(s))
  {
    var t := ReadModule(s);
    MapsUntouched(s, FromModule);
    ReadBegins(s);
    forall p | p in t.net.up && p.kind.Release? ensures Spares(t, p) {
      if p !in s.net.up {
        assert p.app == t.d.mode.call.appl && Fresh(s, p.app, p.app);
      }
    }
  }

  lemma StepKeepsBacked(s: State, a: Action)
    requires Mapped(s) && Backed(s) && Enabled(s, a) && Benign(s, a)
    ensures Backed(Step(s, a))
  {
    match a
    case Serve(r) => ServeKeepsBacked(s, r);
    case Wake(i) =>
      AnswerFlow(Exit(s, i), WaiterAnswer(s.net.waiters[i]), CallIn);
      assert s.net.waiters[i] in s.net.waiters;
      SameBacking(s, Signal(s, i));
    case Receive =>
      TakeFlow(s, CallIn);
      SameBacking(s, TakePacket(s));
    case Handle => if Accepts(s, Handle) { AcceptKeepsBacked(s); } else { HandleKeepsBacked(s); }
    case FromModule => ReadKeepsBacked(s);
    case FromKernel(op) =>
      SameFlow(s, KernelStep(s, op), CallIn);
      SameBacking(s, KernelStep(s, op));
  }

  lemma {:induction false} RunKeepsBacked(s: State, acts: seq<Action>)
    requires Mapped(s) && Backed(s) && IsRun(s, acts) && BenignRun(s, acts)
    ensures Mapped(Exec(s, acts)) && Backed(Exec(s, acts))
    decreases |acts|
  {
    if acts != [] {
      StepKeepsMapped(s, acts[0]);
      StepKeepsBacked(s, acts[0]);
      RunKeepsBacked(Step(s, acts[0]), acts[1..]);
    }
  }

  /** In every run of a session in which CAPI refuses no registration and no RELEASE names
      another application's remote id, the maps are inverse on live applications, their remote
      ids are distinct, and CAPI holds every one of them. */
  lemma MapsInverseOnBenignRuns(s: State, acts: seq<Action>)
    requires Initial(s) && IsRun(s, acts) && BenignRun(s, acts)
    ensures var t := Exec(s, acts);
      Inverse(t) && forall a | a in t.h.live :: Lookup(t.d.ltr, a) in t.server.held
  {
    InitialCore(s);
    assert Inbox(s) == [];
    RunKeepsBacked(s, acts);
  }

  /** The message the daemon sends for a live application, once it comes back with the remote
      id, is delivered to that application again. */
  lemma ThereAndBack(s: State, m: Message)
    requires Tables(s.d) && Inverse(s) && |m| >= 4 && AppId(m) in s.h.live
    ensures var r := Lookup(s.d.ltr, AppId(m)); r <= CAPI_MAXAPPL && Lookup(s.d.rtl, r) == AppId(m)
    ensures SetAppId(SetAppId(m, Lookup(s.d.ltr, AppId(m))), Lookup(s.d.rtl, Lookup(s.d.ltr, AppId(m)))) == m
  {
    AppIdThereAndBack(m, Lookup(s.d.ltr, AppId(m)));
  }

  // ---- the id a message goes out under ----------------------------------------------------

  /** The remote id in the last REGISTER answer accepted for `a` during the run, or `was`. */
  function LastRemote(s: State, acts: seq<Action>, a: nat, was: nat): nat
    requires IsRun(s, acts)
    decreases |acts|
  {
    if acts == [] then was
    else
      LastRemote(Step(s, acts[0]), acts[1..], a,
                 if Accepts(s, acts[0]) && s.d.mode.call.appl == a then s.d.hand.value.app else was)
  }

  lemma StepTellsLastAnswer(s: State, act: Action, a: nat)
    requires Mapped(s) && Enabled(s, act) && a <= CAPI_MAXAPPL
    ensures Lookup(Step(s, act).d.ltr, a) ==
      if Accepts(s, act) && s.d.mode.call.appl == a then s.d.hand.value.app else Lookup(s.d.ltr, a)
  {
    if Accepts(s, act) {
      MapsUpdated(s, act);
    } else {
      MapsUntouched(s, act);
    }
  }

  lemma {:induction false} MapTellsLastAnswer(s: State, acts: seq<Action>, a: nat)
    requires Mapped(s) && IsRun(s, acts) && a <= CAPI_MAXAPPL
    ensures Lookup(Exec(s, acts).d.ltr, a) == LastRemote(s, acts, a, Lookup(s.d.ltr, a))
    decreases |acts|
  {
    if acts != [] {
      StepTellsLastAnswer(s, acts[0], a);
      StepKeepsMapped(s, acts[0]);
      MapTellsLastAnswer(Step(s, acts[0]), acts[1..], a);
    }
  }

  lemma {:induction false} RunKeepsMapped(s: State, acts: seq<Action>)
    requires Mapped(s) && IsRun(s, acts)
    ensures Mapped(Exec(s, acts))
    decreases |acts|
  {
    if acts != [] {
      StepKeepsMapped(s, acts[0]);
      RunKeepsMapped(Step(s, acts[0]), acts[1..]);
    }
  }

  /** Reading `m` from an application sends one request, a PUTMESSAGE. */
  lemma ReadSendsPut(s: State, m: Message)
    requires Mapped(s) && Enabled(s, FromModule) && ReadModule(s).h.delivered == s.h.delivered + [m]
    requires |m| >= 6 ==> Command(m) != TYPE_PROXY
    ensures |m| >= 6 && AppId(m) <= CAPI_MAXAPPL
    ensures var q := Packet(NextId(s.d), PutMessage, Lookup(s.d.ltr, AppId(m)), s.server.session, PERROR_NONE);
      ReadModule(s).net.up == s.net.up + [q] && ReadModule(s).h.sent == s.h.sent + [q]
  {
    TookKeepsCore(s);
    var (c, r) := Read(s.card, DAEMON_BUFFER, 0);
    if r.Delivered? {
      assert (s.h.delivered + [r.m])[|s.h.delivered|] == r.m;
      assert (s.h.delivered + [m])[|s.h.delivered|] == m;
    }
  }

  /** The PUTMESSAGE request for a message of an application carries the remote id that the last
      REGISTER answer accepted for it brought; and while the maps are inverse, that id is taken
      back to the application. */
  lemma PutCarriesLastAnswer(s: State, acts: seq<Action>, m: Message)
    requires Initial(s) && IsRun(s, acts) && Enabled(Exec(s, acts), FromModule)
    requires ReadModule(Exec(s, acts)).h.delivered == Exec(s, acts).h.delivered + [m]
    requires |m| >= 6 ==> Command(m) != TYPE_PROXY
    ensures |m| >= 6 && AppId(m) <= CAPI_MAXAPPL
    ensures var t, u := Exec(s, acts), ReadModule(Exec(s, acts));
      |u.net.up| == |t.net.up| + 1 && t.net.up <= u.net.up &&
      var q := u.net.up[|t.net.up|];
      q.kind.PutMessage? && q.session == s.server.session && q.app == LastRemote(s, acts, AppId(m), 0) &&
      (Inverse(t) && AppId(m) as nat in t.h.live ==> Lookup(t.d.rtl, q.app) == AppId(m))
  {
    var t := Exec(s, acts);
    InitialCore(s);
    RunKeepsMapped(s, acts);
    ReadSendsPut(t, m);
    MapTellsLastAnswer(s, acts, AppId(m));
    SameSession(s, acts);
  }

  lemma {:induction false} SameSession(s: State, acts: seq<Action>)
    requires IsRun(s, acts)
    ensures Exec(s, acts).server.session == s.server.session
    decreases |acts|
  {
    if acts != [] {
      StepKeepsSession(s, acts[0]);
      SameSession(Step(s, acts[0]), acts[1..]);
    }
  }

  lemma StepKeepsSession(s: State, a: Action)
    requires Enabled(s, a)
    ensures Step(s, a).server.session == s.server.session
  {
    match a
    case Serve(r) =>
    case Wake(i) =>
    case Receive =>
    case Handle =>
    case FromModule =>
    case FromKernel(op) =>
  }
}
