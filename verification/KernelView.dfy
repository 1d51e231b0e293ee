/** What the module believes about applications against what the kernel holds. */
module KernelView {
  import opened CardModel
  import opened Protocol

  /** An application is unused on the card exactly if the kernel does not hold it. */
  ghost predicate InStep(s: State) {
    WellFormed(s.card) && forall a: nat | ValidAppl(a) :: AppOf(s.card, a).Unused? <==> a !in s.h.kernel
  }

  /** Does this step end a registration, and so mark its application confirmed or revoked? */
  predicate Completes(s: State, a: Action) {
    a.Handle? && s.d.hand.Some? && Awaited(s.d, s.d.hand.value) && s.d.mode.call.RegisterCall? &&
    ValidAppl(s.d.mode.call.appl)
  }

  /** A registration ends while the kernel still holds its application. */
  predicate Timely(s: State, a: Action) {
    Completes(s, a) ==> s.d.mode.call.appl in s.h.kernel
  }

  predicate TimelyRun(s: State, acts: seq<Action>)
    requires IsRun(s, acts)
    decreases |acts|
  {
    acts == [] || (Timely(s, acts[0]) && TimelyRun(Step(s, acts[0]), acts[1..]))
  }

  ghost predicate AlwaysInStep(s: State, acts: seq<Action>)
    requires IsRun(s, acts)
    decreases |acts|
  {
    InStep(s) && (acts == [] || AlwaysInStep(Step(s, acts[0]), acts[1..]))
  }

  lemma StepKeepsWellFormed(s: State, a: Action)
    requires WellFormed(s.card) && Enabled(s, a)
    ensures WellFormed(Step(s, a).card)
  {
    match a
    case Serve(r) =>
    case Wake(i) =>
    case Receive =>
    case Handle =>
    case FromModule => assert ReadModule(s).card == Read(s.card, DAEMON_BUFFER, 0).0;
    case FromKernel(op) =>
  }

  /** Only the kernel and the end of a registration change an application's state. */
  lemma AppsUntouched(s: State, a: Action)
    requires Enabled(s, a) && !a.FromKernel? && !Completes(s, a)
    ensures Step(s, a).card.apps == s.card.apps && Step(s, a).h.kernel == s.h.kernel
  {
    match a
    case Serve(r) =>
    case Wake(i) =>
    case Receive =>
    case Handle =>
    case FromModule => assert ReadModule(s).card == Read(s.card, DAEMON_BUFFER, 0).0;
  }

  lemma AppMarked(s: State, a: Action)
    requires WellFormed(s.card) && Enabled(s, a) && Completes(s, a)
    ensures var t := Step(s, a);
      t.h.kernel == s.h.kernel &&
      exists mark | mark in {Confirmed, Revoked} :: t.card == Mark(s.card, s.d.mode.call.appl, mark)
  {
    assert Step(s, a).card ==
      Mark(s.card, s.d.mode.call.appl, if s.d.hand.value.perror == PERROR_NONE then Confirmed else Revoked);
  }

  lemma KernelKeepsInStep(s: State, op: KernelOp)
    requires InStep(s) && Enabled(s, FromKernel(op))
    ensures InStep(KernelStep(s, op))
  {
  }

  lemma StepKeepsInStepIffTimely(s: State, a: Action)
    requires InStep(s) && Enabled(s, a)
    ensures InStep(Step(s, a)) <==> Timely(s, a)
  {
    StepKeepsWellFormed(s, a);
    if a.FromKernel? {
      KernelKeepsInStep(s, a.op);
    } else if Completes(s, a) {
      AppMarked(s, a);
      assert !AppOf(Step(s, a).card, s.d.mode.call.appl).Unused?;
    } else {
      AppsUntouched(s, a);
    }
  }

  /** Module and kernel agree throughout a run exactly if no REGISTER answer arrives for an
      application that the kernel has released meanwhile. */
  lemma {:induction false} InStepIffTimely(s: State, acts: seq<Action>)
    requires InStep(s) && IsRun(s, acts)
    ensures AlwaysInStep(s, acts) <==> TimelyRun(s, acts)
    decreases |acts|
  {
    if acts != [] {
      var t := Step(s, acts[0]);
      StepKeepsInStepIffTimely(s, acts[0]);
      if InStep(t) {
        InStepIffTimely(t, acts[1..]);
      } else {
        assert !AlwaysInStep(t, acts[1..]);
      }
    }
  }

  // ---- how long an application stays blocked ----------------------------------------------

  predicate Releases(a: Action, appl: nat) {
    a.FromKernel? && a.op.ReleaseAppl? && a.op.appl as nat == appl
  }

  /** Is the application unused at some point of the run? */
  ghost predicate EverUnused(s: State, acts: seq<Action>, appl: nat)
    requires ValidAppl(appl) && IsRun(s, acts)
    decreases |acts|
  {
    (WellFormed(s.card) && AppOf(s.card, appl).Unused?) ||
    (acts != [] && EverUnused(Step(s, acts[0]), acts[1..], appl))
  }

  lemma StepFreesIffReleases(s: State, a: Action, appl: nat)
    requires WellFormed(s.card) && ValidAppl(appl) && !AppOf(s.card, appl).Unused? && Enabled(s, a)
    ensures WellFormed(Step(s, a).card) && (AppOf(Step(s, a).card, appl).Unused? <==> Releases(a, appl))
  {
    StepKeepsWellFormed(s, a);
    if !a.FromKernel? {
      if Completes(s, a) {
        AppMarked(s, a);
      } else {
        AppsUntouched(s, a);
      }
    }
  }

  /** An application in use, held by the kernel or not, stays so exactly until the kernel
      releases it. */
  lemma {:induction false} InUseUntilReleased(s: State, acts: seq<Action>, appl: nat)
    requires WellFormed(s.card) && ValidAppl(appl) && !AppOf(s.card, appl).Unused? && IsRun(s, acts)
    ensures EverUnused(s, acts, appl) <==> exists a | a in acts :: Releases(a, appl)
    decreases |acts|
  {
    if acts != [] {
      var t, rest := Step(s, acts[0]), acts[1..];
      StepFreesIffReleases(s, acts[0], appl);
      if AppOf(t.card, appl).Unused? {
        assert EverUnused(t, rest, appl) && acts[0] in acts;
      } else {
        InUseUntilReleased(t, rest, appl);
        assert forall a | a in acts :: a == acts[0] || a in rest;
        assert forall a | a in rest :: a in acts;
      }
    }
  }

  /** On an open card the kernel's registration takes effect exactly for an unused application. */
  lemma RegistersIffUnused(c: Card, appl: nat, p: Params, alloc: bool)
    requires WellFormed(c) && ValidAppl(appl) && !c.status.Free?
    ensures Kernel(c, RegisterAppl(appl, p, alloc)) != c <==> AppOf(c, appl).Unused?
  {
    if AppOf(c, appl).Unused? {
      assert AppOf(Kernel(c, RegisterAppl(appl, p, alloc)), appl) == Pending;
    }
  }
}
