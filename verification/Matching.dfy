/** Requests and answers over whole runs: every answer belongs to exactly one request, and no
    request is answered twice, although waiters answer in any order. */
module Matching {
  import opened CapiMessage
  import opened CardModel
  import opened Protocol
  import opened Conservation

  /** Each request sent is still queued, held by a waiter, or answered once. */
  ghost predicate Paired(sent: seq<Packet>, net: Net, answered: seq<Packet>) {
    Bag(sent, TagIn) == Bag(net.up, TagIn) + Bag(net.waiters, TagIn) + Bag(answered, TagIn)
  }

  /** The message id after k increments, wrapping as a 32-bit counter does. */
  function IdAfter(first: nat, k: nat): nat {
    if k == 0 then first else (IdAfter(first, k - 1) + 1) % ID_MODULUS
  }

  lemma {:induction false} NoWrap(first: nat, k: nat)
    requires first + k < ID_MODULUS
    ensures IdAfter(first, k) == first + k
  {
    if k > 0 {
      NoWrap(first, k - 1);
    }
  }

  ghost predicate Numbered(first: nat, sent: seq<Packet>, msgid: nat) {
    msgid == IdAfter(first, |sent|) && forall k | 0 <= k < |sent| :: sent[k].id == IdAfter(first, k + 1)
  }

  ghost predicate Books(s: State) {
    Paired(s.h.sent, s.net, s.h.answered) && Numbered(s.h.firstId, s.h.sent, s.d.msgid)
  }

  lemma SameBooks(s: State, t: State)
    requires Books(s)
    requires s.net.up == t.net.up && s.net.waiters == t.net.waiters && s.d.msgid == t.d.msgid
    requires s.h.firstId == t.h.firstId && s.h.sent == t.h.sent && s.h.answered == t.h.answered
    ensures Books(t)
  {
  }

  lemma NumberedSnoc(first: nat, sent: seq<Packet>, msgid: nat, p: Packet)
    requires Numbered(first, sent, msgid) && p.id == (msgid + 1) % ID_MODULUS
    ensures Numbered(first, sent + [p], p.id)
  {
  }

  lemma PairedSnoc(sent: seq<Packet>, net: Net, answered: seq<Packet>, p: Packet)
    requires Paired(sent, net, answered)
    ensures Paired(sent + [p], net.(up := net.up + [p]), answered)
  {
    BagSnoc(sent, p, TagIn);
    BagSnoc(net.up, p, TagIn);
  }

  lemma PairedFork(sent: seq<Packet>, net: Net, answered: seq<Packet>)
    requires Paired(sent, net, answered) && net.up != []
    ensures Paired(sent, Net(net.up[1..], net.waiters + [net.up[0]], net.down), answered)
  {
    BagSnoc(net.waiters, net.up[0], TagIn);
  }

  lemma PairedAnswer(sent: seq<Packet>, net: Net, answered: seq<Packet>, a: Packet)
    requires Paired(sent, net, answered) && net.up != [] && TagIn(a) == TagIn(net.up[0])
    ensures Paired(sent, Net(net.up[1..], net.waiters, net.down + [a]), answered + [a])
  {
    BagSnoc(answered, a, TagIn);
  }

  lemma SendKeepsBooks(s: State, kind: Kind, app: nat)
    requires Books(s)
    ensures Books(Send(s, kind, app))
  {
    var p := RequestOf(s.d, kind, app);
    NumberedSnoc(s.h.firstId, s.h.sent, s.d.msgid, p);
    PairedSnoc(s.h.sent, s.net, s.h.answered, p);
  }

  lemma ServeKeepsBooks(s: State, r: Reply)
    requires Books(s) && Wire(s) && Enabled(s, Serve(r))
    ensures Books(Dispatch(s, r))
  {
    var p := s.net.up[0];
    assert p in s.net.up;
    AnswerKeepsIdentity(p, r);
    if Forks(p, r) {
      PairedFork(s.h.sent, s.net, s.h.answered);
    } else {
      PairedAnswer(s.h.sent, s.net, s.h.answered, AnswerTo(p, r));
    }
  }

  lemma WakeKeepsBooks(s: State, i: nat)
    requires Books(s) && Enabled(s, Wake(i))
    ensures Books(Signal(s, i))
  {
    var p := s.net.waiters[i];
    BagPick(s.net.waiters, i, TagIn);
    BagSnoc(s.h.answered, WaiterAnswer(p), TagIn);
    assert TagIn(WaiterAnswer(p)) == TagIn(p);
  }

  lemma RegisteredKeepsBooks(s: State, appl: nat, a: Packet)
    requires Books(s)
    ensures Books(Registered(s, appl, a))
  {
    SendKeepsBooks(s, WaitForSignal, a.app);
    if a.perror == PERROR_NONE {
      SameBooks(Send(s, WaitForSignal, a.app), Registered(s, appl, a));
    } else {
      SameBooks(s, Registered(s, appl, a));
    }
  }

  lemma HandleKeepsBooks(s: State)
    requires Books(s) && Enabled(s, Handle)
    ensures Books(HandlePacket(s))
  {
    var a := s.d.hand.value;
    var u := Unhand(s);
    SameBooks(s, u);
    if Awaited(s.d, a) {
      SameBooks(u, SetMode(u, Idle));
      if s.d.mode.call.RegisterCall? {
        RegisteredKeepsBooks(SetMode(u, Idle), s.d.mode.call.appl, a);
      }
    } else {
      SendKeepsBooks(u, NextKind(a.kind), a.app);
    }
  }

  lemma BeginKeepsBooks(s: State, call: Call, app: nat)
    requires Books(s)
    ensures Books(Begin(s, call, app))
  {
    SendKeepsBooks(s, KindOf(call), app);
    SameBooks(Send(s, KindOf(call), app), Begin(s, call, app));
  }

  lemma ObeyKeepsBooks(s: State, m: Message)
    requires Books(s) && |m| >= 6
    ensures Books(Obey(s, m))
  {
    var appl := AppId(m);
    if Command(m) != TYPE_PROXY {
      BeginKeepsBooks(s, PutCall(appl), Lookup(s.d.ltr, appl));
    } else if Subcommand(m) == TYPE_REGISTER_APP {
      BeginKeepsBooks(s, RegisterCall(appl), 0);
    } else if Subcommand(m) == TYPE_RELEASE_APP {
      SameBooks(s, Unlive(s, appl));
      BeginKeepsBooks(Unlive(s, appl), ReleaseCall(appl), appl);
    } else {
      SameBooks(s, SetMode(s, Down));
    }
  }

  lemma ReadKeepsBooks(s: State)
    requires Books(s) && Enabled(s, FromModule)
    ensures Books(ReadModule(s))
  {
    ReadTakes(s.card, DAEMON_BUFFER, 0);
    var (c, r) := Read(s.card, DAEMON_BUFFER, 0);
    if r.Delivered? {
      SameBooks(s, Took(s, c, r.m));
      ObeyKeepsBooks(Took(s, c, r.m), r.m);
    } else {
      SameBooks(s, s.(card := c));
    }
  }

  lemma StepKeepsBooks(s: State, a: Action)
    requires Books(s) && Wire(s) && Enabled(s, a)
    ensures Books(Step(s, a))
  {
    match a
    case Serve(r) => ServeKeepsBooks(s, r);
    case Wake(i) => WakeKeepsBooks(s, i);
    case Receive => SameBooks(s, TakePacket(s));
    case Handle => HandleKeepsBooks(s);
    case FromModule => ReadKeepsBooks(s);
    case FromKernel(op) => SameBooks(s, KernelStep(s, op));
  }

  lemma {:induction false} RunKeepsBooks(s: State, acts: seq<Action>)
    requires Core(s) && Books(s) && IsRun(s, acts)
    ensures Books(Exec(s, acts))
    decreases |acts|
  {
    if acts != [] {
      StepKeepsCore(s, acts[0]);
      StepKeepsBooks(s, acts[0]);
      RunKeepsBooks(Step(s, acts[0]), acts[1..]);
    }
  }

  // ---- what the books say about answers ---------------------------------------------------

  lemma {:induction false} TagIsSomeones(ps: seq<Packet>, t: Tag) returns (k: nat)
    requires t in Bag(ps, TagIn)
    ensures k < |ps| && TagOf(ps[k]) == t
  {
    if TagOf(ps[0]) == t {
      k := 0;
    } else {
      k := TagIsSomeones(ps[1..], t);
      k := k + 1;
    }
  }

  lemma {:induction false} TagOnce(ps: seq<Packet>, t: Tag)
    requires forall i, j | 0 <= i < j < |ps| :: ps[i].id != ps[j].id
    ensures Bag(ps, TagIn)[t] <= 1
  {
    if ps != [] {
      TagOnce(ps[1..], t);
      if t in Bag(ps[1..], TagIn) {
        var k := TagIsSomeones(ps[1..], t);
        assert ps[k + 1].id != ps[0].id;
      }
    }
  }

  lemma TagTwice(ps: seq<Packet>, i: nat, j: nat)
    requires i < j < |ps| && TagOf(ps[i]) == TagOf(ps[j])
    ensures Bag(ps, TagIn)[TagOf(ps[i])] >= 2
  {
    BagPick(ps, j, TagIn);
    var rest := ps[..j] + ps[j + 1..];
    assert rest[i] == ps[i];
    BagMember(rest, i, TagIn);
  }

  /** No wrap of the message id during the run. */
  predicate Unwrapped(s: State) {
    s.h.firstId + |s.h.sent| < ID_MODULUS
  }

  lemma IdsIncrease(s: State, i: nat, j: nat)
    requires Books(s) && Unwrapped(s) && i < j < |s.h.sent|
    ensures s.h.sent[i].id < s.h.sent[j].id
  {
    NoWrap(s.h.firstId, i + 1);
    NoWrap(s.h.firstId, j + 1);
  }

  /** Every answer ever sent carries the id and type (and, REGISTER aside, the application id)
      of a request sent in this run. */
  lemma AnswerHasRequest(s: State, acts: seq<Action>, j: nat) returns (k: nat)
    requires Initial(s) && IsRun(s, acts) && j < |Exec(s, acts).h.answered|
    ensures var h := Exec(s, acts).h; k < |h.sent| && TagOf(h.sent[k]) == TagOf(h.answered[j])
  {
    var t := Exec(s, acts);
    InitialCore(s);
    RunKeepsBooks(s, acts);
    BagMember(t.h.answered, j, TagIn);
    assert TagOf(t.h.answered[j]) in Bag(t.h.answered, TagIn);
    k := TagIsSomeones(t.h.sent, TagOf(t.h.answered[j]));
  }

  lemma AnswersDiffer(h: History, i: nat, j: nat, k: nat, l: nat)
    requires i < j < |h.answered| && k < |h.sent| && l < |h.sent|
    requires TagOf(h.sent[k]) == TagOf(h.answered[i]) && TagOf(h.sent[l]) == TagOf(h.answered[j])
    requires Bag(h.answered, TagIn) <= Bag(h.sent, TagIn)
    requires forall i, j | 0 <= i < j < |h.sent| :: h.sent[i].id < h.sent[j].id
    ensures h.answered[i].id != h.answered[j].id
  {
    if h.answered[i].id == h.answered[j].id {
      assert h.sent[k].id == h.sent[l].id;
      assert k == l;
      TagTwice(h.answered, i, j);
      TagOnce(h.sent, TagOf(h.answered[i]));
    }
  }

  /** Below the wrap of the id, request ids strictly increase, so each answer belongs to
      exactly one request, and no two answers to the same one are ever sent. */
  lemma AnsweredAtMostOnce(s: State, acts: seq<Action>)
    requires Initial(s) && IsRun(s, acts) && Unwrapped(Exec(s, acts))
    ensures var sent := Exec(s, acts).h.sent;
      forall i, j | 0 <= i < j < |sent| :: sent[i].id < sent[j].id
    ensures var answered := Exec(s, acts).h.answered;
      forall i, j | 0 <= i < j < |answered| :: answered[i].id != answered[j].id
  {
    var t := Exec(s, acts);
    InitialCore(s);
    RunKeepsBooks(s, acts);
    forall i, j | 0 <= i < j < |t.h.sent| ensures t.h.sent[i].id < t.h.sent[j].id {
      IdsIncrease(t, i, j);
    }
    forall i, j | 0 <= i < j < |t.h.answered| ensures t.h.answered[i].id != t.h.answered[j].id {
      var k := AnswerHasRequest(s, acts, i);
      var l := AnswerHasRequest(s, acts, j);
      AnswersDiffer(t.h, i, j, k, l);
    }
  }
}
