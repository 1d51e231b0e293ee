/** One virtual card of the kernel module as a value: its outgoing queue, its status and
    the state of each application, with every operation of the module on it. */
module CardModel {
  import opened Bytes
  import opened CapiMessage

  const CAPI_MAXAPPL := 128
  const MAX_SK_PENDING := 32

  const TYPE_PROXY: byte := 0x00
  const TYPE_REGISTER_APP: byte := 0x02
  const TYPE_RELEASE_APP: byte := 0x03
  const TYPE_SHUTDOWN: byte := 0x04

  datatype Status = Free | Running | Removing | NotReady

  datatype AppState = Unused | Confirmed | Pending | Revoked

  datatype Card = Card(status: Status, queue: seq<Message>, apps: seq<AppState>)

  datatype Params = Params(level3cnt: dword, datablkcnt: dword, datablklen: dword)

  /** What the kernel's CAPI layer asks of the card; `alloc` says whether `alloc_skb` succeeds. */
  datatype KernelOp =
    | RegisterAppl(appl: word, params: Params, alloc: bool)
    | ReleaseAppl(appl: word, alloc: bool)
    | SendMessage(m: Message)
    | ResetCtr
    | RemoveCtr(alloc: bool)

  datatype ReadResult = Again | TooBig | Fault(notCopied: nat) | Delivered(m: Message)

  predicate ValidAppl(appl: int) {
    1 <= appl <= CAPI_MAXAPPL
  }

  function ControlMessage(appl: word, sub: byte): (m: Message)
    ensures |m| == 6 && AppId(m) == appl && Command(m) == TYPE_PROXY && Subcommand(m) == sub
  {
    Bytes16(6) + Bytes16(appl) + [TYPE_PROXY, sub]
  }

  function RegisterMessage(appl: word, p: Params): (m: Message)
    ensures |m| == 18 && AppId(m) == appl && Command(m) == TYPE_PROXY && Subcommand(m) == TYPE_REGISTER_APP
  {
    Bytes16(18) + Bytes16(appl) + [TYPE_PROXY, TYPE_REGISTER_APP]
      + Bytes32(p.level3cnt) + Bytes32(p.datablkcnt) + Bytes32(p.datablklen)
  }

  /** The fields of a REGISTER message, by their offsets. */
  lemma RegisterMessageSays(appl: word, p: Params)
    ensures var m := RegisterMessage(appl, p);
      U16(m, 0) == 18 && U16(m, 2) == appl && m[4] == 0 && m[5] == 2 &&
      U32(m, 6) == p.level3cnt && U32(m, 10) == p.datablkcnt && U32(m, 14) == p.datablklen
  {
    var m := RegisterMessage(appl, p);
    var start := Bytes16(18) + Bytes16(appl) + [TYPE_PROXY, TYPE_REGISTER_APP];
    var a, b, c := Bytes32(p.level3cnt), Bytes32(p.datablkcnt), Bytes32(p.datablklen);
    U16RoundTrip(18);
    U16RoundTrip(appl);
    U32Inside(start, p.level3cnt, b + c);
    U32Inside(start + a, p.datablkcnt, c);
    U32Inside(start + a + b, p.datablklen, []);
    assert m == start + a + (b + c) == start + a + b + c == start + a + b + c + [];
  }

  lemma ControlMessageSays(appl: word, sub: byte)
    ensures ControlMessage(appl, sub) == [6, 0, appl % 0x100, appl / 0x100, 0, sub]
  {
  }

  /** The kernel's parameters are passed on with at most 8 blocks of at most 1024 bytes. */
  lemma ClippedSays(p: Params)
    ensures Clipped(p).level3cnt == p.level3cnt
    ensures Clipped(p).datablkcnt <= 8 && (Clipped(p).datablkcnt == p.datablkcnt || (Clipped(p).datablkcnt == 8 < p.datablkcnt))
    ensures Clipped(p).datablklen <= 1024 &&
      (Clipped(p).datablklen == p.datablklen || (Clipped(p).datablklen == 1024 < p.datablklen))
  {
  }

  const MAX_DATA_WINDOW: dword := 8
  const MAX_DATA_LEN: dword := 1024

  function Clipped(p: Params): Params {
    Params(p.level3cnt,
           if p.datablkcnt > MAX_DATA_WINDOW then MAX_DATA_WINDOW else p.datablkcnt,
           if p.datablklen > MAX_DATA_LEN then MAX_DATA_LEN else p.datablklen)
  }

  function Shutdown(): (m: Message)
    ensures |m| == 6 && Command(m) == TYPE_PROXY && Subcommand(m) == TYPE_SHUTDOWN
  {
    [6, 0, 0, 0, TYPE_PROXY, TYPE_SHUTDOWN]
  }

  predicate WellFormed(c: Card) {
    |c.queue| <= MAX_SK_PENDING + 1 && |c.apps| == CAPI_MAXAPPL
  }

  /** `capiproxy_flush_queue`. */
  function Flush(c: Card): Card {
    c.(queue := [])
  }

  predicate Accepts(c: Card) {
    !c.status.Free? && |c.queue| <= MAX_SK_PENDING
  }

  /** `capiproxy_send_message`. */
  function Post(c: Card, m: Message): Card {
    if Accepts(c) then c.(queue := c.queue + [m]) else c
  }

  function Mark(c: Card, appl: int, a: AppState): Card
    requires ValidAppl(appl) && |c.apps| == CAPI_MAXAPPL
  {
    c.(apps := c.apps[appl - 1 := a])
  }

  function AppOf(c: Card, appl: int): AppState
    requires ValidAppl(appl) && |c.apps| == CAPI_MAXAPPL
  {
    c.apps[appl - 1]
  }

  /** The kernel passes only valid application ids to `register_appl`, and the module never looks. */
  predicate Allowed(op: KernelOp) {
    op.RegisterAppl? ==> ValidAppl(op.appl)
  }

  function Kernel(c: Card, op: KernelOp): (r: Card)
    requires WellFormed(c) && Allowed(op)
    ensures WellFormed(r)
  {
    match op
    case RegisterAppl(appl, p, alloc) =>
      if c.status.Free? || !AppOf(c, appl).Unused? then c
      else Mark(if alloc then Post(c, RegisterMessage(appl, Clipped(p))) else c, appl, Pending)
    case ReleaseAppl(appl, alloc) =>
      if !ValidAppl(appl) || AppOf(c, appl).Unused? then c
      else Mark(if alloc then Post(c, ControlMessage(appl, TYPE_RELEASE_APP)) else c, appl, Unused)
    case SendMessage(m) => Post(c, m)
    case ResetCtr => Flush(c)
    case RemoveCtr(alloc) => if alloc then Post(Flush(c).(status := Removing), Shutdown()) else c
  }

  predicate Flushes(op: KernelOp) {
    op.ResetCtr? || (op.RemoveCtr? && op.alloc)
  }

  /** What an operation puts at the tail of the queue: nothing or one message. */
  function Posted(c: Card, op: KernelOp): (r: seq<Message>)
    requires WellFormed(c) && Allowed(op)
    ensures |r| <= 1
  {
    match op
    case RegisterAppl(appl, p, alloc) =>
      if Accepts(c) && AppOf(c, appl).Unused? && alloc then [RegisterMessage(appl, Clipped(p))] else []
    case ReleaseAppl(appl, alloc) =>
      if Accepts(c) && ValidAppl(appl) && !AppOf(c, appl).Unused? && alloc
      then [ControlMessage(appl, TYPE_RELEASE_APP)] else []
    case SendMessage(m) => if Accepts(c) then [m] else []
    case ResetCtr => []
    case RemoveCtr(alloc) => if alloc then [Shutdown()] else []
  }

  lemma KernelQueue(c: Card, op: KernelOp)
    requires WellFormed(c) && Allowed(op)
    ensures Kernel(c, op).queue == (if Flushes(op) then [] else c.queue) + Posted(c, op)
    ensures Kernel(c, op).status == (if op.RemoveCtr? && op.alloc then Removing else c.status)
  {
    var q := c.queue;
    assert q + [] == q;
    match op
    case RegisterAppl(appl, p, alloc) =>
    case ReleaseAppl(appl, alloc) =>
    case SendMessage(m) =>
    case ResetCtr =>
    case RemoveCtr(alloc) =>
  }

  /** The kernel sends messages while nobody reads. */
  function SendAll(c: Card, ms: seq<Message>): (r: Card)
    requires WellFormed(c)
    ensures WellFormed(r)
    decreases |ms|
  {
    if ms == [] then c else SendAll(Kernel(c, SendMessage(ms[0])), ms[1..])
  }

  /** An open card keeps the first messages in order until 33 are pending, and drops the rest;
      a free card drops them all. */
  lemma {:induction false} KeepsFirst33(c: Card, ms: seq<Message>)
    requires WellFormed(c)
    ensures var room := if c.status.Free? then 0 else 33 - |c.queue|;
      SendAll(c, ms) == c.(queue := c.queue + ms[..if |ms| <= room then |ms| else room])
    decreases |ms|
  {
    if ms != [] {
      var d := Kernel(c, SendMessage(ms[0]));
      KeepsFirst33(d, ms[1..]);
      if d == c {
        assert c.queue + ms[..0] == c.queue + ms[1..][..0] == c.queue;
      } else {
        var room := 33 - |c.queue|;
        var n := if |ms| <= room then |ms| else room;
        assert c.queue + ms[..n] == c.queue + [ms[0]] + ms[1..][..n - 1];
      }
    } else {
      assert c.queue + ms[..0] == c.queue;
    }
  }

  /** How many messages at the head are too short to be delivered. */
  function Runts(queue: seq<Message>, length: nat): (n: nat)
    ensures n <= |queue|
    ensures forall i :: 0 <= i < n ==> |queue[i]| < 6
  {
    if queue != [] && |queue[0]| <= length && |queue[0]| < 6 then 1 + Runts(queue[1..], length) else 0
  }

  /** `capiproxy_read` without sleeping; `fault` is what `copy_to_user` leaves uncopied. */
  function Read(c: Card, length: nat, fault: nat): (r: (Card, ReadResult))
    ensures r.0 == c.(queue := r.0.queue)
    ensures |r.0.queue| <= |c.queue|
    decreases |c.queue|
  {
    if c.queue == [] then (c, Again)
    else
      var m := c.queue[0];
      var rest := c.(queue := c.queue[1..]);
      if |m| > length then (c, TooBig)
      else if |m| < 6 then Read(rest, length, fault)
      else if fault > 0 then (c, Fault(fault))
      else (rest, Delivered(m))
  }

  lemma RuntFirst(queue: seq<Message>, n: nat)
    requires 1 + n <= |queue|
    ensures queue[..1 + n] == [queue[0]] + queue[1..][..n] && queue == [queue[0]] + queue[1..]
  {
  }

  /** What a read takes out of the queue: the runts, then the delivered message if there is one. */
  lemma {:induction false} ReadTakes(c: Card, length: nat, fault: nat)
    ensures var (c', r) := Read(c, length, fault);
      c.queue == c.queue[..Runts(c.queue, length)] + (if r.Delivered? then [r.m] else []) + c'.queue &&
      (r.Delivered? ==> 6 <= |r.m| <= length)
    decreases |c.queue|
  {
    if c.queue != [] && |c.queue[0]| <= length && |c.queue[0]| < 6 {
      var rest := c.(queue := c.queue[1..]);
      ReadTakes(rest, length, fault);
      assert Read(c, length, fault) == Read(rest, length, fault);
      RuntFirst(c.queue, Runts(rest.queue, length));
    } else {
      assert Runts(c.queue, length) == 0 && c.queue[..0] == [];
    }
  }

  /** The exact result of a read, when `k` messages at the head are too short. */
  lemma {:induction false} ReadIs(c: Card, length: nat, fault: nat, k: nat)
    requires k <= |c.queue| && forall i :: 0 <= i < k ==> |c.queue[i]| < 6 && |c.queue[i]| <= length
    requires k < |c.queue| ==> |c.queue[k]| >= 6 || |c.queue[k]| > length
    ensures Read(c, length, fault) ==
      if k == |c.queue| then (c.(queue := []), Again)
      else if |c.queue[k]| > length then (c.(queue := c.queue[k..]), TooBig)
      else if fault > 0 then (c.(queue := c.queue[k..]), Fault(fault))
      else (c.(queue := c.queue[k + 1..]), Delivered(c.queue[k]))
    decreases k
  {
    if k > 0 {
      var rest := c.(queue := c.queue[1..]);
      ReadIs(rest, length, fault, k - 1);
      assert k < |c.queue| ==> rest.queue[k - 1] == c.queue[k];
      assert rest.queue[k - 1..] == c.queue[k..];
      assert k < |c.queue| ==> rest.queue[k..] == c.queue[k + 1..];
    }
  }

  /** A read does not look at the states of applications: it neither puts back the messages of
      one that is waiting nor drops those of one that was refused. */
  lemma {:induction false} ReadIgnoresStates(c: Card, apps: seq<AppState>, length: nat, fault: nat)
    ensures var (d, r) := Read(c, length, fault);
      Read(c.(apps := apps), length, fault) == (d.(apps := apps), r)
    decreases |c.queue|
  {
    if c.queue != [] && |c.queue[0]| <= length && |c.queue[0]| < 6 {
      ReadIgnoresStates(c.(queue := c.queue[1..]), apps, length, fault);
    }
  }

  // ---- runs -------------------------------------------------------------------------------

  datatype Op =
    | Call(k: KernelOp)
    | ReadOp(length: nat, fault: nat)
    | SetData
    | Confirm(appl: word)
    | Fail(appl: word)

  /** A card with the messages it has accepted, taken out and delivered since the run began. */
  datatype Trace = Trace(card: Card, accepted: seq<Message>, taken: seq<Message>, delivered: seq<Message>)

  predicate AllowedOp(op: Op) {
    match op
    case Call(k) => Allowed(k)
    case Confirm(appl) => ValidAppl(appl)
    case Fail(appl) => ValidAppl(appl)
    case _ => true
  }

  function Next(t: Trace, op: Op): (r: Trace)
    requires WellFormed(t.card) && AllowedOp(op)
    ensures WellFormed(r.card)
  {
    match op
    case Call(k) => t.(card := Kernel(t.card, k), accepted := t.accepted + Posted(t.card, k))
    case ReadOp(length, fault) =>
      var (c, r) := Read(t.card, length, fault);
      var out := if r.Delivered? then [r.m] else [];
      t.(card := c,
         taken := t.taken + t.card.queue[..Runts(t.card.queue, length)] + out,
         delivered := t.delivered + out)
    case SetData => t.(card := t.card.(status := Running))
    case Confirm(appl) => t.(card := Mark(t.card, appl, Confirmed))
    case Fail(appl) => t.(card := Mark(t.card, appl, Revoked))
  }

  /** What the daemon's ioctls do to the card. */
  lemma IoctlsSay(t: Trace, appl: word)
    requires WellFormed(t.card) && 1 <= appl <= 128
    ensures Next(t, SetData).card == t.card.(status := Running)
    ensures Next(t, Confirm(appl)).card == t.card.(apps := t.card.apps[appl - 1 := Confirmed])
    ensures Next(t, Fail(appl)).card == t.card.(apps := t.card.apps[appl - 1 := Revoked])
  {
  }

  function Run(t: Trace, ops: seq<Op>): (r: Trace)
    requires WellFormed(t.card) && forall op | op in ops :: AllowedOp(op)
    ensures WellFormed(r.card)
    decreases |ops|
  {
    if ops == [] then t else Run(Next(t, ops[0]), ops[1..])
  }

  function LongOnly(ms: seq<Message>): seq<Message> {
    if ms == [] then [] else (if |ms[0]| < 6 then [] else [ms[0]]) + LongOnly(ms[1..])
  }

  lemma {:induction false} LongOnlyAppend(a: seq<Message>, b: seq<Message>)
    ensures LongOnly(a + b) == LongOnly(a) + LongOnly(b)
  {
    if a == [] {
      assert a + b == b;
    } else {
      assert a + b == [a[0]] + (a[1..] + b);
      LongOnlyAppend(a[1..], b);
    }
  }

  lemma {:induction false} NoLong(ms: seq<Message>)
    requires forall i :: 0 <= i < |ms| ==> |ms[i]| < 6
    ensures LongOnly(ms) == []
  {
    if ms != [] {
      NoLong(ms[1..]);
    }
  }

  ghost predicate Conserving(t: Trace) {
    t.accepted == t.taken + t.card.queue && t.delivered == LongOnly(t.taken)
  }

  predicate FlushFree(ops: seq<Op>) {
    forall op | op in ops :: op.Call? ==> !Flushes(op.k)
  }

  lemma StepConserves(t: Trace, op: Op)
    requires WellFormed(t.card) && AllowedOp(op) && Conserving(t)
    requires op.Call? ==> !Flushes(op.k)
    ensures Conserving(Next(t, op))
  {
    match op
    case ReadOp(length, fault) => ReadConserves(t, length, fault);
    case Call(k) =>
      KernelQueue(t.card, k);
      assert t.accepted + Posted(t.card, k) == t.taken + (t.card.queue + Posted(t.card, k));
    case _ =>
  }

  lemma ReadConserves(t: Trace, length: nat, fault: nat)
    requires WellFormed(t.card) && Conserving(t)
    ensures Conserving(Next(t, ReadOp(length, fault)))
  {
    var (c, r) := Read(t.card, length, fault);
    var runts := t.card.queue[..Runts(t.card.queue, length)];
    var out := if r.Delivered? then [r.m] else [];
    var t' := Next(t, ReadOp(length, fault));
    ReadTakes(t.card, length, fault);
    assert t'.taken == t.taken + runts + out && t'.card == c && t'.accepted == t.accepted;
    TakenThenPending(t.taken, runts, out, c.queue);
    RuntsAreShort(t.card.queue, length);
    LongOnlyTaken(t.taken, runts, out);
  }

  lemma TakenThenPending(taken: seq<Message>, runts: seq<Message>, out: seq<Message>, queue: seq<Message>)
    ensures taken + (runts + out + queue) == (taken + runts + out) + queue
  {
  }

  lemma RuntsAreShort(queue: seq<Message>, length: nat)
    ensures var runts := queue[..Runts(queue, length)];
      forall i :: 0 <= i < |runts| ==> |runts[i]| < 6
  {
  }

  lemma LongOnlyTaken(taken: seq<Message>, runts: seq<Message>, out: seq<Message>)
    requires forall i :: 0 <= i < |runts| ==> |runts[i]| < 6
    requires |out| <= 1 && (out != [] ==> |out[0]| >= 6)
    ensures LongOnly(taken + runts + out) == LongOnly(taken) + out
  {
    LongOnlyAppend(taken + runts, out);
    LongOnlyAppend(taken, runts);
    NoLong(runts);
    assert out != [] ==> out[1..] == [] && out == [out[0]];
  }

  /** Between flushes the queue is first in, first out and loses nothing: what was accepted
      is what was taken out, in order, followed by what is pending, and the reader saw all of
      it but the messages shorter than a CAPI header. */
  lemma {:induction false} QueueIsFifo(t: Trace, ops: seq<Op>)
    requires WellFormed(t.card) && Conserving(t) && FlushFree(ops)
    requires forall op | op in ops :: AllowedOp(op)
    ensures Conserving(Run(t, ops))
    decreases |ops|
  {
    if ops != [] {
      StepConserves(t, ops[0]);
      QueueIsFifo(Next(t, ops[0]), ops[1..]);
    }
  }

  // ---- application states -----------------------------------------------------------------

  predicate IsControl(m: Message, sub: byte, appl: int) {
    |m| >= 6 && Command(m) == TYPE_PROXY && Subcommand(m) == sub && AppId(m) == appl
  }

  function Count(ms: seq<Message>, sub: byte, appl: int): nat {
    if ms == [] then 0 else (if IsControl(ms[0], sub, appl) then 1 else 0) + Count(ms[1..], sub, appl)
  }

  lemma {:induction false} CountAppend(a: seq<Message>, b: seq<Message>, sub: byte, appl: int)
    ensures Count(a + b, sub, appl) == Count(a, sub, appl) + Count(b, sub, appl)
  {
    if a == [] {
      assert a + b == b;
    } else {
      assert a + b == [a[0]] + (a[1..] + b);
      CountAppend(a[1..], b, sub, appl);
    }
  }

  /** REGISTER messages accepted for an application, less its RELEASE messages. */
  function Balance(ms: seq<Message>, appl: int): int {
    Count(ms, TYPE_REGISTER_APP, appl) - Count(ms, TYPE_RELEASE_APP, appl)
  }

  /** An application the module thinks unused is one whose RELEASE messages entered the queue as
      often as its REGISTER messages; any other has one registration more. */
  ghost predicate Balanced(t: Trace, appl: int)
    requires WellFormed(t.card) && ValidAppl(appl)
  {
    Balance(t.accepted, appl) == if AppOf(t.card, appl).Unused? then 0 else 1
  }

  /** Nothing the module wants to queue is lost, no application forges a control message, and
      the daemon reports only on applications that are in use. */
  predicate Orderly(c: Card, op: Op)
    requires WellFormed(c)
  {
    match op
    case Call(RegisterAppl(_, _, alloc)) => alloc && Accepts(c)
    case Call(ReleaseAppl(_, alloc)) => alloc && Accepts(c)
    case Call(SendMessage(m)) => |m| >= 6 ==> Command(m) != TYPE_PROXY
    case Confirm(appl) => ValidAppl(appl) && !AppOf(c, appl).Unused?
    case Fail(appl) => ValidAppl(appl) && !AppOf(c, appl).Unused?
    case _ => true
  }

  lemma CountOne(m: Message, sub: byte, appl: int)
    ensures Count([m], sub, appl) == if IsControl(m, sub, appl) then 1 else 0
  {
    assert Count([m][1..], sub, appl) == 0;
  }

  lemma BalanceOneMore(ms: seq<Message>, m: Message, appl: int)
    ensures Balance(ms + [m], appl) == Balance(ms, appl) +
      (if IsControl(m, TYPE_REGISTER_APP, appl) then 1 else 0) - (if IsControl(m, TYPE_RELEASE_APP, appl) then 1 else 0)
  {
    CountAppend(ms, [m], TYPE_REGISTER_APP, appl);
    CountAppend(ms, [m], TYPE_RELEASE_APP, appl);
    CountOne(m, TYPE_REGISTER_APP, appl);
    CountOne(m, TYPE_RELEASE_APP, appl);
  }

  lemma StepKeepsBalance(t: Trace, op: Op, appl: int)
    requires WellFormed(t.card) && AllowedOp(op) && ValidAppl(appl) && Orderly(t.card, op) && Balanced(t, appl)
    ensures Balanced(Next(t, op), appl)
  {
    if op.Call? {
      var p := Posted(t.card, op.k);
      if p == [] {
        assert t.accepted + p == t.accepted;
      } else {
        assert p == [p[0]];
        BalanceOneMore(t.accepted, p[0], appl);
      }
    }
  }

  predicate OrderlyRun(t: Trace, ops: seq<Op>)
    requires WellFormed(t.card)
    decreases |ops|
  {
    ops == [] || (AllowedOp(ops[0]) && Orderly(t.card, ops[0]) && OrderlyRun(Next(t, ops[0]), ops[1..]))
  }

  /** In every orderly run the messages to register and to release an application enter the
      queue in turn, never twice the same. */
  lemma {:induction false} RegisterAndReleaseAlternate(t: Trace, ops: seq<Op>, appl: int)
    requires WellFormed(t.card) && ValidAppl(appl) && Balanced(t, appl) && OrderlyRun(t, ops)
    requires forall op | op in ops :: AllowedOp(op)
    ensures Balanced(Run(t, ops), appl)
    ensures 0 <= Balance(Run(t, ops).accepted, appl) <= 1
    decreases |ops|
  {
    if ops != [] {
      StepKeepsBalance(t, ops[0], appl);
      RegisterAndReleaseAlternate(Next(t, ops[0]), ops[1..], appl);
    }
  }
}
