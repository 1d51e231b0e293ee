/** The kernel module's operations on its cards in place, and who holds which card. */
module CardDevice {
  import opened Bytes
  import opened CapiMessage
  import opened CardModel

  const CAPIPROXY_MAXCONTR := 4

  class VirtualCard {
    var status: Status
    var outgoingQueue: seq<Message>
    var skPending: int
    const applications: array<AppState>
    var inSk: nat
    var outSk: nat
    var upward: seq<Message>       // handed to `handle_capimsg`

    /** The separate counter never strays from the queue, nor above its bound. */
    ghost predicate Valid()
      reads this
    {
      applications.Length == CAPI_MAXAPPL && skPending == |outgoingQueue| <= MAX_SK_PENDING + 1
    }

    ghost function View(): (c: Card)
      requires Valid()
      reads this, applications
      ensures WellFormed(c)
    {
      Card(status, outgoingQueue, applications[..])
    }

    /** `capiproxy_init_cards`. */
    constructor ()
      ensures Valid() && status.Free? && outgoingQueue == [] && fresh(applications)
    {
      status, outgoingQueue, skPending, inSk, outSk, upward := Free, [], 0, 0, 0, [];
      applications := new AppState[CAPI_MAXAPPL](_ => Unused);
    }

    method FlushQueue()
      requires Valid()
      modifies this`outgoingQueue, this`skPending
      ensures Valid() && View() == Flush(old(View()))
    {
      while |outgoingQueue| > 0
      {
        outgoingQueue := outgoingQueue[1..];
      }
      skPending := 0;
    }

    /** What opening the device does to its card. */
    method Init()
      requires Valid()
      modifies this`outgoingQueue, this`skPending, this`status, applications
      ensures Valid() && View() == Card(NotReady, [], seq(CAPI_MAXAPPL, _ => Unused))
    {
      forall i | 0 <= i < applications.Length {
        applications[i] := Unused;
      }
      FlushQueue();
      status := NotReady;
    }

    method SendMessage(m: Message)
      requires Valid()
      modifies this`outgoingQueue, this`skPending
      ensures Valid() && View() == Post(old(View()), m)
      ensures outgoingQueue ==
        old(outgoingQueue) + if status.Free? || |old(outgoingQueue)| > 32 then [] else [m]
    {
      if status.Free? {
        return;
      }
      if skPending > MAX_SK_PENDING {
        return;
      }
      outgoingQueue := outgoingQueue + [m];
      skPending := skPending + 1;
    }

    method RegisterAppl(appl: word, p: Params, alloc: bool)
      requires Valid() && ValidAppl(appl)
      modifies this`outgoingQueue, this`skPending, applications
      ensures Valid() && View() == Kernel(old(View()), CardModel.KernelOp.RegisterAppl(appl, p, alloc))
      ensures var registers := !status.Free? && old(applications[appl - 1]).Unused?;
        applications[..] == (if registers then old(applications[..])[appl - 1 := Pending] else old(applications[..])) &&
        outgoingQueue == old(outgoingQueue) +
          if registers && alloc && |old(outgoingQueue)| <= 32 then [RegisterMessage(appl, Clipped(p))] else []
    {
      if status.Free? {
        return;
      }
      if !applications[appl - 1].Unused? {
        return;
      }
      if alloc {
        SendMessage(RegisterMessage(appl, Clipped(p)));
      }
      applications[appl - 1] := Pending;
    }

    method ReleaseAppl(appl: word, alloc: bool)
      requires Valid()
      modifies this`outgoingQueue, this`skPending, applications
      ensures Valid() && View() == Kernel(old(View()), CardModel.KernelOp.ReleaseAppl(appl, alloc))
      ensures var releases := 1 <= appl <= 128 && !old(applications[appl - 1]).Unused?;
        applications[..] == (if releases then old(applications[..])[appl - 1 := Unused] else old(applications[..])) &&
        outgoingQueue == old(outgoingQueue) +
          if releases && alloc && !status.Free? && |old(outgoingQueue)| <= 32
          then [ControlMessage(appl, TYPE_RELEASE_APP)] else []
    {
      if !ValidAppl(appl) || applications[appl - 1].Unused? {
        return;
      }
      if alloc {
        SendMessage(ControlMessage(appl, TYPE_RELEASE_APP));
      }
      applications[appl - 1] := Unused;
    }

    method ResetCtr()
      requires Valid()
      modifies this`outgoingQueue, this`skPending
      ensures Valid() && View() == Kernel(old(View()), CardModel.KernelOp.ResetCtr)
      ensures outgoingQueue == []
    {
      FlushQueue();
    }

    method RemoveCtr(alloc: bool)
      requires Valid()
      modifies this`outgoingQueue, this`skPending, this`status
      ensures Valid() && View() == Kernel(old(View()), CardModel.KernelOp.RemoveCtr(alloc))
      ensures alloc ==> status.Removing? && outgoingQueue == [[6, 0, 0, 0, 0, 4]]
      ensures !alloc ==> status == old(status) && outgoingQueue == old(outgoingQueue)
    {
      if !alloc {
        return;
      }
      FlushQueue();
      status := Removing;
      SendMessage(Shutdown());
    }

    /** Never sleeps: the device is open for non-blocking reads. Dequeues, and puts back at the
        head what does not fit or cannot be copied. */
    method Read(length: nat, fault: nat) returns (r: ReadResult)
      requires Valid()
      modifies this`outgoingQueue, this`skPending, this`outSk
      ensures Valid() && (View(), r) == CardModel.Read(old(View()), length, fault)
      ensures outSk == old(outSk) + if r.Delivered? then 1 else 0
      decreases |outgoingQueue|
    {
      if skPending == 0 {
        return Again;
      }
      var skb := outgoingQueue[0];
      outgoingQueue := outgoingQueue[1..];
      if |skb| > length {
        outgoingQueue := [skb] + outgoingQueue;
        assert outgoingQueue == old(outgoingQueue);
        return TooBig;
      }
      if |skb| < 6 {
        skPending := skPending - 1;
        r := Read(length, fault);
        return;
      }
      if fault > 0 {
        outgoingQueue := [skb] + outgoingQueue;
        assert outgoingQueue == old(outgoingQueue);
        return Fault(fault);
      }
      skPending := skPending - 1;
      outSk := outSk + 1;
      return Delivered(skb);
    }

    /** Hands the daemon's bytes to the kernel's CAPI layer as they are: the controller number
        the module computes goes to its NCCI bookkeeping, not into the message. */
    method Write(buffer: Message) returns (written: int)
      requires Valid()
      modifies this`inSk, this`upward
      ensures Valid() && View() == old(View())
      ensures written == if status.Running? then |buffer| else -1
      ensures upward == old(upward) + (if status.Running? then [buffer] else [])
    {
      if !status.Running? {
        return -1;
      }
      inSk := inSk + 1;
      upward := upward + [buffer];
      return |buffer|;
    }
  }

  class File {
    var card: VirtualCard?

    constructor ()
      ensures card == null
    {
      card := null;
    }
  }

  // ---- who holds which card ---------------------------------------------------------------

  ghost predicate Injective(m: map<File, nat>) {
    forall f, g :: f in m && g in m && f != g ==> m[f] != m[g]
  }

  lemma {:induction false} AsManyValuesAsKeys(m: map<File, nat>)
    requires Injective(m)
    ensures |m.Values| == |m|
    decreases |m|
  {
    if m == map[] {
      assert m.Values == {};
    } else {
      var f :| f in m;
      var rest := m - {f};
      AsManyValuesAsKeys(rest);
      assert m == rest[f := m[f]];
      assert m.Values == rest.Values + {m[f]};
      assert m[f] !in rest.Values;
      assert |m| == |rest| + 1;
    }
  }

  /** Four distinct slots: one is free exactly when fewer than four files hold one. */
  lemma FreeSlotIffNotFull(m: map<File, nat>)
    requires Injective(m) && forall f :: f in m ==> m[f] < CAPIPROXY_MAXCONTR
    ensures (exists i: nat :: i < CAPIPROXY_MAXCONTR && i !in m.Values) <==> |m| < CAPIPROXY_MAXCONTR
  {
    var all: set<nat> := {0, 1, 2, 3};
    AsManyValuesAsKeys(m);
    assert m.Values <= all;
    if m.Values != all {
      var i :| i in all && i !in m.Values;
      SmallerSet(m.Values, all);
    }
  }

  lemma SmallerSet(a: set<nat>, b: set<nat>)
    requires a < b
    ensures |a| < |b|
  {
    var x :| x in b && x !in a;
    assert b == a + (b - a);
    assert |b - a| > 0;
  }

  lemma ValuesGrow(m: map<File, nat>, f: File, i: nat)
    requires Injective(m) && f !in m && i !in m.Values
    ensures m[f := i].Values == m.Values + {i} && Injective(m[f := i])
  {
    var n := m[f := i];
    assert forall g :: g in m ==> n[g] == m[g] && m[g] in m.Values;
    assert n[f] == i;
    forall x ensures x in n.Values <==> x in m.Values + {i} {
      if x in m.Values {
        var g: File :| g in m && m[g] == x;
        assert g in n && n[g] == x;
      }
    }
  }

  lemma ValuesShrink(m: map<File, nat>, f: File)
    requires Injective(m) && f in m
    ensures (m - {f}).Values == m.Values - {m[f]} && Injective(m - {f})
  {
    var n := m - {f};
    assert forall g :: g in n ==> n[g] == m[g] && n[g] != m[f];
    forall x ensures x in n.Values <==> x in m.Values - {m[f]} {
      if x in m.Values && x != m[f] {
        var g: File :| g in m && m[g] == x;
        assert g in n && n[g] == x;
      }
    }
  }

  lemma FourApart(cs: seq<VirtualCard>, c0: VirtualCard, c1: VirtualCard, c2: VirtualCard, c3: VirtualCard)
    requires cs == [c0, c1, c2, c3] && c0 !in {c1, c2, c3} && c1 !in {c2, c3} && c2 != c3
    requires c0.applications !in {c1.applications, c2.applications, c3.applications}
    requires c1.applications !in {c2.applications, c3.applications} && c2.applications != c3.applications
    ensures forall i, j :: 0 <= i < j < |cs| ==> cs[i] != cs[j] && cs[i].applications != cs[j].applications
  {
  }

  class Module {
    const cards: array<VirtualCard>
    ghost var owner: map<File, nat>

    constructor ()
      ensures Valid() && owner == map[]
    {
      var c0 := new VirtualCard();
      var c1 := new VirtualCard();
      var c2 := new VirtualCard();
      var c3 := new VirtualCard();
      cards := new VirtualCard[][c0, c1, c2, c3];
      owner := map[];
      new;
      FourApart(cards[..], c0, c1, c2, c3);
      assert owner.Values == {};
    }

    /** Every open file holds one card, no card is held twice, and the free cards are exactly
        those nobody holds. */
    ghost predicate Valid()
      reads this, cards, cards[..], set c | c in cards[..] :: c.applications, owner.Keys
    {
      && cards.Length == CAPIPROXY_MAXCONTR
      && (forall i :: 0 <= i < cards.Length ==> cards[i].Valid())
      && (forall i, j :: 0 <= i < j < cards.Length ==>
            cards[i] != cards[j] && cards[i].applications != cards[j].applications)
      && Injective(owner)
      && (forall f :: f in owner ==> owner[f] < cards.Length && f.card == cards[owner[f]])
      && (forall i: nat :: i < cards.Length ==> (cards[i].status.Free? <==> i !in owner.Values))
    }

    /** `capiproxy_find_free_id`; the number of cards when there is none. */
    method FindFreeId() returns (id: nat)
      requires Valid()
      ensures id <= cards.Length
      ensures id < cards.Length ==> cards[id].status.Free?
      ensures id == cards.Length ==> forall i :: 0 <= i < cards.Length ==> !cards[i].status.Free?
    {
      id := 0;
      while id < cards.Length
        invariant id <= cards.Length
        invariant forall i :: 0 <= i < id ==> !cards[i].status.Free?
      {
        if cards[id].status.Free? {
          return;
        }
        id := id + 1;
      }
    }

    /** Give the free card `id` to the file. */
    method Attach(file: File, id: nat)
      requires Valid() && file !in owner && id < cards.Length && cards[id].status.Free?
      modifies this`owner, file, cards[id], cards[id].applications
      ensures Valid() && owner == old(owner)[file := id] && file.card == cards[id]
      ensures cards[id].View() == Card(NotReady, [], seq(CAPI_MAXAPPL, _ => Unused))
    {
      var card := cards[id];
      card.Init();
      file.card := card;
      ValuesGrow(owner, file, id);
      owner := owner[file := id];
    }

    /** `capiproxy_open`: fails exactly when all cards are held. */
    method Open(file: File) returns (ok: bool)
      requires Valid() && file !in owner
      modifies this`owner, file, cards[..], set c | c in cards[..] :: c.applications
      ensures Valid()
      ensures ok <==> |old(owner)| < CAPIPROXY_MAXCONTR
      ensures !ok ==> owner == old(owner)
      ensures ok ==>
        file in owner && owner == old(owner)[file := owner[file]] && owner[file] !in old(owner.Values) &&
        file.card.View() == Card(NotReady, [], seq(CAPI_MAXAPPL, _ => Unused))
    {
      FreeSlotIffNotFull(owner);
      var id := FindFreeId();
      if id == cards.Length {
        return false;
      }
      assert cards[id] in cards[..];
      Attach(file, id);
      return true;
    }

    /** `capiproxy_release`. */
    method Close(file: File)
      requires Valid() && file in owner
      modifies this, file, file.card
      ensures Valid() && owner == old(owner) - {file} && file.card == null
      ensures old(file.card).status.Free? && old(file.card).outgoingQueue == []
    {
      var card := file.card;
      card.FlushQueue();
      card.status := Free;
      file.card := null;
      ValuesShrink(owner, file);
      owner := owner - {file};
    }

    /** IOCTL_SET_DATA brings the card up, whatever it was doing. */
    method SetData(file: File)
      requires Valid() && file in owner
      modifies file.card`status
      ensures Valid() && owner == old(owner) && file.card.View() == old(file.card.View()).(status := Running)
    {
      file.card.status := Running;
    }

    /** IOCTL_APPL_REGISTERED and IOCTL_ERROR_REGFAIL. */
    method MarkAppl(file: File, appl: word, a: AppState)
      requires Valid() && file in owner && ValidAppl(appl)
      modifies file.card.applications
      ensures Valid() && owner == old(owner) && file.card.View() == Mark(old(file.card.View()), appl, a)
    {
      file.card.applications[appl - 1] := a;
    }

    /** The kernel removes a controller; the card stays with its file until that is closed. */
    method Remove(file: File, alloc: bool)
      requires Valid() && file in owner
      modifies file.card
      ensures Valid() && owner == old(owner)
      ensures file.card.View() == Kernel(old(file.card.View()), CardModel.KernelOp.RemoveCtr(alloc))
    {
      file.card.RemoveCtr(alloc);
    }
  }
}
