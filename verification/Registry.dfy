/** The server's list of registered applications, twice: the flag array of the current server
    and the linked list of the previous one. */
module Registry {
  import opened Bytes
  import opened CardModel

  // ---- specification ----------------------------------------------------------------------

  predicate Flags(f: seq<byte>) {
    |f| == CAPI_MAXAPPL + 1
  }

  /** The ids a flag array holds; index 0 is never looked at. */
  function Flagged(f: seq<byte>): set<nat>
    requires Flags(f)
  {
    set i: nat | 1 <= i <= CAPI_MAXAPPL && f[i] != 0
  }

  /** Flagged ids from `i` on, in ascending order. */
  function Ascending(f: seq<byte>, i: nat): seq<nat>
    requires Flags(f)
    decreases |f| - i
  {
    if i >= |f| then [] else (if f[i] != 0 then [i] else []) + Ascending(f, i + 1)
  }

  /** The list without the first occurrence of `id`. */
  function RemoveFirst(l: seq<nat>, id: nat): seq<nat> {
    if l == [] then [] else if l[0] == id then l[1..] else [l[0]] + RemoveFirst(l[1..], id)
  }

  /** What draining until 0 releases: everything before the first 0. */
  function UpToZero(l: seq<nat>): seq<nat> {
    if l == [] || l[0] == 0 then [] else [l[0]] + UpToZero(l[1..])
  }

  function AfterZero(l: seq<nat>): seq<nat> {
    if l == [] then [] else if l[0] == 0 then l[1..] else AfterZero(l[1..])
  }

  predicate NoDuplicates(l: seq<nat>) {
    forall i, j :: 0 <= i < j < |l| ==> l[i] != l[j]
  }

  function Elements(l: seq<nat>): set<nat> {
    set x | x in l
  }

  lemma {:induction false} RemoveFirstSplits(l: seq<nat>, i: nat, id: nat)
    requires i <= |l| && forall k :: 0 <= k < i ==> l[k] != id
    ensures i < |l| && l[i] == id ==> RemoveFirst(l, id) == l[..i] + l[i + 1..]
    ensures i == |l| ==> RemoveFirst(l, id) == l
  {
    if i > 0 {
      RemoveFirstSplits(l[1..], i - 1, id);
      assert l == [l[0]] + l[1..];
      if i < |l| && l[i] == id {
        assert RemoveFirst(l, id) == [l[0]] + (l[1..][..i - 1] + l[1..][i..]);
        assert l[1..][i..] == l[i + 1..];
        assert [l[0]] + l[1..][..i - 1] == l[..i];
      }
    }
  }

  lemma {:induction false} AscendingMembers(f: seq<byte>, i: nat, x: nat)
    requires Flags(f)
    ensures x in Ascending(f, i) <==> i <= x <= CAPI_MAXAPPL && f[x] != 0
    decreases |f| - i
  {
    if i <= CAPI_MAXAPPL {
      AscendingMembers(f, i + 1, x);
    }
  }

  lemma {:induction false} AscendingOrdered(f: seq<byte>, i: nat)
    requires Flags(f)
    ensures forall j, k :: 0 <= j < k < |Ascending(f, i)| ==> Ascending(f, i)[j] < Ascending(f, i)[k]
    decreases |f| - i
  {
    if i <= CAPI_MAXAPPL {
      var rest := Ascending(f, i + 1);
      AscendingOrdered(f, i + 1);
      forall k | 0 <= k < |rest| ensures i < rest[k] {
        AscendingMembers(f, i + 1, rest[k]);
      }
    }
  }

  /** The ascending list is the set, each member once. */
  lemma AscendingIs(f: seq<byte>)
    requires Flags(f)
    ensures Elements(Ascending(f, 1)) == Flagged(f) && NoDuplicates(Ascending(f, 1))
  {
    forall x ensures x in Ascending(f, 1) <==> x in Flagged(f) {
      AscendingMembers(f, 1, x);
    }
    AscendingOrdered(f, 1);
  }

  lemma AscendingSkips(f: seq<byte>, i: nat, j: nat)
    requires Flags(f) && i <= j && forall k :: i <= k < j && k <= CAPI_MAXAPPL ==> f[k] == 0
    ensures Ascending(f, i) == Ascending(f, j)
    decreases j - i
  {
    if i < j {
      AscendingSkips(f, i + 1, j);
    }
  }

  ghost predicate ClearedUpTo(was: seq<byte>, last: nat, left: seq<byte>)
    requires Flags(was) && Flags(left)
  {
    forall k :: 1 <= k <= CAPI_MAXAPPL ==> left[k] == if k <= last then 0 else was[k]
  }

  /** What `getfirst_app` finds after everything up to `last` has been cleared. */
  lemma NextFlag(was: seq<byte>, last: nat, left: seq<byte>, app: nat)
    requires Flags(was) && Flags(left) && last <= CAPI_MAXAPPL
    requires ClearedUpTo(was, last, left)
    requires app == 0 <==> Flagged(left) == {}
    requires app != 0 ==> app in Flagged(left) && forall x :: x in Flagged(left) ==> app <= x
    ensures app == 0 ==> Ascending(was, last + 1) == []
    ensures app != 0 ==> last < app && was[app] != 0 && Ascending(was, last + 1) == [app] + Ascending(was, app + 1)
    ensures app != 0 ==> ClearedUpTo(was, app, left[app := 0])
  {
    assert forall k :: 1 <= k <= CAPI_MAXAPPL && left[k] != 0 ==> k in Flagged(left);
    AscendingSkips(was, last + 1, if app == 0 then CAPI_MAXAPPL + 1 else app);
  }

  lemma Regroup(a: seq<nat>, x: nat, b: seq<nat>)
    ensures (a + [x]) + b == a + ([x] + b)
  {
  }

  // ---- the flag array ---------------------------------------------------------------------

  class FlagRegistry {
    const flags: array<byte>

    ghost predicate Valid()
      reads this
    {
      flags.Length == CAPI_MAXAPPL + 1
    }

    ghost function Ids(): set<nat>
      requires Valid()
      reads this, flags
    {
      Flagged(flags[..])
    }

    constructor ()
      ensures Valid() && fresh(flags) && Ids() == {}
      ensures forall i :: 0 <= i <= CAPI_MAXAPPL ==> flags[i] == 0
    {
      flags := new byte[CAPI_MAXAPPL + 1](_ => 0);
    }

    method AddApp(id: nat)
      requires Valid() && 1 <= id <= CAPI_MAXAPPL
      modifies flags
      ensures flags[..] == old(flags[..])[id := 1]
      ensures Ids() == old(Ids()) + {id}
    {
      flags[id] := 1;
    }

    method DelApp(id: nat)
      requires Valid() && 1 <= id <= CAPI_MAXAPPL
      modifies flags
      ensures flags[..] == old(flags[..])[id := 0]
      ensures Ids() == old(Ids()) - {id}
    {
      flags[id] := 0;
    }

    method GetFirstApp() returns (id: nat)
      requires Valid()
      modifies flags
      ensures id == 0 <==> old(Ids()) == {}
      ensures id == 0 ==> flags[..] == old(flags[..])
      ensures id != 0 ==> id in old(Ids()) && forall x :: x in old(Ids()) ==> id <= x
      ensures id != 0 ==> flags[..] == old(flags[..])[id := 0]
      ensures Ids() == old(Ids()) - {id}
    {
      var i := 1;
      while i <= CAPI_MAXAPPL
        invariant 1 <= i <= CAPI_MAXAPPL + 1
        invariant flags[..] == old(flags[..])
        invariant forall k :: 1 <= k < i ==> flags[k] == 0
      {
        if flags[i] != 0 {
          assert i in Ids();
          flags[i] := 0;
          return i;
        }
        i := i + 1;
      }
      return 0;
    }

    /** Returns the ids passed to `capi20_release`, in order. */
    method ReleaseAll() returns (released: seq<nat>)
      requires Valid()
      modifies flags
      ensures released == Ascending(old(flags[..]), 1)
      ensures Ids() == {}
    {
      released := [];
      ghost var was := flags[..];
      var app := GetFirstApp();
      NextFlag(was, 0, was, app);
      while app != 0
        invariant app == 0 ==> Ids() == {} && Ascending(was, 1) == released
        invariant app != 0 ==> 1 <= app <= CAPI_MAXAPPL
        invariant app != 0 ==> Ascending(was, 1) == released + ([app] + Ascending(was, app + 1))
        invariant app != 0 ==> ClearedUpTo(was, app, flags[..])
        decreases if app == 0 then 0 else CAPI_MAXAPPL + 1 - app
      {
        Regroup(released, app, Ascending(was, app + 1));
        released := released + [app];
        ghost var last, left := app, flags[..];
        app := GetFirstApp();
        NextFlag(was, last, left, app);
      }
    }
  }

  // ---- the linked list --------------------------------------------------------------------

  class Node {
    var id: nat
    var next: Node?

    constructor (id: nat)
      ensures this.id == id && this.next == null
    {
      this.id := id;
      this.next := null;
    }
  }

  class ListRegistry {
    var head: Node?
    ghost var spine: seq<Node>
    ghost var ids: seq<nat>

    /** The nodes reached from `head` are `spine`, each once: no cycle, no sharing. */
    ghost predicate Valid()
      reads this, spine
    {
      && (head == null <==> spine == [])
      && (spine != [] ==> head == spine[0] && spine[|spine| - 1].next == null)
      && (forall i :: 0 <= i < |spine| - 1 ==> spine[i].next == spine[i + 1])
      && (forall i, j :: 0 <= i < j < |spine| ==> spine[i] != spine[j])
      && |ids| == |spine|
      && (forall i :: 0 <= i < |spine| ==> ids[i] == spine[i].id)
    }

    constructor ()
      ensures Valid() && ids == [] && spine == []
    {
      head := null;
      spine, ids := [], [];
    }

    method AddApp(id: nat)
      requires Valid()
      modifies this, spine
      ensures Valid() && ids == old(ids) + [id]
      ensures forall n :: n in spine && n !in old(spine) ==> fresh(n)
    {
      if head != null {
        var list := head;
        ghost var i := 0;
        while list.next != null
          invariant 0 <= i < |spine| && list == spine[i]
          invariant list.next == if i + 1 < |spine| then spine[i + 1] else null
          decreases |spine| - i
        {
          list := list.next;
          i := i + 1;
        }
        var n := new Node(id);
        list.next := n;
        spine, ids := spine + [n], ids + [id];
        assert forall k :: 0 <= k < i ==> spine[k] != list && spine[k].next == spine[k + 1];
      } else {
        head := new Node(id);
        spine, ids := [head], [id];
      }
    }

    method DelApp(id: nat)
      requires Valid()
      modifies this, spine
      ensures Valid() && ids == RemoveFirst(old(ids), id)
      ensures forall n :: n in spine ==> n in old(spine)
    {
      var list := head;
      var prev: Node? := null;
      ghost var i := 0;
      while list != null
        invariant 0 <= i <= |spine| && list == (if i < |spine| then spine[i] else null)
        invariant prev == if i == 0 then null else spine[i - 1]
        invariant forall k :: 0 <= k < i ==> ids[k] != id
        decreases |spine| - i
      {
        if list.id == id {
          RemoveFirstSplits(ids, i, id);
          Unlink(prev, list, i);
          return;
        }
        prev := list;
        list := list.next;
        i := i + 1;
      }
      RemoveFirstSplits(ids, i, id);
    }

    /** Relink around the node at `i`. */
    method Unlink(prev: Node?, list: Node, ghost i: nat)
      requires Valid() && i < |spine| && list == spine[i] && prev == if i == 0 then null else spine[i - 1]
      modifies this, if prev == null then {} else {prev}
      ensures Valid() && ids == old(ids)[..i] + old(ids)[i + 1..] && spine == old(spine)[..i] + old(spine)[i + 1..]
    {
      ghost var was := spine;
      assert list.next == if i + 1 < |was| then was[i + 1] else null;
      if prev != null {
        prev.next := list.next;
      } else {
        head := list.next;
      }
      spine, ids := was[..i] + was[i + 1..], ids[..i] + ids[i + 1..];
      assert forall k :: 0 <= k < |spine| ==> spine[k] == was[if k < i then k else k + 1];
      assert forall k :: 0 <= k < |was| && k != i - 1 ==> was[k].next == old(was[k].next);
    }

    method GetFirstApp() returns (id: nat)
      requires Valid()
      modifies this
      ensures Valid()
      ensures old(ids) == [] ==> id == 0 && ids == []
      ensures old(ids) != [] ==> id == old(ids)[0] && ids == old(ids)[1..]
      ensures forall n :: n in spine ==> n in old(spine)
    {
      if head == null {
        return 0;
      }
      id := head.id;
      assert |spine| > 1 ==> head.next == spine[1];
      head := head.next;
      spine, ids := spine[1..], ids[1..];
    }

    /** Returns the ids passed to `capi20_release`, in order. */
    method ReleaseAll() returns (released: seq<nat>)
      requires Valid()
      modifies this
      ensures Valid() && released == UpToZero(old(ids)) && ids == AfterZero(old(ids))
    {
      released := [];
      ghost var was := ids;
      var app := GetFirstApp();
      while app != 0
        invariant Valid()
        invariant app == 0 ==> released == UpToZero(was) && ids == AfterZero(was)
        invariant app != 0 ==> UpToZero(was) == released + [app] + UpToZero(ids)
        invariant app != 0 ==> AfterZero(was) == AfterZero(ids)
        decreases app != 0, |ids|
      {
        released := released + [app];
        ghost var left := ids;
        app := GetFirstApp();
        assert app != 0 ==> UpToZero(left) == [app] + UpToZero(ids);
        assert released + ([app] + UpToZero(ids)) == released + [app] + UpToZero(ids);
      }
    }
  }

  // ---- refinement -------------------------------------------------------------------------

  datatype RegOp = Add(id: nat) | Del(id: nat) | Drain

  /** What either registry and its CAPI have seen: its contents, and every drain so far. */
  datatype ListRun = ListRun(list: seq<nat>, drains: seq<seq<nat>>)

  datatype FlagRun = FlagRun(flags: seq<byte>, drains: seq<seq<nat>>)

  function ListStep(s: ListRun, op: RegOp): ListRun {
    match op
    case Add(id) => s.(list := s.list + [id])
    case Del(id) => s.(list := RemoveFirst(s.list, id))
    case Drain => ListRun(AfterZero(s.list), s.drains + [UpToZero(s.list)])
  }

  predicate InTable(op: RegOp) {
    op.Drain? || 1 <= op.id <= CAPI_MAXAPPL
  }

  function FlagStep(s: FlagRun, op: RegOp): FlagRun
    requires Flags(s.flags) && InTable(op)
  {
    match op
    case Add(id) => s.(flags := s.flags[id := 1])
    case Del(id) => s.(flags := s.flags[id := 0])
    case Drain => FlagRun(seq(|s.flags|, i requires 0 <= i < |s.flags| => if i == 0 then s.flags[0] else 0),
                          s.drains + [Ascending(s.flags, 1)])
  }

  /** The server registers only ids it does not hold: CAPI hands out ids not in use. */
  predicate Proper(s: ListRun, op: RegOp) {
    InTable(op) && (op.Add? ==> op.id !in s.list)
  }

  /** Same members, no duplicates, and drain by drain the same ids released, each once. */
  ghost predicate Agree(l: ListRun, f: FlagRun) {
    && Flags(f.flags) && NoDuplicates(l.list) && 0 !in l.list && Elements(l.list) == Flagged(f.flags)
    && |l.drains| == |f.drains|
    && forall i :: 0 <= i < |l.drains| ==> SameRelease(l.drains[i], f.drains[i])
  }

  ghost predicate SameRelease(a: seq<nat>, b: seq<nat>) {
    NoDuplicates(a) && NoDuplicates(b) && Elements(a) == Elements(b)
  }

  lemma {:induction false} RemoveFirstIs(l: seq<nat>, id: nat)
    requires NoDuplicates(l)
    ensures NoDuplicates(RemoveFirst(l, id)) && Elements(RemoveFirst(l, id)) == Elements(l) - {id}
  {
    if l != [] {
      assert NoDuplicates(l[1..]);
      RemoveFirstIs(l[1..], id);
      assert l == [l[0]] + l[1..];
      assert Elements(l) == {l[0]} + Elements(l[1..]);
      assert l[0] !in Elements(l[1..]);
      if l[0] != id {
        var rest := RemoveFirst(l[1..], id);
        assert forall k :: 0 <= k < |rest| ==> rest[k] in Elements(rest);
        assert l[0] !in Elements(rest);
        assert Elements([l[0]] + rest) == {l[0]} + Elements(rest);
      }
    }
  }

  lemma {:induction false} NoZeroAllReleased(l: seq<nat>)
    ensures 0 !in l <==> UpToZero(l) == l
    ensures 0 !in l ==> AfterZero(l) == []
  {
    if l != [] {
      NoZeroAllReleased(l[1..]);
      assert l == [l[0]] + l[1..];
      assert |UpToZero(l)| == |l| ==> l[0] != 0;
    }
  }

  lemma AddAgrees(l: seq<nat>, f: seq<byte>, id: nat)
    requires Flags(f) && Elements(l) == Flagged(f) && 1 <= id <= CAPI_MAXAPPL
    ensures Elements(l + [id]) == Flagged(f[id := 1])
  {
    assert Flagged(f[id := 1]) == Flagged(f) + {id};
    assert Elements(l + [id]) == Elements(l) + {id};
  }

  lemma DelAgrees(l: seq<nat>, f: seq<byte>, id: nat)
    requires Flags(f) && NoDuplicates(l) && Elements(l) == Flagged(f) && 1 <= id <= CAPI_MAXAPPL
    ensures var r := RemoveFirst(l, id); NoDuplicates(r) && Elements(r) == Flagged(f[id := 0])
  {
    RemoveFirstIs(l, id);
    assert Flagged(f[id := 0]) == Flagged(f) - {id};
  }

  lemma DrainAgrees(l: ListRun, f: FlagRun)
    requires Agree(l, f)
    ensures Agree(ListStep(l, Drain), FlagStep(f, Drain))
  {
    NoZeroAllReleased(l.list);
    AscendingIs(f.flags);
    assert Flagged(FlagStep(f, Drain).flags) == {};
    assert SameRelease(l.list, Ascending(f.flags, 1));
  }

  lemma StepAgrees(l: ListRun, f: FlagRun, op: RegOp)
    requires Agree(l, f) && Proper(l, op)
    ensures Agree(ListStep(l, op), FlagStep(f, op))
  {
    match op
    case Add(id) => AddAgrees(l.list, f.flags, id);
    case Del(id) =>
      DelAgrees(l.list, f.flags, id);
      assert 0 !in Elements(RemoveFirst(l.list, id));
    case Drain => DrainAgrees(l, f);
  }

  predicate ProperRun(l: ListRun, ops: seq<RegOp>)
    decreases |ops|
  {
    ops == [] || (Proper(l, ops[0]) && ProperRun(ListStep(l, ops[0]), ops[1..]))
  }

  function RunList(l: ListRun, ops: seq<RegOp>): ListRun
    decreases |ops|
  {
    if ops == [] then l else RunList(ListStep(l, ops[0]), ops[1..])
  }

  function RunFlags(f: FlagRun, ops: seq<RegOp>): FlagRun
    requires Flags(f.flags) && forall op | op in ops :: InTable(op)
    decreases |ops|
  {
    if ops == [] then f else RunFlags(FlagStep(f, ops[0]), ops[1..])
  }

  lemma {:induction false} ProperInTable(l: ListRun, ops: seq<RegOp>)
    requires ProperRun(l, ops)
    ensures forall op | op in ops :: InTable(op)
    decreases |ops|
  {
    if ops != [] {
      ProperInTable(ListStep(l, ops[0]), ops[1..]);
      assert ops == [ops[0]] + ops[1..];
    }
  }

  /** Under every sequence of registrations, releases and teardowns the two registries hold
      the same applications and release the same applications; only the order differs. */
  lemma {:induction false} RegistriesAgree(l: ListRun, f: FlagRun, ops: seq<RegOp>)
    requires Agree(l, f) && ProperRun(l, ops)
    ensures forall op | op in ops :: InTable(op)
    ensures Agree(RunList(l, ops), RunFlags(f, ops))
    decreases |ops|
  {
    ProperInTable(l, ops);
    if ops != [] {
      StepAgrees(l, f, ops[0]);
      RegistriesAgree(ListStep(l, ops[0]), FlagStep(f, ops[0]), ops[1..]);
    }
  }

  lemma StepAgreesIffProper(l: ListRun, f: FlagRun, op: RegOp)
    requires Agree(l, f) && InTable(op)
    ensures Agree(ListStep(l, op), FlagStep(f, op)) <==> Proper(l, op)
  {
    if Proper(l, op) {
      StepAgrees(l, f, op);
    } else {
      var i :| 0 <= i < |l.list| && l.list[i] == op.id;
      var twice := l.list + [op.id];
      assert twice[i] == twice[|l.list|] && !NoDuplicates(twice);
    }
  }

  ghost predicate AlwaysAgree(l: ListRun, f: FlagRun, ops: seq<RegOp>)
    requires Flags(f.flags) && forall i :: 0 <= i < |ops| ==> InTable(ops[i])
    decreases |ops|
  {
    Agree(l, f) && (ops == [] || AlwaysAgree(ListStep(l, ops[0]), FlagStep(f, ops[0]), ops[1..]))
  }

  /** They agree all the way exactly if nothing is registered that is registered already. */
  lemma {:induction false} AgreeIffProper(l: ListRun, f: FlagRun, ops: seq<RegOp>)
    requires Agree(l, f) && forall i :: 0 <= i < |ops| ==> InTable(ops[i])
    ensures AlwaysAgree(l, f, ops) <==> ProperRun(l, ops)
    decreases |ops|
  {
    if ops != [] {
      var m, g := ListStep(l, ops[0]), FlagStep(f, ops[0]);
      StepAgreesIffProper(l, f, ops[0]);
      if Agree(m, g) {
        AgreeIffProper(m, g, ops[1..]);
      } else {
        assert !AlwaysAgree(m, g, ops[1..]);
      }
    }
  }

  /** Registering an id twice is where they part: after adding `id` and deleting it once, the
      array has forgotten it, and the list has too exactly when it did not hold it before. */
  lemma AgreeIffAbsent(l: ListRun, f: FlagRun, id: nat)
    requires Agree(l, f) && 1 <= id <= CAPI_MAXAPPL
    ensures Agree(ListStep(ListStep(l, Add(id)), Del(id)), FlagStep(FlagStep(f, Add(id)), Del(id)))
      <==> id !in l.list
  {
    var l2 := ListStep(ListStep(l, Add(id)), Del(id));
    var f2 := FlagStep(FlagStep(f, Add(id)), Del(id));
    if id !in l.list {
      StepAgrees(l, f, Add(id));
      StepAgrees(ListStep(l, Add(id)), FlagStep(f, Add(id)), Del(id));
    } else {
      var i :| 0 <= i < |l.list| && l.list[i] == id;
      RemoveFirstSplits(l.list + [id], i, id);
      assert l2.list[|l2.list| - 1] == id;
      assert id in Elements(l2.list) && id !in Flagged(f2.flags);
    }
  }
}
