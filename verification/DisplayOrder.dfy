/**
 Display orders: lists of ids merged from what the user stored and what the program registers, seen through
 the set of ids that are shown. The navigation panel and the tables order their entries in this way.
*/
module DisplayOrder {
  import opened Sequences

  type Id = string

  function Ids(s: seq<Id>): set<Id> {
    set id | id in s
  }

  // The entries of s that belong to K, in order.
  function Keep(s: seq<Id>, K: set<Id>): seq<Id> {
    if s == [] then [] else (if s[0] in K then [s[0]] else []) + Keep(s[1..], K)
  }

  // The position of the first occurrence of id, or -1.
  function IndexOf(s: seq<Id>, id: Id): (i: int)
    ensures -1 <= i < |s|
    ensures i == -1 <==> id !in s
    ensures i >= 0 ==> s[i] == id && forall k :: 0 <= k < i ==> s[k] != id
  {
    if s == [] then -1
    else if s[0] == id then 0
    else
      var i := IndexOf(s[1..], id);
      if i < 0 then -1 else i + 1
  }

  lemma {:induction false} KeepConcat(a: seq<Id>, b: seq<Id>, K: set<Id>)
    ensures Keep(a + b, K) == Keep(a, K) + Keep(b, K)
  {
    if a == [] {
      assert a + b == b;
    } else {
      assert (a + b)[1..] == a[1..] + b;
      KeepConcat(a[1..], b, K);
    }
  }

  lemma {:induction false} KeepMembers(s: seq<Id>, K: set<Id>)
    ensures forall id :: id in Keep(s, K) <==> id in s && id in K
  {
    if s != [] {
      assert s == [s[0]] + s[1..];
      KeepMembers(s[1..], K);
    }
  }

  lemma {:induction false} KeepAll(s: seq<Id>, K: set<Id>)
    requires forall id :: id in s ==> id in K
    ensures Keep(s, K) == s
  {
    if s != [] {
      KeepAll(s[1..], K);
    }
  }

  lemma {:induction false} KeepSame(s: seq<Id>, K: set<Id>, L: set<Id>)
    requires forall id :: id in s ==> (id in K <==> id in L)
    ensures Keep(s, K) == Keep(s, L)
  {
    if s != [] {
      KeepSame(s[1..], K, L);
    }
  }

  lemma KeepNone(K: set<Id>)
    ensures Keep([], K) == []
  {
  }

  lemma KeepFirst(id: Id, s: seq<Id>, K: set<Id>)
    ensures Keep([id] + s, K) == if id in K then [id] + Keep(s, K) else Keep(s, K)
  {
    assert ([id] + s)[1..] == s;
  }

  lemma {:induction false} KeepKeep(s: seq<Id>, K: set<Id>, L: set<Id>)
    ensures Keep(Keep(s, K), L) == Keep(s, K * L)
  {
    hide Keep;
    if s == [] {
      KeepNone(K);
      KeepNone(L);
      KeepNone(K * L);
    } else {
      assert s == [s[0]] + s[1..];
      KeepKeep(s[1..], K, L);
      KeepFirst(s[0], s[1..], K);
      KeepFirst(s[0], s[1..], K * L);
      KeepFirst(s[0], Keep(s[1..], K), L);
    }
  }

  lemma {:induction false} KeepDistinct(s: seq<Id>, K: set<Id>)
    requires Distinct(s)
    ensures Distinct(Keep(s, K))
  {
    if s != [] {
      KeepDistinct(s[1..], K);
      KeepMembers(s[1..], K);
      assert s[0] !in s[1..];
    }
  }

  lemma {:induction false} KeepSplits(s: seq<Id>, K: set<Id>, L: set<Id>)
    requires K !! L && Ids(s) <= K + L
    ensures multiset(Keep(s, K) + Keep(s, L)) == multiset(s)
  {
    if s != [] {
      assert s == [s[0]] + s[1..];
      KeepSplits(s[1..], K, L);
    }
  }

  lemma {:induction false} SameDistinct(a: seq<Id>, b: seq<Id>)
    requires Distinct(a) && Distinct(b) && Ids(a) == Ids(b)
    ensures multiset(a) == multiset(b)
  {
    forall id
      ensures multiset(a)[id] == multiset(b)[id]
    {
      OnceAtMost(a, id);
      OnceAtMost(b, id);
      assert id in Ids(a) <==> id in Ids(b);
    }
  }

  lemma {:induction false} OnceAtMost(s: seq<Id>, id: Id)
    requires Distinct(s)
    ensures multiset(s)[id] == if id in s then 1 else 0
  {
    if s != [] {
      assert s == [s[0]] + s[1..];
      OnceAtMost(s[1..], id);
      assert s[0] !in s[1..];
    }
  }

  // ---------------------------------------------------------------------------------------------
  // The full order
  // ---------------------------------------------------------------------------------------------

  // The known ids among the first n entries, each where it is first seen.
  function FirstSeen(all: seq<Id>, n: nat, known: set<Id>): seq<Id>
    requires n <= |all|
  {
    if n == 0 then []
    else
      var placed := FirstSeen(all, n - 1, known);
      if all[n - 1] in known && all[n - 1] !in placed then placed + [all[n - 1]] else placed
  }

  lemma FirstSeenNone(all: seq<Id>, known: set<Id>)
    ensures FirstSeen(all, 0, known) == []
  {
  }

  lemma FirstSeenStep(all: seq<Id>, n: nat, known: set<Id>)
    requires n < |all|
    ensures FirstSeen(all, n + 1, known) ==
            var placed := FirstSeen(all, n, known);
            if all[n] in known && all[n] !in placed then placed + [all[n]] else placed
  {
  }

  // The stored order first, then what the registry adds.
  function FullOrder(order: seq<Id>, registry: seq<Id>): seq<Id> {
    FirstSeen(order + registry, |order| + |registry|, Ids(registry))
  }

  /** The two passes that build the full order. */
  method MergeOrder(order: seq<Id>, registry: seq<Id>) returns (merged: seq<Id>)
    ensures merged == FullOrder(order, registry)
  {
    ghost var all := order + registry;
    merged := [];
    for i := 0 to |order|
      invariant merged == FirstSeen(all, i, Ids(registry))
    {
      assert all[i] == order[i];
      if order[i] in registry && order[i] !in merged {
        merged := merged + [order[i]];
      }
    }
    for i := 0 to |registry|
      invariant merged == FirstSeen(all, |order| + i, Ids(registry))
    {
      assert all[|order| + i] == registry[i];
      if registry[i] !in merged {
        merged := merged + [registry[i]];
      }
    }
  }

  // Every entry of s comes at its first occurrence in all, before those seen later.
  ghost predicate BySight(s: seq<Id>, all: seq<Id>) {
    forall i, j :: 0 <= i < j < |s| ==> IndexOf(all, s[i]) < IndexOf(all, s[j])
  }

  lemma {:induction false} FirstSeenLaw(all: seq<Id>, n: nat, known: set<Id>)
    requires n <= |all|
    ensures forall id :: id in FirstSeen(all, n, known) <==> id in all[..n] && id in known
    ensures forall id :: id in FirstSeen(all, n, known) ==> 0 <= IndexOf(all, id) < n
    ensures BySight(FirstSeen(all, n, known), all)
  {
    if n > 0 {
      FirstSeenLaw(all, n - 1, known);
      assert all[..n] == all[..n - 1] + [all[n - 1]];
      var id, i := all[n - 1], IndexOf(all, all[n - 1]);
      if id in known && id !in FirstSeen(all, n - 1, known) {
        assert forall k :: 0 <= k < n - 1 ==> all[k] == all[..n - 1][k];
        assert i == n - 1;
      }
    }
  }

  /** The full order holds exactly the registered ids, once each, those of the stored order first and the
      others as registered: each id before all that are first seen later. */
  lemma FullOrderLaw(order: seq<Id>, registry: seq<Id>)
    ensures Ids(FullOrder(order, registry)) == Ids(registry)
    ensures Distinct(FullOrder(order, registry))
    ensures BySight(FullOrder(order, registry), order + registry)
  {
    var all := order + registry;
    FirstSeenLaw(all, |all|, Ids(registry));
    assert all[..|all|] == all;
    var full := FullOrder(order, registry);
    forall i, j | 0 <= i < j < |full|
      ensures full[i] != full[j]
    {
      assert IndexOf(all, full[i]) < IndexOf(all, full[j]);
    }
  }

  /** No other list does. */
  lemma {:induction false} FullOrderIsUnique(a: seq<Id>, b: seq<Id>, all: seq<Id>)
    requires Ids(a) == Ids(b) && BySight(a, all) && BySight(b, all)
    ensures a == b
  {
    NoIds(a);
    NoIds(b);
    if a == [] {
      assert b == [];
    } else {
      Least(a, b, all);
      Least(b, a, all);
      HeadApart(a, all);
      HeadApart(b, all);
      assert a[0] == b[0];
      FullOrderIsUnique(a[1..], b[1..], all);
      assert a == [a[0]] + a[1..] && b == [b[0]] + b[1..];
    }
  }

  lemma NoIds(s: seq<Id>)
    ensures Ids(s) == {} <==> s == []
  {
    if s != [] {
      assert s[0] in Ids(s);
    }
  }

  lemma HeadApart(a: seq<Id>, all: seq<Id>)
    requires a != [] && BySight(a, all)
    ensures Ids(a[1..]) == Ids(a) - {a[0]}
  {
    forall k | 1 <= k < |a|
      ensures a[k] != a[0]
    {
      assert IndexOf(all, a[0]) < IndexOf(all, a[k]);
    }
    forall id | id in Ids(a) - {a[0]}
      ensures id in a[1..]
    {
      var k :| 0 <= k < |a| && a[k] == id;
      assert a[1..][k - 1] == id;
    }
  }

  lemma Least(a: seq<Id>, b: seq<Id>, all: seq<Id>)
    requires a != [] && b != [] && Ids(a) == Ids(b) && BySight(a, all) && BySight(b, all)
    ensures IndexOf(all, a[0]) <= IndexOf(all, b[0])
    ensures IndexOf(all, a[0]) == IndexOf(all, b[0]) ==> a[0] == b[0]
  {
    assert b[0] in Ids(a);
    var k :| 0 <= k < |a| && a[k] == b[0];
    if k > 0 {
      assert IndexOf(all, a[0]) < IndexOf(all, a[k]);
    }
  }

  /** A stored order that already lists the registered ids, once each, is taken as it is. */
  lemma {:induction false} FullOrderOfComplete(order: seq<Id>, registry: seq<Id>)
    requires Distinct(order) && Ids(order) == Ids(registry)
    ensures FullOrder(order, registry) == order
  {
    var all := order + registry;
    FullOrderLaw(order, registry);
    forall i | 0 <= i < |order|
      ensures IndexOf(all, order[i]) == i
    {
      assert all[i] == order[i];
      assert forall k :: 0 <= k < i ==> all[k] == order[k];
    }
    FullOrderIsUnique(FullOrder(order, registry), order, all);
  }

  // ---------------------------------------------------------------------------------------------
  // Moves
  // ---------------------------------------------------------------------------------------------

  /** The list with the entry at `from` taken out and put in at `to`. */
  function MoveTo(s: seq<Id>, from: nat, to: nat): seq<Id>
    requires from < |s| && to < |s|
  {
    var rest := s[..from] + s[from + 1..];
    rest[..to] + [s[from]] + rest[to..]
  }

  // Where the entry is put back.
  function AtTarget(full: seq<Id>, id: Id, target: Id, after: bool): (at: nat)
    requires target in full && target != id
    ensures at <= |Keep(full, Ids(full) - {id})|
  {
    KeepMembers(full, Ids(full) - {id});
    IndexOf(Keep(full, Ids(full) - {id}), target) + if after then 1 else 0
  }

  // The full order with id taken out and put in just after, or just before, the target.
  function PutBeside(full: seq<Id>, id: Id, target: Id, after: bool): seq<Id>
    requires target in full && target != id
  {
    var next, at := Keep(full, Ids(full) - {id}), AtTarget(full, id, target, after);
    next[..at] + [id] + next[at..]
  }

  lemma KeepOne(id: Id, K: set<Id>)
    ensures Keep([id], K) == if id in K then [id] else []
  {
  }

  // Keeping all but the entry at i, with any set that says so of the list.
  lemma KeepOthers(s: seq<Id>, i: nat, K: set<Id>)
    requires i < |s| && s[i] !in K
    requires forall k :: 0 <= k < |s| && k != i ==> s[k] in K
    ensures Keep(s, K) == s[..i] + s[i + 1..]
  {
    hide Keep;
    var a, b := s[..i], s[i + 1..];
    assert s == a + ([s[i]] + b);
    KeepConcat(a, [s[i]] + b, K);
    KeepConcat([s[i]], b, K);
    KeepAll(a, K);
    KeepAll(b, K);
    KeepOne(s[i], K);
  }

  // Around a kept entry, the kept list splits where the list does.
  lemma KeepAround(s: seq<Id>, K: set<Id>, p: nat)
    requires p < |s| && s[p] in K
    ensures Keep(s, K) == Keep(s[..p], K) + [s[p]] + Keep(s[p + 1..], K)
    ensures Keep(s[..p + 1], K) == Keep(s[..p], K) + [s[p]]
    ensures Keep(s[p..], K) == [s[p]] + Keep(s[p + 1..], K)
  {
    hide Keep;
    var one := [s[p]];
    KeepOne(s[p], K);
    assert s == s[..p] + s[p..] && s[p..] == one + s[p + 1..] && s[..p + 1] == s[..p] + one;
    KeepConcat(s[..p], s[p..], K);
    KeepConcat(one, s[p + 1..], K);
    KeepConcat(s[..p], one, K);
  }

  // Where the target is in the rest of the visible list.
  lemma TargetPlace(rest: seq<Id>, a: seq<Id>, target: Id, b: seq<Id>, place: nat)
    requires Distinct(rest) && rest == a + [target] + b && place < |rest| && rest[place] == target
    ensures |a| == place
  {
    assert rest[|a|] == target;
  }

  lemma KeepAfterRemoval(full: seq<Id>, K: set<Id>, from: nat)
    requires Distinct(full) && from < |Keep(full, K)|
    ensures var v := Keep(full, K);
            Keep(Keep(full, Ids(full) - {v[from]}), K) == v[..from] + v[from + 1..]
  {
    hide Keep;
    var v := Keep(full, K);
    var id := v[from];
    KeepDistinct(full, K);
    KeepOthers(v, from, Ids(v) - {id});
    KeepMembers(full, K);
    KeepKeep(full, Ids(full) - {id}, K);
    KeepKeep(full, K, Ids(v) - {id});
    KeepSame(full, (Ids(full) - {id}) * K, K * (Ids(v) - {id}));
  }

  /** The move that the user sees: putting an entry beside its target in the full order moves it, in what is
      shown, from its place to the target's place. */
  lemma MoveSeen(full: seq<Id>, K: set<Id>, from: nat, to: nat)
    requires Distinct(full)
    requires from < |Keep(full, K)| && to < |Keep(full, K)| && from != to
    ensures var v := Keep(full, K);
            && v[from] != v[to] && v[to] in full
            && Keep(PutBeside(full, v[from], v[to], from < to), K) == MoveTo(v, from, to)
  {
    hide Keep;
    var v := Keep(full, K);
    var id, target := v[from], v[to];
    KeepDistinct(full, K);
    KeepMembers(full, K);
    var J := Ids(full) - {id};
    var next := Keep(full, J);
    KeepMembers(full, J);
    KeepAfterRemoval(full, K, from);
    var p := IndexOf(next, target);
    PlaceInRest(v, from, to, next, K, p);
    KeepInserted(next, if from < to then p + 1 else p, id, K);
  }

  // Cutting the rest of the full order beside the target cuts the rest of the visible list at its place.
  lemma PlaceInRest(v: seq<Id>, from: nat, to: nat, next: seq<Id>, K: set<Id>, p: nat)
    requires Distinct(v) && from < |v| && to < |v| && from != to
    requires Keep(next, K) == v[..from] + v[from + 1..]
    requires p < |next| && next[p] == v[to] && v[to] in K
    ensures var rest, at := v[..from] + v[from + 1..], if from < to then p + 1 else p;
            Keep(next[..at], K) == rest[..to] && Keep(next[at..], K) == rest[to..]
  {
    hide Keep;
    var rest := v[..from] + v[from + 1..];
    KeepAround(next, K, p);
    var a, b := Keep(next[..p], K), Keep(next[p + 1..], K);
    var place := if from < to then to - 1 else to;
    assert rest[place] == v[to];
    TargetPlace(rest, a, v[to], b, place);
  }

  lemma KeepInserted(next: seq<Id>, at: nat, id: Id, K: set<Id>)
    requires at <= |next|
    ensures Keep(next[..at] + [id] + next[at..], K) ==
            Keep(next[..at], K) + (if id in K then [id] else []) + Keep(next[at..], K)
  {
    hide Keep;
    KeepConcat(next[..at] + [id], next[at..], K);
    KeepConcat(next[..at], [id], K);
    KeepOne(id, K);
  }

  /** It leaves every list without that entry as it was, and the full order complete. */
  lemma MoveElsewhere(full: seq<Id>, id: Id, target: Id, after: bool, L: set<Id>)
    requires Distinct(full) && id in full && target in full && target != id
    requires id !in L
    ensures Keep(PutBeside(full, id, target, after), L) == Keep(full, L)
    ensures Distinct(PutBeside(full, id, target, after))
    ensures Ids(PutBeside(full, id, target, after)) == Ids(full)
  {
    hide Keep, IndexOf, Distinct, Ids;
    var next := Keep(full, Ids(full) - {id});
    RestOf(full, id, L);
    var at := AtTarget(full, id, target, after);
    InsertOne(next, at, id);
    KeepInserted(next, at, id, L);
    KeepCut(next, at, L);
  }

  lemma RestOf(full: seq<Id>, id: Id, L: set<Id>)
    requires Distinct(full) && id in full && id !in L
    ensures var next := Keep(full, Ids(full) - {id});
            && Distinct(next) && id !in next && Ids(next) + {id} == Ids(full)
            && Keep(next, L) == Keep(full, L)
  {
    hide Keep, Distinct;
    var J := Ids(full) - {id};
    KeepMembers(full, J);
    KeepDistinct(full, J);
    KeepKeep(full, J, L);
    KeepSame(full, J * L, L);
  }

  lemma KeepCut(s: seq<Id>, at: nat, K: set<Id>)
    requires at <= |s|
    ensures Keep(s[..at], K) + Keep(s[at..], K) == Keep(s, K)
  {
    assert s == s[..at] + s[at..];
    KeepConcat(s[..at], s[at..], K);
  }

  lemma InsertOne(s: seq<Id>, at: nat, id: Id)
    requires Distinct(s) && id !in s && at <= |s|
    ensures Distinct(s[..at] + [id] + s[at..])
    ensures Ids(s[..at] + [id] + s[at..]) == Ids(s) + {id}
  {
    assert s == s[..at] + s[at..];
  }

  /** On the whole list, putting an entry beside its target is the move between their places. */
  lemma MoveInFull(full: seq<Id>, from: nat, to: nat)
    requires Distinct(full) && from < |full| && to < |full| && from != to
    ensures full[from] != full[to]
    ensures PutBeside(full, full[from], full[to], from < to) == MoveTo(full, from, to)
  {
    hide Keep;
    var K := Ids(full);
    KeepAll(full, K);
    MoveSeen(full, K, from, to);
    var moved := PutBeside(full, full[from], full[to], from < to);
    MoveElsewhere(full, full[from], full[to], from < to, {});
    assert forall id :: id in moved ==> id in Ids(moved);
    KeepAll(moved, K);
  }

  lemma MoveBack(v: seq<Id>, from: nat, to: nat)
    requires from < |v| && to < |v|
    ensures MoveTo(MoveTo(v, from, to), to, from) == v
  {
    var rest := v[..from] + v[from + 1..];
    var moved := rest[..to] + [v[from]] + rest[to..];
    assert moved[..to] + moved[to + 1..] == rest;
  }

  // What is kept keeps its order.
  lemma KeepInOrder(full: seq<Id>, K: set<Id>, i: nat, j: nat)
    requires Distinct(full) && i < j < |Keep(full, K)|
    ensures IndexOf(full, Keep(full, K)[i]) < IndexOf(full, Keep(full, K)[j])
  {
    hide Keep;
    var v := Keep(full, K);
    KeepMembers(full, K);
    KeepDistinct(full, K);
    var q := IndexOf(full, v[j]);
    KeepAround(full, K, q);
    var front := Keep(full[..q], K);
    TargetPlace(v, front, v[j], Keep(full[q + 1..], K), j);
    KeepMembers(full[..q], K);
    assert v[i] == front[i];
    assert v[i] in full[..q];
  }

  // ---------------------------------------------------------------------------------------------
  // Drops
  // ---------------------------------------------------------------------------------------------

  /** `slotToIndex`: from an insertion slot, counted with the dragged entry still in the list. */
  function SlotToIndex(from: nat, slot: nat): nat {
    if slot > from then slot - 1 else slot
  }

  /** A drop at a slot puts the dragged entry between the slot's old neighbours: what was above the slot stays
      above it and what was below stays below. */
  lemma DropLandsInSlot(v: seq<Id>, from: nat, slot: nat)
    requires Distinct(v) && from < |v| && slot <= |v|
    ensures SlotToIndex(from, slot) < |v|
    ensures var others := Ids(v) - {v[from]};
            MoveTo(v, from, SlotToIndex(from, slot)) == Keep(v[..slot], others) + [v[from]] + Keep(v[slot..], others)
  {
    hide Keep;
    var others := Ids(v) - {v[from]};
    assert forall k :: 0 <= k < |v| && k != from ==> v[k] in others;
    if slot > from {
      DropBelow(v, from, slot, others);
    } else {
      DropAbove(v, from, slot, others);
    }
  }

  lemma DropBelow(v: seq<Id>, from: nat, slot: nat, others: set<Id>)
    requires from < slot <= |v| && v[from] !in others
    requires forall k :: 0 <= k < |v| && k != from ==> v[k] in others
    ensures MoveTo(v, from, slot - 1) == Keep(v[..slot], others) + [v[from]] + Keep(v[slot..], others)
  {
    hide Keep;
    var rest := v[..from] + v[from + 1..];
    KeepOthers(v[..slot], from, others);
    KeepAll(v[slot..], others);
    assert rest[..slot - 1] == v[..slot][..from] + v[..slot][from + 1..];
    assert rest[slot - 1..] == v[slot..];
  }

  lemma DropAbove(v: seq<Id>, from: nat, slot: nat, others: set<Id>)
    requires slot <= from < |v| && v[from] !in others
    requires forall k :: 0 <= k < |v| && k != from ==> v[k] in others
    ensures MoveTo(v, from, slot) == Keep(v[..slot], others) + [v[from]] + Keep(v[slot..], others)
  {
    hide Keep;
    var rest := v[..from] + v[from + 1..];
    var below := v[slot..];
    KeepAll(v[..slot], others);
    assert forall k :: 0 <= k < |below| && k != from - slot ==> below[k] == v[slot + k];
    KeepOthers(below, from - slot, others);
    assert rest[..slot] == v[..slot];
    assert rest[slot..] == below[..from - slot] + below[from - slot + 1..];
  }

  /** `insertionSlotFor`: the first entry whose middle is past the pointer. */
  method InsertionSlotFor(pointer: real, rects: seq<(real, real)>) returns (slot: nat)
    ensures slot <= |rects|
    ensures slot < |rects| ==> pointer < (rects[slot].0 + rects[slot].1) / 2.0
    ensures forall k :: 0 <= k < slot ==> pointer >= (rects[k].0 + rects[k].1) / 2.0
  {
    for index := 0 to |rects|
      invariant forall k :: 0 <= k < index ==> pointer >= (rects[k].0 + rects[k].1) / 2.0
    {
      var rect := rects[index];
      if pointer < (rect.0 + rect.1) / 2.0 {
        return index;
      }
    }
    return |rects|;
  }
}
