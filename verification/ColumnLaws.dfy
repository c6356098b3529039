/**
 What the operations on a table's columns do to its two lists, and in which order its rows stand.
*/
module ColumnLaws {
  import opened ColumnPrefs
  import opened DisplayOrder
  import opened Options
  import opened Sequences

  // ---------------------------------------------------------------------------------------------
  // Columns
  // ---------------------------------------------------------------------------------------------

  /** A dragged column stands at its new place, and the other columns on screen keep their order. */
  lemma DragIs(prefs: Prefs, from: nat, to: nat, table: Table)
    requires from < |Visible(prefs, table)| && to < |Visible(prefs, table)|
    ensures var v, w := Visible(prefs, table), Visible(Apply(prefs, Drag(from, to), table), table);
            |w| == |v| && w[to] == v[from] && w[..to] + w[to + 1..] == v[..from] + v[from + 1..]
  {
    hide Visible, MoveVisibleIndex;
    MoveLaw(prefs, from, to, table);
    var v := Visible(prefs, table);
    var rest := v[..from] + v[from + 1..];
    var w := MoveTo(v, from, to);
    assert w[..to] == rest[..to] && w[to + 1..] == rest[to..];
  }

  /** A step to the left (-1) or to the right (1) exchanges the column with that neighbour on screen; at the
      end of the table, or of a column that is not on screen, it does nothing. */
  lemma StepAside(prefs: Prefs, k: nat, direction: int, table: Table)
    requires k < |Visible(prefs, table)| && (direction == -1 || direction == 1)
    ensures var v, moved := Visible(prefs, table), Apply(prefs, MoveBy(Visible(prefs, table)[k], direction), table);
            && Hidden(moved, table) == Hidden(prefs, table) && moved.hidden == prefs.hidden && moved.sort == prefs.sort
            && if 0 <= k + direction < |v| then Visible(moved, table) == v[k := v[k + direction]][k + direction := v[k]]
               else moved == prefs
  {
    hide Visible, Hidden, MoveVisibleIndex, IndexOf, MoveTo, FullOrder, Keep, ResolveColumns, Distinct;
    var v := Visible(prefs, table);
    OnceVisible(prefs, k, table);
    var to := k + direction;
    assert MoveVisible(prefs, v[k], direction, table) == MoveVisibleIndex(prefs, k, to, table);
    if 0 <= to < |v| {
      MoveLaw(prefs, k, to, table);
      MovedAside(v, k, to);
    } else {
      OffTheEnd(prefs, k, to, table);
    }
  }

  lemma MovedAside(v: seq<Id>, k: nat, to: nat)
    requires k < |v| && to < |v| && (to == k + 1 || to == k - 1)
    ensures MoveTo(v, k, to) == v[k := v[to]][to := v[k]]
  {
  }

  lemma OffTheEnd(prefs: Prefs, from: int, to: int, table: Table)
    requires to < 0 || to >= |Visible(prefs, table)|
    ensures MoveVisibleIndex(prefs, from, to, table) == prefs
  {
  }

  lemma OnceVisible(prefs: Prefs, k: nat, table: Table)
    requires k < |Visible(prefs, table)|
    ensures Distinct(Visible(prefs, table))
    ensures IndexOf(Visible(prefs, table), Visible(prefs, table)[k]) == k
  {
    hide Keep, FullOrder, ResolveColumns;
    ResolvedIs(prefs, table);
    FullOrderLaw(prefs.order, table.columns);
    KeepDistinct(Full(prefs, table), Shown(prefs, table));
  }

  lemma StepOfUnseen(prefs: Prefs, id: Id, direction: int, table: Table)
    requires id !in Visible(prefs, table)
    ensures Apply(prefs, MoveBy(id, direction), table) == prefs
  {
    hide Visible;
  }

  /** Hiding a column takes it out of the visible list, where the others keep their order, and drops the sort if
      and only if it was by that column; the last column on screen stays. A table that shows all its columns for
      want of an unhidden one goes on showing them. */
  lemma HideIs(prefs: Prefs, k: nat, table: Table)
    requires k < |Visible(prefs, table)| && |Visible(prefs, table)| > 1
    ensures var v, id := Visible(prefs, table), Visible(prefs, table)[k];
            var after := Apply(prefs, Hide(id), table);
            && (Unhidden(prefs, table) != {} ==> Visible(after, table) == v[..k] + v[k + 1..])
            && (Unhidden(prefs, table) == {} ==> Visible(after, table) == v)
            && (forall other :: other in after.hidden <==> other in prefs.hidden || other == id)
            && (prefs.sort.Some? && prefs.sort.value.id == id ==> after.sort == None)
            && (prefs.sort.None? || prefs.sort.value.id != id ==> after.sort == prefs.sort)
  {
    hide Keep, FullOrder, ResolveColumns, Visible, HideColumn, Full, Unhidden, Shown;
    HideSets(prefs, Visible(prefs, table)[k], table);
    HideSeen(prefs, k, table);
  }

  lemma HideSets(prefs: Prefs, id: Id, table: Table)
    requires id in Visible(prefs, table) && |Visible(prefs, table)| > 1
    ensures var after := HideColumn(prefs, id, table);
            && (forall other :: other in after.hidden <==> other in prefs.hidden || other == id)
            && Unhidden(after, table) == Unhidden(prefs, table) - {id}
            && after.order == Full(prefs, table)
            && after.sort == if prefs.sort.Some? && prefs.sort.value.id == id then None else prefs.sort
  {
    hide Keep, FullOrder, ResolveColumns, Visible, Full;
    KeepMembers(prefs.hidden, Ids(prefs.hidden) - {id});
  }

  lemma HideSeen(prefs: Prefs, k: nat, table: Table)
    requires k < |Visible(prefs, table)| && |Visible(prefs, table)| > 1
    ensures var v, after := Visible(prefs, table), HideColumn(prefs, Visible(prefs, table)[k], table);
            && (Unhidden(prefs, table) != {} ==> Visible(after, table) == v[..k] + v[k + 1..])
            && (Unhidden(prefs, table) == {} ==> Visible(after, table) == v)
  {
    hide Keep, FullOrder, ResolveColumns, Visible, HideColumn, Distinct;
    var v, full, shown := Visible(prefs, table), Full(prefs, table), Shown(prefs, table);
    var id, next := v[k], if k == 0 then 1 else 0;
    var after := HideColumn(prefs, id, table);
    HideSets(prefs, id, table);
    FullOrderLaw(prefs.order, table.columns);
    FullOrderOfComplete(full, table.columns);
    ResolvedIs(prefs, table);
    ResolvedIs(after, table);
    if Unhidden(prefs, table) != {} {
      Apart(prefs, table, next, k);
      assert v[next] in shown - {id};
      Without(full, shown, k);
    }
  }

  lemma Without(full: seq<Id>, shown: set<Id>, k: nat)
    requires Distinct(full) && k < |Keep(full, shown)|
    ensures var v := Keep(full, shown);
            Keep(full, shown - {v[k]}) == v[..k] + v[k + 1..]
  {
    hide Keep;
    var v := Keep(full, shown);
    KeepKeep(full, shown, shown - {v[k]});
    assert shown * (shown - {v[k]}) == shown - {v[k]};
    KeepMembers(full, shown);
    KeepDistinct(full, shown);
    KeepOthers(v, k, shown - {v[k]});
  }

  lemma HideRefused(prefs: Prefs, id: Id, table: Table)
    requires id !in Visible(prefs, table) || |Visible(prefs, table)| == 1
    ensures Apply(prefs, Hide(id), table) == prefs
  {
    hide Visible;
  }

  /** Showing a column takes exactly that id out of the hidden ones and keeps order and sort. It appears on
      screen, beside what was there, or alone when the table showed everything for want of an unhidden one. */
  lemma ShowIs(prefs: Prefs, id: Id, table: Table)
    requires id in prefs.hidden && id in table.columns
    ensures var after := Apply(prefs, Show(id), table);
            && after.order == prefs.order && after.sort == prefs.sort
            && (forall other :: other in after.hidden <==> other in prefs.hidden && other != id)
            && Visible(after, table) == Keep(Full(prefs, table), Unhidden(prefs, table) + {id})
            && (Unhidden(prefs, table) == {} ==> Visible(after, table) == [id])
  {
    hide Keep, FullOrder, ResolveColumns;
    var full, after := Full(prefs, table), ShowColumn(prefs, id);
    KeepMembers(prefs.hidden, Ids(prefs.hidden) - {id});
    assert forall other :: other in after.hidden <==> other in prefs.hidden && other != id;
    assert id in Unhidden(after, table);
    assert Unhidden(after, table) == Unhidden(prefs, table) + {id};
    ResolvedIs(after, table);
    if Unhidden(prefs, table) == {} {
      FullOrderLaw(prefs.order, table.columns);
      assert id in Ids(full);
      KeepSingle(full, id);
      assert Unhidden(prefs, table) + {id} == {id};
    }
  }

  lemma {:induction false} KeepSingle(s: seq<Id>, id: Id)
    requires Distinct(s)
    ensures Keep(s, {id}) == if id in s then [id] else []
  {
    if s != [] {
      assert s == [s[0]] + s[1..];
      KeepSingle(s[1..], id);
    }
  }

  /** Clicks on one header: ascending, descending, and back to the order of the server, wherever the cycle is
      entered; nothing but the sort changes. */
  lemma ClicksAre(prefs: Prefs, id: Id, table: Table)
    ensures var one := Run(prefs, [Click(id)], table);
            && one.order == prefs.order && one.hidden == prefs.hidden
            && (prefs.sort == Some(Sort(id, Asc)) ==> one.sort == Some(Sort(id, Desc)))
            && (prefs.sort == Some(Sort(id, Desc)) ==> one.sort == None)
            && (prefs.sort.None? || prefs.sort.value.id != id ==> one.sort == Some(Sort(id, Asc)))
    ensures prefs.sort.None? || prefs.sort.value.id == id ==>
              Run(prefs, [Click(id), Click(id), Click(id)], table) == prefs
  {
    var one := Apply(prefs, Click(id), table);
    var two := Apply(one, Click(id), table);
    RunFirst(prefs, Click(id), [], table);
    RunFirst(prefs, Click(id), [Click(id), Click(id)], table);
    RunFirst(one, Click(id), [Click(id)], table);
    RunFirst(two, Click(id), [], table);
  }

  lemma RunFirst(prefs: Prefs, step: Step, rest: seq<Step>, table: Table)
    ensures Run(prefs, [step] + rest, table) == Run(Apply(prefs, step, table), rest, table)
    ensures Run(prefs, [], table) == prefs
  {
    hide Apply;
    assert ([step] + rest)[1..] == rest;
  }

  lemma ChoiceIs(prefs: Prefs, sort: Option<Sort>, table: Table)
    ensures Apply(prefs, Choose(sort), table) == Prefs(prefs.order, prefs.hidden, sort)
  {
  }

  // ---------------------------------------------------------------------------------------------
  // Rows
  // ---------------------------------------------------------------------------------------------

  /** The order a reader of the table expects: numbers rise, texts follow the collation, numbers come before
      texts, all of it turned around when descending; and what is missing comes last either way. */
  ghost predicate InOrder(compare: Collation, a: SortValue, b: SortValue, dir: Direction) {
    match (a, b)
    case (_, Missing) => true
    case (Missing, _) => false
    case (Number(x), Number(y)) => if dir == Asc then x <= y else y <= x
    case (Text(x), Text(y)) => if dir == Asc then compare(x, y) <= 0 else compare(y, x) <= 0
    case (Number(_), Text(_)) => dir == Asc
    case (Text(_), Number(_)) => dir == Desc
  }

  lemma CompareIs(compare: Collation, a: SortValue, b: SortValue, dir: Direction)
    requires Collates(compare)
    ensures CompareSortValues(compare, a, b, dir) <= 0 <==> InOrder(compare, a, b, dir)
  {
    if a.Text? && b.Text? {
      assert compare(a.text, b.text) < 0 <==> compare(b.text, a.text) > 0;
      assert compare(b.text, a.text) < 0 <==> compare(a.text, b.text) > 0;
    }
  }

  /** The rows of a sorted table stand in that order, each of them once, and rows that could stand either way
      round stand as they came. */
  lemma RowsInOrder<T>(compare: Collation, rows: seq<T>, key: T -> SortValue, dir: Direction)
    requires Collates(compare)
    ensures var sorted, items := SortRows(compare, rows, key, dir), SortItems(compare, ItemsOf(rows, key), dir);
            && multiset(sorted) == multiset(rows) && |items| == |sorted|
            && (forall i :: 0 <= i < |items| ==>
                 sorted[i] == items[i].row && items[i].index < |rows| && rows[items[i].index] == items[i].row)
            && (forall i, j :: 0 <= i < j < |sorted| ==> InOrder(compare, key(sorted[i]), key(sorted[j]), dir))
            && (forall i, j :: 0 <= i < j < |sorted| && InOrder(compare, key(sorted[j]), key(sorted[i]), dir) ==>
                 items[i].index < items[j].index)
  {
    hide Collates, SortItems, CompareSortValues, InOrder, ItemsOf;
    SortRowsLaw(compare, rows, key, dir);
    var items := SortItems(compare, ItemsOf(rows, key), dir);
    var sorted := SortRows(compare, rows, key, dir);
    forall i | 0 <= i < |items|
      ensures sorted[i] == items[i].row && items[i].index < |rows|
      ensures rows[items[i].index] == items[i].row && items[i].value == key(sorted[i])
    {
      assert items[i] in items;
    }
    forall i, j | 0 <= i < j < |sorted|
      ensures InOrder(compare, key(sorted[i]), key(sorted[j]), dir)
      ensures InOrder(compare, key(sorted[j]), key(sorted[i]), dir) ==> items[i].index < items[j].index
    {
      CompareIs(compare, items[i].value, items[j].value, dir);
      CompareIs(compare, items[j].value, items[i].value, dir);
      CompareIsTotal(compare, items[i].value, items[j].value, dir);
      CompareIsTotal(compare, items[j].value, items[i].value, dir);
    }
  }
}
