/**
 The column preferences of the landing tables: order, hidden columns and sort, and the sort itself.
*/
module ColumnPrefs {
  import opened DisplayOrder
  import opened Options
  import opened Sequences

  datatype Direction = Asc | Desc

  datatype Sort = Sort(id: Id, dir: Direction)

  datatype Prefs = Prefs(order: seq<Id>, hidden: seq<Id>, sort: Option<Sort>)

  datatype Table = Table(columns: seq<Id>, defaultHidden: seq<Id>)

  function DefaultPrefs(table: Table): Prefs {
    Prefs(table.columns, table.defaultHidden, None)
  }

  function Full(prefs: Prefs, table: Table): seq<Id> {
    FullOrder(prefs.order, table.columns)
  }

  // The columns to show: those not hidden, or all of them when that would leave none.
  function Unhidden(prefs: Prefs, table: Table): set<Id> {
    Ids(table.columns) - Ids(prefs.hidden)
  }

  function Shown(prefs: Prefs, table: Table): set<Id> {
    if Unhidden(prefs, table) == {} then Ids(table.columns) else Unhidden(prefs, table)
  }

  /** `resolveColumns`, with its fallback on the visible list. */
  function ResolveColumns(prefs: Prefs, table: Table): (seq<Id>, seq<Id>) {
    var order := Full(prefs, table);
    var visible := Keep(order, Ids(order) - Ids(prefs.hidden));
    if |visible| == 0 then (order, []) else (visible, Keep(order, Ids(prefs.hidden)))
  }

  function Visible(prefs: Prefs, table: Table): seq<Id> {
    ResolveColumns(prefs, table).0
  }

  function Hidden(prefs: Prefs, table: Table): seq<Id> {
    ResolveColumns(prefs, table).1
  }

  /** Both lists are the full order seen through a set that does not depend on the order. */
  lemma ResolvedIs(prefs: Prefs, table: Table)
    ensures Visible(prefs, table) == Keep(Full(prefs, table), Shown(prefs, table))
    ensures Hidden(prefs, table) == Keep(Full(prefs, table), Ids(table.columns) - Shown(prefs, table))
  {
    hide Keep, FullOrder;
    var full, hidden, columns := Full(prefs, table), Ids(prefs.hidden), Ids(table.columns);
    FullOrderLaw(prefs.order, table.columns);
    var visible := Keep(full, Ids(full) - hidden);
    KeepMembers(full, Ids(full) - hidden);
    if |visible| == 0 {
      forall id
        ensures id in Unhidden(prefs, table) ==> id in visible
      {
        assert id in Ids(full) <==> id in full;
      }
      KeepAll(full, columns);
      KeepNothing(full, columns - Shown(prefs, table));
    } else {
      assert visible[0] in visible;
      assert visible[0] in Unhidden(prefs, table);
      KeepSame(full, hidden, columns - Shown(prefs, table));
    }
  }

  lemma {:induction false} KeepNothing(s: seq<Id>, K: set<Id>)
    requires K == {}
    ensures Keep(s, K) == []
  {
    if s != [] {
      KeepNothing(s[1..], K);
    }
  }

  /** Whatever was stored, each column of the table is in exactly one of the lists, once, and a table that has
      columns shows one. */
  lemma NothingIsLost(prefs: Prefs, table: Table)
    requires Distinct(table.columns)
    ensures multiset(Visible(prefs, table) + Hidden(prefs, table)) == multiset(table.columns)
    ensures table.columns != [] ==> Visible(prefs, table) != []
  {
    hide Keep, FullOrder, ResolveColumns;
    var full := Full(prefs, table);
    FullOrderLaw(prefs.order, table.columns);
    ResolvedIs(prefs, table);
    KeepSplits(full, Shown(prefs, table), Ids(table.columns) - Shown(prefs, table));
    SameDistinct(full, table.columns);
    if table.columns != [] {
      assert table.columns[0] in Ids(table.columns);
      var id :| id in Shown(prefs, table);
      assert id in Ids(full);
      KeepMembers(full, Shown(prefs, table));
    }
  }

  // ---------------------------------------------------------------------------------------------
  // Operations
  // ---------------------------------------------------------------------------------------------

  lemma Apart(prefs: Prefs, table: Table, i: nat, j: nat)
    requires i < |Visible(prefs, table)| && j < |Visible(prefs, table)| && i != j
    ensures Distinct(Full(prefs, table))
    ensures var v := Visible(prefs, table);
            v[i] != v[j] && v[i] in Full(prefs, table) && v[j] in Full(prefs, table) && v[i] in Shown(prefs, table)
  {
    hide Keep, FullOrder, ResolveColumns;
    ResolvedIs(prefs, table);
    FullOrderLaw(prefs.order, table.columns);
    KeepDistinct(Full(prefs, table), Shown(prefs, table));
    KeepMembers(Full(prefs, table), Shown(prefs, table));
  }

  function MoveVisibleIndex(prefs: Prefs, from: int, to: int, table: Table): Prefs {
    var visible := Visible(prefs, table);
    if from == to || from < 0 || to < 0 || from >= |visible| || to >= |visible| then prefs
    else
      Apart(prefs, table, from, to);
      prefs.(order := PutBeside(Full(prefs, table), visible[from], visible[to], from < to))
  }

  function MoveVisible(prefs: Prefs, id: Id, direction: int, table: Table): Prefs {
    var from := IndexOf(Visible(prefs, table), id);
    if from < 0 then prefs else MoveVisibleIndex(prefs, from, from + direction, table)
  }

  // One step in the full order, hidden columns included.
  function MoveInOrder(prefs: Prefs, id: Id, direction: int, table: Table): Prefs {
    var order := Full(prefs, table);
    var from := IndexOf(order, id);
    var to := from + direction;
    if from < 0 || to < 0 || to >= |order| then prefs
    else prefs.(order := order[from := order[to]][to := order[from]])
  }

  function HideColumn(prefs: Prefs, id: Id, table: Table): Prefs {
    if id !in Visible(prefs, table) || |Visible(prefs, table)| <= 1 then prefs
    else Prefs(Full(prefs, table), Keep(prefs.hidden, Ids(prefs.hidden) - {id}) + [id],
               if prefs.sort.Some? && prefs.sort.value.id == id then None else prefs.sort)
  }

  function ShowColumn(prefs: Prefs, id: Id): Prefs {
    if id !in prefs.hidden then prefs
    else prefs.(hidden := Keep(prefs.hidden, Ids(prefs.hidden) - {id}))
  }

  function SetSort(prefs: Prefs, sort: Option<Sort>): Prefs {
    if prefs.sort == sort then prefs else prefs.(sort := sort)
  }

  // A header click: ascending, then descending, then the order of the server.
  function CycleSort(prefs: Prefs, id: Id): Prefs {
    if prefs.sort.None? || prefs.sort.value.id != id then SetSort(prefs, Some(Sort(id, Asc)))
    else if prefs.sort.value.dir == Asc then SetSort(prefs, Some(Sort(id, Desc)))
    else SetSort(prefs, None)
  }

  // An order that is the full order rearranged is taken as it is.
  lemma Rearranged(prefs: Prefs, table: Table, order: seq<Id>)
    requires Distinct(order) && Ids(order) == Ids(Full(prefs, table))
    ensures Full(prefs.(order := order), table) == order
    ensures Shown(prefs.(order := order), table) == Shown(prefs, table)
  {
    hide FullOrder;
    FullOrderLaw(prefs.order, table.columns);
    FullOrderOfComplete(order, table.columns);
  }

  /** A drag of a header: the visible list is the old one with the column moved from its place to the other, and
      the hidden list is untouched, also when the table shows everything for want of an unhidden column. */
  lemma MoveLaw(prefs: Prefs, from: nat, to: nat, table: Table)
    requires from < |Visible(prefs, table)| && to < |Visible(prefs, table)|
    ensures var moved := MoveVisibleIndex(prefs, from, to, table);
            && Visible(moved, table) == MoveTo(Visible(prefs, table), from, to)
            && Hidden(moved, table) == Hidden(prefs, table)
            && moved.hidden == prefs.hidden && moved.sort == prefs.sort
  {
    hide Keep, FullOrder, PutBeside, ResolveColumns;
    var visible, full, shown := Visible(prefs, table), Full(prefs, table), Shown(prefs, table);
    if from == to {
      assert MoveTo(visible, from, to) == visible;
    } else {
      var moved := MoveVisibleIndex(prefs, from, to, table);
      Apart(prefs, table, from, to);
      ResolvedIs(prefs, table);
      MoveElsewhere(full, visible[from], visible[to], from < to, Ids(table.columns) - shown);
      Rearranged(prefs, table, moved.order);
      ResolvedIs(moved, table);
      MoveSeen(full, shown, from, to);
    }
  }

  /** A step in the column menu swaps two neighbours of the full order. */
  lemma SwapLaw(prefs: Prefs, id: Id, direction: int, table: Table)
    requires direction == -1 || direction == 1
    ensures var full, moved := Full(prefs, table), MoveInOrder(prefs, id, direction, table);
            var from := IndexOf(full, id);
            && Shown(moved, table) == Shown(prefs, table) && moved.sort == prefs.sort
            && Full(moved, table) ==
               if from < 0 || from + direction < 0 || from + direction >= |full| then full
               else full[from := full[from + direction]][from + direction := id]
  {
    hide Full, Shown, Distinct, Ids, IndexOf;
    var full := Full(prefs, table);
    var from := IndexOf(full, id);
    var to := from + direction;
    if !(from < 0 || to < 0 || to >= |full|) {
      FullIsDistinct(prefs, table);
      Swapped(full, from, to);
      Rearranged(prefs, table, full[from := full[to]][to := full[from]]);
    }
  }

  lemma FullIsDistinct(prefs: Prefs, table: Table)
    ensures Distinct(Full(prefs, table))
  {
    FullOrderLaw(prefs.order, table.columns);
  }

  lemma Swapped(s: seq<Id>, i: nat, j: nat)
    requires Distinct(s) && i < |s| && j < |s| && i != j
    ensures Distinct(s[i := s[j]][j := s[i]])
    ensures Ids(s[i := s[j]][j := s[i]]) == Ids(s)
  {
    var t := s[i := s[j]][j := s[i]];
    forall id
      ensures id in s <==> id in t
    {
      if id in s {
        var k :| 0 <= k < |s| && s[k] == id;
        assert t[if k == i then j else if k == j then i else k] == id;
      }
      if id in t {
        var k :| 0 <= k < |t| && t[k] == id;
        assert s[if k == i then j else if k == j then i else k] == id;
      }
    }
  }

  // ---------------------------------------------------------------------------------------------
  // Runs
  // ---------------------------------------------------------------------------------------------

  datatype Step = Drag(from: int, to: int)
                | MoveBy(id: Id, direction: int)
                | MoveInMenu(id: Id, direction: int)
                | Hide(id: Id)
                | Show(id: Id)
                | Click(id: Id)
                | Choose(sort: Option<Sort>)

  function Apply(prefs: Prefs, step: Step, table: Table): Prefs {
    match step
    case Drag(from, to) => MoveVisibleIndex(prefs, from, to, table)
    case MoveBy(id, direction) => MoveVisible(prefs, id, direction, table)
    case MoveInMenu(id, direction) => MoveInOrder(prefs, id, direction, table)
    case Hide(id) => HideColumn(prefs, id, table)
    case Show(id) => ShowColumn(prefs, id)
    case Click(id) => CycleSort(prefs, id)
    case Choose(sort) => SetSort(prefs, sort)
  }

  // The menu steps by one, and only a visible column has a header to click and a menu to sort by.
  predicate Enabled(prefs: Prefs, step: Step, table: Table) {
    && (step.MoveInMenu? ==> step.direction == -1 || step.direction == 1)
    && (step.Click? ==> step.id in Visible(prefs, table))
    && (step.Choose? && step.sort.Some? ==> step.sort.value.id in Visible(prefs, table))
  }

  // Some column is not hidden, so what is shown is exactly what is not hidden; and the table is sorted, if
  // at all, by a visible column.
  ghost predicate Sound(prefs: Prefs, table: Table) {
    && Unhidden(prefs, table) != {}
    && (prefs.sort.Some? ==> prefs.sort.value.id in Unhidden(prefs, table))
  }

  ghost predicate Possible(prefs: Prefs, steps: seq<Step>, table: Table)
    decreases |steps|
  {
    steps == [] || (Enabled(prefs, steps[0], table) && Possible(Apply(prefs, steps[0], table), steps[1..], table))
  }

  function Run(prefs: Prefs, steps: seq<Step>, table: Table): Prefs
    decreases |steps|
  {
    if steps == [] then prefs else Run(Apply(prefs, steps[0], table), steps[1..], table)
  }

  lemma VisibleIsUnhidden(prefs: Prefs, table: Table)
    requires Unhidden(prefs, table) != {}
    ensures Ids(Visible(prefs, table)) == Unhidden(prefs, table)
  {
    hide Keep, FullOrder, ResolveColumns;
    ResolvedIs(prefs, table);
    FullOrderLaw(prefs.order, table.columns);
    KeepMembers(Full(prefs, table), Shown(prefs, table));
    forall id
      ensures id in Visible(prefs, table) <==> id in Unhidden(prefs, table)
    {
      assert id in Full(prefs, table) <==> id in Ids(Full(prefs, table));
    }
  }

  lemma StepIsSound(prefs: Prefs, step: Step, table: Table)
    requires Sound(prefs, table) && Enabled(prefs, step, table)
    ensures Sound(Apply(prefs, step, table), table)
  {
    hide Keep, FullOrder, PutBeside, ResolveColumns;
    VisibleIsUnhidden(prefs, table);
    match step {
      case Hide(id) =>
        KeepMembers(prefs.hidden, Ids(prefs.hidden) - {id});
        HideLeavesOne(prefs, id, table);
      case Show(id) =>
        KeepMembers(prefs.hidden, Ids(prefs.hidden) - {id});
        var u :| u in Unhidden(prefs, table);
        assert Unhidden(prefs, table) <= Unhidden(ShowColumn(prefs, id), table);
      case _ =>
    }
  }

  lemma HideLeavesOne(prefs: Prefs, id: Id, table: Table)
    requires Sound(prefs, table)
    ensures Unhidden(HideColumn(prefs, id, table), table) ==
            if id in Visible(prefs, table) && |Visible(prefs, table)| > 1 then Unhidden(prefs, table) - {id}
            else Unhidden(prefs, table)
    ensures Unhidden(HideColumn(prefs, id, table), table) != {}
  {
    hide Keep, FullOrder, ResolveColumns;
    VisibleIsUnhidden(prefs, table);
    var v := Visible(prefs, table);
    if id in v && |v| > 1 {
      KeepMembers(prefs.hidden, Ids(prefs.hidden) - {id});
      assert Ids(HideColumn(prefs, id, table).hidden) == Ids(prefs.hidden) + {id};
      Apart(prefs, table, 0, 1);
      var other := if v[0] == id then v[1] else v[0];
      assert other in Ids(v) && other != id;
      assert other in Unhidden(HideColumn(prefs, id, table), table);
    }
  }

  /** After any run from the defaults of a table that does not hide all its columns: every column is in exactly
      one list, at least one is not hidden, so that the fallback never applies, and the sort column, if there is
      one, is on screen. */
  lemma RunIsSound(table: Table, steps: seq<Step>)
    requires Distinct(table.columns) && Unhidden(DefaultPrefs(table), table) != {}
    requires Possible(DefaultPrefs(table), steps, table)
    ensures var prefs := Run(DefaultPrefs(table), steps, table);
            && multiset(Visible(prefs, table) + Hidden(prefs, table)) == multiset(table.columns)
            && Visible(prefs, table) != []
            && Visible(prefs, table) == Keep(Full(prefs, table), Unhidden(prefs, table))
            && (prefs.sort.Some? ==> prefs.sort.value.id in Visible(prefs, table))
  {
    hide Keep, FullOrder, ResolveColumns, Apply;
    RunKeepsSound(DefaultPrefs(table), steps, table);
    var prefs := Run(DefaultPrefs(table), steps, table);
    NothingIsLost(prefs, table);
    ResolvedIs(prefs, table);
    VisibleIsUnhidden(prefs, table);
    var u :| u in Unhidden(prefs, table);
    assert table.columns != [];
    if prefs.sort.Some? {
      assert prefs.sort.value.id in Ids(Visible(prefs, table));
    }
  }

  lemma {:induction false} RunKeepsSound(prefs: Prefs, steps: seq<Step>, table: Table)
    requires Sound(prefs, table) && Possible(prefs, steps, table)
    ensures Sound(Run(prefs, steps, table), table)
    decreases |steps|
  {
    if steps != [] {
      hide Apply, Sound, Enabled;
      StepIsSound(prefs, steps[0], table);
      RunKeepsSound(Apply(prefs, steps[0], table), steps[1..], table);
    }
  }

  // ---------------------------------------------------------------------------------------------
  // Sorting
  // ---------------------------------------------------------------------------------------------

  datatype SortValue = Number(number: real) | Text(text: string) | Missing

  // The sign of a comparison.
  type Collation = (string, string) -> int

  function Sign(x: real): int {
    if x < 0.0 then -1 else if x > 0.0 then 1 else 0
  }

  // The comparison of texts is a total preorder.
  ghost predicate Collates(compare: Collation) {
    && (forall a, b :: compare(a, b) < 0 <==> compare(b, a) > 0)
    && (forall a, b, c :: compare(a, b) <= 0 && compare(b, c) <= 0 ==> compare(a, c) <= 0)
  }

  function CompareValues(compare: Collation, a: SortValue, b: SortValue): int
    requires !a.Missing? && !b.Missing?
  {
    if a.Number? && b.Number? then Sign(a.number - b.number)
    else if a.Number? then -1
    else if b.Number? then 1
    else compare(a.text, b.text)
  }

  function CompareSortValues(compare: Collation, a: SortValue, b: SortValue, dir: Direction): int {
    if a.Missing? || b.Missing? then
      if a == b then 0 else if a.Missing? then 1 else -1
    else
      var result := CompareValues(compare, a, b);
      if dir == Asc then result else -result
  }

  datatype Item<T> = Item(row: T, index: nat, value: SortValue)

  // The comparator handed to the sort: by value, then by incoming index.
  predicate Precedes<T>(compare: Collation, a: Item<T>, b: Item<T>, dir: Direction) {
    var c := CompareSortValues(compare, a.value, b.value, dir);
    c < 0 || (c == 0 && a.index < b.index)
  }

  lemma CompareIsTotal(compare: Collation, a: SortValue, b: SortValue, dir: Direction)
    requires Collates(compare)
    ensures CompareSortValues(compare, a, b, dir) < 0 <==> CompareSortValues(compare, b, a, dir) > 0
  {
    if a.Text? && b.Text? {
      assert compare(a.text, b.text) < 0 <==> compare(b.text, a.text) > 0;
      assert compare(b.text, a.text) < 0 <==> compare(a.text, b.text) > 0;
    }
  }

  lemma CompareIsTransitive(compare: Collation, a: SortValue, b: SortValue, c: SortValue, dir: Direction)
    requires Collates(compare)
    requires CompareSortValues(compare, a, b, dir) <= 0 && CompareSortValues(compare, b, c, dir) <= 0
    ensures CompareSortValues(compare, a, c, dir) <= 0
    ensures CompareSortValues(compare, a, c, dir) == 0 ==>
              CompareSortValues(compare, a, b, dir) == 0 && CompareSortValues(compare, b, c, dir) == 0
  {
  }

  // ---------------------------------------------------------------------------------------------
  // Sorted rows
  // ---------------------------------------------------------------------------------------------

  // The rows with their incoming positions and sort keys.
  function ItemsOf<T>(rows: seq<T>, key: T -> SortValue): seq<Item<T>> {
    seq(|rows|, i requires 0 <= i < |rows| => Item(rows[i], i, key(rows[i])))
  }

  function Rows<T>(items: seq<Item<T>>): seq<T> {
    seq(|items|, i requires 0 <= i < |items| => items[i].row)
  }

  ghost predicate Ordered<T>(compare: Collation, items: seq<Item<T>>, dir: Direction) {
    forall i, j :: 0 <= i < j < |items| ==> Precedes(compare, items[i], items[j], dir)
  }

  ghost predicate OwnIndices<T>(items: seq<Item<T>>) {
    forall i, j :: 0 <= i < j < |items| ==> items[i].index != items[j].index
  }

  function Insert<T>(compare: Collation, item: Item<T>, s: seq<Item<T>>, dir: Direction): seq<Item<T>> {
    if s == [] then [item]
    else if Precedes(compare, s[0], item, dir) then [s[0]] + Insert(compare, item, s[1..], dir)
    else [item] + s
  }

  function SortItems<T>(compare: Collation, items: seq<Item<T>>, dir: Direction): seq<Item<T>> {
    if items == [] then []
    else Insert(compare, items[|items| - 1], SortItems(compare, items[..|items| - 1], dir), dir)
  }

  function SortRows<T>(compare: Collation, rows: seq<T>, key: T -> SortValue, dir: Direction): seq<T> {
    Rows(SortItems(compare, ItemsOf(rows, key), dir))
  }

  lemma PrecedesIsTransitive<T>(compare: Collation, a: Item<T>, b: Item<T>, c: Item<T>, dir: Direction)
    requires Collates(compare) && Precedes(compare, a, b, dir) && Precedes(compare, b, c, dir)
    ensures Precedes(compare, a, c, dir)
  {
    hide CompareSortValues, Collates;
    CompareIsTransitive(compare, a.value, b.value, c.value, dir);
  }

  lemma PrecedesIsTotal<T>(compare: Collation, a: Item<T>, b: Item<T>, dir: Direction)
    requires Collates(compare) && a.index != b.index
    ensures Precedes(compare, a, b, dir) <==> !Precedes(compare, b, a, dir)
  {
    hide CompareSortValues, Collates;
    CompareIsTotal(compare, a.value, b.value, dir);
    CompareIsTotal(compare, b.value, a.value, dir);
  }

  lemma {:induction false} InsertLaw<T>(compare: Collation, item: Item<T>, s: seq<Item<T>>, dir: Direction)
    requires Collates(compare) && Ordered(compare, s, dir) && forall x :: x in s ==> x.index != item.index
    ensures var r := Insert(compare, item, s, dir);
            Ordered(compare, r, dir) && multiset(r) == multiset(s) + multiset{item} && |r| == |s| + 1
  {
    hide Precedes, Collates;
    if s != [] {
      assert s == [s[0]] + s[1..];
      if Precedes(compare, s[0], item, dir) {
        InsertLaw(compare, item, s[1..], dir);
        FrontOf(compare, s[0], item, s[1..], Insert(compare, item, s[1..], dir), dir);
      } else {
        PrecedesIsTotal(compare, item, s[0], dir);
        forall j | 0 <= j < |s|
          ensures Precedes(compare, item, s[j], dir)
        {
          if j > 0 {
            PrecedesIsTransitive(compare, item, s[0], s[j], dir);
          }
        }
      }
    }
  }

  lemma FrontOf<T>(compare: Collation, head: Item<T>, item: Item<T>, s: seq<Item<T>>, r: seq<Item<T>>, dir: Direction)
    requires Ordered(compare, r, dir) && multiset(r) == multiset(s) + multiset{item}
    requires Precedes(compare, head, item, dir) && forall k :: 0 <= k < |s| ==> Precedes(compare, head, s[k], dir)
    ensures Ordered(compare, [head] + r, dir)
  {
    hide Precedes;
    forall j | 0 <= j < |r|
      ensures Precedes(compare, head, r[j], dir)
    {
      assert r[j] in multiset(r);
      if r[j] != item {
        assert r[j] in s;
      }
    }
  }

  lemma {:induction false} SortItemsLaw<T>(compare: Collation, items: seq<Item<T>>, dir: Direction)
    requires Collates(compare) && OwnIndices(items)
    ensures Ordered(compare, SortItems(compare, items, dir), dir)
    ensures multiset(SortItems(compare, items, dir)) == multiset(items)
    ensures |SortItems(compare, items, dir)| == |items|
  {
    hide Precedes, Collates, Insert;
    if items != [] {
      var n := |items| - 1;
      var front := items[..n];
      assert items == front + [items[n]];
      SortItemsLaw(compare, front, dir);
      var sorted := SortItems(compare, front, dir);
      forall x | x in sorted
        ensures x.index != items[n].index
      {
        assert x in multiset(sorted);
        assert x in front;
      }
      InsertLaw(compare, items[n], sorted, dir);
    }
  }

  /** The comparator leaves no choice: any two rearrangements in its order are the same, so that the outcome does
      not depend on how the sort is done. */
  lemma {:induction false} SortIsDetermined<T>(compare: Collation, a: seq<Item<T>>, b: seq<Item<T>>, dir: Direction)
    requires Collates(compare) && multiset(a) == multiset(b) && OwnIndices(a)
    requires Ordered(compare, a, dir) && Ordered(compare, b, dir)
    ensures a == b
  {
    hide Precedes, Collates;
    assert |a| == |multiset(a)| == |multiset(b)| == |b|;
    if a != [] {
      HeadsAgree(compare, a, b, dir);
      TailBag(a);
      TailBag(b);
      SortIsDetermined(compare, a[1..], b[1..], dir);
    }
  }

  lemma RestBag<T>(s: seq<Item<T>>, k: nat)
    requires k < |s|
    ensures multiset(s[..k] + s[k + 1..]) == multiset(s) - multiset{s[k]}
  {
    assert s == s[..k] + ([s[k]] + s[k + 1..]);
  }

  lemma TailBag<T>(s: seq<Item<T>>)
    requires s != []
    ensures multiset(s[1..]) == multiset(s) - multiset{s[0]}
  {
    assert s == [s[0]] + s[1..];
  }

  lemma HeadsAgree<T>(compare: Collation, a: seq<Item<T>>, b: seq<Item<T>>, dir: Direction)
    requires Collates(compare) && multiset(a) == multiset(b) && OwnIndices(a) && a != [] && b != []
    requires Ordered(compare, a, dir) && Ordered(compare, b, dir)
    ensures a[0] == b[0]
  {
    hide Precedes, Collates;
    assert b[0] in multiset(b) && a[0] in multiset(a);
    assert b[0] in a && a[0] in b;
    var i :| 0 <= i < |a| && a[i] == b[0];
    var j :| 0 <= j < |b| && b[j] == a[0];
    if i > 0 && j > 0 {
      PrecedesIsTotal(compare, a[0], a[i], dir);
    }
  }

  /** What the sorted table shows: every row once; a row without a value after every row with one, in both
      directions; and rows that compare equal, without a value or with equal ones, in their incoming order. */
  lemma SortRowsLaw<T>(compare: Collation, rows: seq<T>, key: T -> SortValue, dir: Direction)
    requires Collates(compare)
    ensures multiset(SortRows(compare, rows, key, dir)) == multiset(rows)
    ensures var items := SortItems(compare, ItemsOf(rows, key), dir);
            && SortRows(compare, rows, key, dir) == Rows(items)
            && (forall item :: item in items ==>
                 item.index < |rows| && rows[item.index] == item.row && item.value == key(item.row))
            && (forall i, j :: 0 <= i < j < |items| ==>
                 && (items[i].value.Missing? ==> items[j].value.Missing?)
                 && CompareSortValues(compare, items[i].value, items[j].value, dir) <= 0
                 && (CompareSortValues(compare, items[i].value, items[j].value, dir) == 0 ==>
                      items[i].index < items[j].index))
  {
    hide Collates, SortItems;
    var incoming := ItemsOf(rows, key);
    SortItemsLaw(compare, incoming, dir);
    var items := SortItems(compare, incoming, dir);
    RowsOfSame(items, incoming);
    assert Rows(incoming) == rows;
    forall item | item in items
      ensures item.index < |rows| && rows[item.index] == item.row && item.value == key(item.row)
    {
      assert item in multiset(items);
      assert item in incoming;
    }
    forall i, j | 0 <= i < j < |items|
      ensures items[i].value.Missing? ==> items[j].value.Missing?
      ensures CompareSortValues(compare, items[i].value, items[j].value, dir) <= 0
      ensures CompareSortValues(compare, items[i].value, items[j].value, dir) == 0 ==> items[i].index < items[j].index
    {
      assert Precedes(compare, items[i], items[j], dir);
    }
  }

  lemma {:induction false} RowsOfSame<T>(a: seq<Item<T>>, b: seq<Item<T>>)
    requires multiset(a) == multiset(b)
    ensures multiset(Rows(a)) == multiset(Rows(b))
  {
    assert |a| == |multiset(a)| == |multiset(b)| == |b|;
    if a != [] {
      assert a[0] in multiset(b);
      var k :| 0 <= k < |b| && b[k] == a[0];
      var rest := b[..k] + b[k + 1..];
      TailBag(a);
      RestBag(b, k);
      RowsOfSame(a[1..], rest);
      assert Rows(a) == [a[0].row] + Rows(a[1..]);
      assert Rows(b) == Rows(b[..k]) + [b[k].row] + Rows(b[k + 1..]);
      assert Rows(rest) == Rows(b[..k]) + Rows(b[k + 1..]);
    }
  }

  /** Sorting a sorted table changes nothing. */
  lemma SortTwice<T>(compare: Collation, rows: seq<T>, key: T -> SortValue, dir: Direction)
    requires Collates(compare)
    ensures var once := SortRows(compare, rows, key, dir);
            SortRows(compare, once, key, dir) == once
  {
    hide Collates, SortItems, CompareSortValues;
    var once := SortRows(compare, rows, key, dir);
    SortRowsLaw(compare, rows, key, dir);
    var items := SortItems(compare, ItemsOf(rows, key), dir);
    var again := ItemsOf(once, key);
    SortItemsLaw(compare, again, dir);
    forall i, j | 0 <= i < j < |again|
      ensures Precedes(compare, again[i], again[j], dir)
    {
      assert items[i] in items && items[j] in items;
      assert again[i].value == items[i].value && again[j].value == items[j].value;
    }
    SortIsDetermined(compare, again, SortItems(compare, again, dir), dir);
    assert Rows(again) == once;
  }
}
