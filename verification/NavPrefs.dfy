/**
 The preferences of the navigation panel: which pages are shown, and in what order.
*/
module NavPrefs {
  import opened DisplayOrder
  import opened Sequences

  datatype NavPage = NavPage(id: Id, title: string, pinned: bool)

  datatype Prefs = Prefs(order: seq<Id>, hidden: seq<Id>)

  function PageIds(pages: seq<NavPage>): seq<Id> {
    seq(|pages|, i requires 0 <= i < |pages| => pages[i].id)
  }

  // A page that is registered and not pinned.
  predicate Hideable(id: Id, pages: seq<NavPage>) {
    exists i :: 0 <= i < |pages| && pages[i].id == id && !pages[i].pinned
  }

  function HiddenSet(prefs: Prefs, pages: seq<NavPage>): set<Id> {
    set id | id in prefs.hidden && Hideable(id, pages)
  }

  function Full(prefs: Prefs, pages: seq<NavPage>): seq<Id> {
    FullOrder(prefs.order, PageIds(pages))
  }

  // The ids of the pages shown, and of those hidden, in order.
  function Visible(prefs: Prefs, pages: seq<NavPage>): seq<Id> {
    Keep(Full(prefs, pages), Ids(PageIds(pages)) - HiddenSet(prefs, pages))
  }

  function Hidden(prefs: Prefs, pages: seq<NavPage>): seq<Id> {
    Keep(Full(prefs, pages), HiddenSet(prefs, pages))
  }

  function KeepPages(pages: seq<NavPage>, K: set<Id>): seq<NavPage> {
    if pages == [] then []
    else (if pages[0].id in K then [pages[0]] else []) + KeepPages(pages[1..], K)
  }

  lemma {:induction false} KeepPagesIds(pages: seq<NavPage>, K: set<Id>)
    ensures PageIds(KeepPages(pages, K)) == Keep(PageIds(pages), K)
    ensures forall page :: page in KeepPages(pages, K) ==> page in pages
  {
    if pages != [] {
      KeepPagesIds(pages[1..], K);
      assert PageIds(pages) == [pages[0].id] + PageIds(pages[1..]);
      KeepFirst(pages[0].id, PageIds(pages[1..]), K);
      KeepPagesStep(pages, K);
      assert pages == [pages[0]] + pages[1..];
    }
  }

  lemma KeepPagesStep(pages: seq<NavPage>, K: set<Id>)
    requires pages != []
    ensures PageIds(KeepPages(pages, K)) ==
            (if pages[0].id in K then [pages[0].id] else []) + PageIds(KeepPages(pages[1..], K))
  {
  }

  /** Resolving the preferences: each registered page once, shown or hidden, in the order that says. */
  method ResolveNav(prefs: Prefs, pages: seq<NavPage>) returns (visible: seq<NavPage>, hidden: seq<NavPage>)
    requires Distinct(PageIds(pages))
    ensures PageIds(visible) == Visible(prefs, pages) && PageIds(hidden) == Hidden(prefs, pages)
    ensures forall page :: page in visible + hidden ==> page in pages
  {
    hide FirstSeen, Keep, IndexOf;
    var ids := PageIds(pages);
    FirstSeenNone(prefs.order + ids, Ids(ids));
    ghost var all := prefs.order + ids;
    var ordered: seq<NavPage> := [];
    var placed: set<Id> := {};
    for i := 0 to |prefs.order|
      invariant PageIds(ordered) == FirstSeen(all, i, Ids(ids)) && placed == Ids(PageIds(ordered))
      invariant forall page :: page in ordered ==> page in pages
    {
      var id := prefs.order[i];
      assert all[i] == id;
      FirstSeenStep(all, i, Ids(ids));
      var at := IndexOf(ids, id);
      if at >= 0 && id !in placed {
        AddPage(ordered, pages[at]);
        ordered := ordered + [pages[at]];
        placed := placed + {id};
      }
    }
    for i := 0 to |pages|
      invariant PageIds(ordered) == FirstSeen(all, |prefs.order| + i, Ids(ids)) && placed == Ids(PageIds(ordered))
      invariant forall page :: page in ordered ==> page in pages
    {
      var page := pages[i];
      assert all[|prefs.order| + i] == ids[i] == page.id;
      FirstSeenStep(all, |prefs.order| + i, Ids(ids));
      if page.id !in placed {
        AddPage(ordered, page);
        ordered := ordered + [page];
        placed := placed + {page.id};
      }
    }
    var hiddenIds := HiddenSet(prefs, pages);
    visible := KeepPages(ordered, Ids(ids) - hiddenIds);
    hidden := KeepPages(ordered, hiddenIds);
    KeepPagesIds(ordered, Ids(ids) - hiddenIds);
    KeepPagesIds(ordered, hiddenIds);
  }

  lemma AddPage(ordered: seq<NavPage>, page: NavPage)
    ensures PageIds(ordered + [page]) == PageIds(ordered) + [page.id]
    ensures Ids(PageIds(ordered + [page])) == Ids(PageIds(ordered)) + {page.id}
  {
    assert PageIds(ordered + [page]) == PageIds(ordered) + [page.id];
  }

  /** No page is lost or shown twice, whatever was stored. */
  lemma NothingIsLost(prefs: Prefs, pages: seq<NavPage>)
    requires Distinct(PageIds(pages))
    ensures multiset(Visible(prefs, pages) + Hidden(prefs, pages)) == multiset(PageIds(pages))
  {
    hide Keep;
    var full, H := Full(prefs, pages), HiddenSet(prefs, pages);
    FullOrderLaw(prefs.order, PageIds(pages));
    KeepSame(full, H, H * Ids(PageIds(pages)));
    KeepSplits(full, Ids(PageIds(pages)) - H, H);
    SameDistinct(full, PageIds(pages));
  }

  /** A pinned page is always shown. */
  lemma PinnedIsShown(prefs: Prefs, pages: seq<NavPage>, i: nat)
    requires Distinct(PageIds(pages)) && i < |pages| && pages[i].pinned
    ensures pages[i].id in Visible(prefs, pages)
  {
    hide Keep;
    var ids, id := PageIds(pages), pages[i].id;
    FullOrderLaw(prefs.order, ids);
    assert ids[i] == id;
    forall k | 0 <= k < |pages| && k != i
      ensures pages[k].id != id
    {
      assert ids[k] != ids[i];
    }
    assert id in Ids(ids) && id in Ids(Full(prefs, pages));
    KeepMembers(Full(prefs, pages), Ids(ids) - HiddenSet(prefs, pages));
  }

  // ---------------------------------------------------------------------------------------------
  // Moves
  // ---------------------------------------------------------------------------------------------

  // Two places of the visible list hold different pages.
  lemma Apart(prefs: Prefs, pages: seq<NavPage>, i: nat, j: nat)
    requires i < |Visible(prefs, pages)| && j < |Visible(prefs, pages)| && i != j
    ensures Distinct(Full(prefs, pages))
    ensures var v := Visible(prefs, pages);
            v[i] != v[j] && v[i] in Full(prefs, pages) && v[j] in Full(prefs, pages) && v[i] !in HiddenSet(prefs, pages)
  {
    hide Keep;
    FullOrderLaw(prefs.order, PageIds(pages));
    KeepDistinct(Full(prefs, pages), Ids(PageIds(pages)) - HiddenSet(prefs, pages));
    KeepMembers(Full(prefs, pages), Ids(PageIds(pages)) - HiddenSet(prefs, pages));
  }

  /** `moveVisibleIndex`, and what the single steps below come to. */
  function MovedByIndex(prefs: Prefs, from: int, to: int, pages: seq<NavPage>): Prefs {
    var visible := Visible(prefs, pages);
    if from == to || from < 0 || to < 0 || from >= |visible| || to >= |visible| then prefs
    else
      Apart(prefs, pages, from, to);
      prefs.(order := PutBeside(Full(prefs, pages), visible[from], visible[to], from < to))
  }

  /** A drag within the panel: the visible list is exactly the old one with the page moved from its place to
      the other, and the hidden list is untouched. */
  lemma MoveLaw(prefs: Prefs, from: nat, to: nat, pages: seq<NavPage>)
    requires from < |Visible(prefs, pages)| && to < |Visible(prefs, pages)|
    ensures var moved := MovedByIndex(prefs, from, to, pages);
            && Visible(moved, pages) == MoveTo(Visible(prefs, pages), from, to)
            && Hidden(moved, pages) == Hidden(prefs, pages)
            && moved.hidden == prefs.hidden
  {
    hide Keep, FullOrder, PutBeside;
    var visible, full := Visible(prefs, pages), Full(prefs, pages);
    if from == to {
      assert MoveTo(visible, from, to) == visible;
    } else {
      Apart(prefs, pages, from, to);
      FullOrderLaw(prefs.order, PageIds(pages));
      MoveElsewhere(full, visible[from], visible[to], from < to, HiddenSet(prefs, pages));
      MoveSeen(full, Ids(PageIds(pages)) - HiddenSet(prefs, pages), from, to);
      FullOrderOfComplete(MovedByIndex(prefs, from, to, pages).order, PageIds(pages));
    }
  }

  /** A drop at any slot of the visible list, as the pointer chose it. */
  lemma DropLaw(prefs: Prefs, from: nat, slot: nat, pages: seq<NavPage>)
    requires from < |Visible(prefs, pages)| && slot <= |Visible(prefs, pages)|
    ensures var v := Visible(prefs, pages);
            var others := Ids(v) - {v[from]};
            Visible(MovedByIndex(prefs, from, SlotToIndex(from, slot), pages), pages) ==
            Keep(v[..slot], others) + [v[from]] + Keep(v[slot..], others)
  {
    hide Keep, FullOrder, PutBeside;
    var v := Visible(prefs, pages);
    FullOrderLaw(prefs.order, PageIds(pages));
    KeepDistinct(Full(prefs, pages), Ids(PageIds(pages)) - HiddenSet(prefs, pages));
    DropLandsInSlot(v, from, slot);
    MoveLaw(prefs, from, SlotToIndex(from, slot), pages);
  }

  /** The opposite drag undoes a drag. */
  lemma DragBack(prefs: Prefs, from: nat, to: nat, pages: seq<NavPage>)
    requires from < |Visible(prefs, pages)| && to < |Visible(prefs, pages)|
    ensures var there := MovedByIndex(prefs, from, to, pages);
            var back := MovedByIndex(there, to, from, pages);
            Visible(back, pages) == Visible(prefs, pages) && Hidden(back, pages) == Hidden(prefs, pages)
  {
    hide Visible, Hidden, MovedByIndex;
    MoveLaw(prefs, from, to, pages);
    MoveLaw(MovedByIndex(prefs, from, to, pages), to, from, pages);
    MoveBack(Visible(prefs, pages), from, to);
  }

  /** `moveVisible`, by splices on the full order: the same preferences as the drag to the adjacent place, for
      every page and both directions. */
  method MoveVisible(prefs: Prefs, id: Id, direction: int, pages: seq<NavPage>) returns (next: Prefs)
    requires direction == -1 || direction == 1
    requires Distinct(PageIds(pages))
    ensures id !in Visible(prefs, pages) ==> next == prefs
    ensures id in Visible(prefs, pages) ==>
              var at := IndexOf(Visible(prefs, pages), id);
              next == MovedByIndex(prefs, at, at + direction, pages)
  {
    hide Keep, FullOrder, FirstSeen, PutBeside;
    var order := MergeOrder(prefs.order, PageIds(pages));
    var visible, _ := ResolveNav(prefs, pages);
    var visibleIndex := IndexOf(PageIds(visible), id);
    if visibleIndex < 0 {
      return prefs;
    }
    var targetVisible := visibleIndex + direction;
    if targetVisible < 0 || targetVisible >= |visible| {
      return prefs;
    }
    var targetId := visible[targetVisible].id;
    Adjacent(prefs, visibleIndex, targetVisible, pages);
    var from, to := IndexOf(order, id), IndexOf(order, targetId);
    var spliced := order[..from] + order[from + 1..];
    spliced := spliced[..to] + [id] + spliced[to..];
    next := prefs.(order := spliced);
  }

  lemma Adjacent(prefs: Prefs, i: nat, j: nat, pages: seq<NavPage>)
    requires i < |Visible(prefs, pages)| && j < |Visible(prefs, pages)| && i != j
    ensures var v, full := Visible(prefs, pages), Full(prefs, pages);
            var from, to := IndexOf(full, v[i]), IndexOf(full, v[j]);
            && from >= 0 && to >= 0
            && MovedByIndex(prefs, i, j, pages) == prefs.(order := MoveTo(full, from, to))
  {
    hide Keep, FullOrder, PutBeside;
    var v, full := Visible(prefs, pages), Full(prefs, pages);
    Apart(prefs, pages, i, j);
    var K := Ids(PageIds(pages)) - HiddenSet(prefs, pages);
    if i < j {
      KeepInOrder(full, K, i, j);
    } else {
      KeepInOrder(full, K, j, i);
    }
    MoveInFull(full, IndexOf(full, v[i]), IndexOf(full, v[j]));
  }

  // ---------------------------------------------------------------------------------------------
  // Hiding and showing
  // ---------------------------------------------------------------------------------------------

  function HidePage(prefs: Prefs, id: Id, pages: seq<NavPage>): Prefs {
    if !Hideable(id, pages) || id in prefs.hidden then prefs
    else prefs.(order := Full(prefs, pages), hidden := prefs.hidden + [id])
  }

  function ShowPage(prefs: Prefs, id: Id): Prefs {
    if id !in prefs.hidden then prefs
    else prefs.(hidden := Keep(prefs.hidden, Ids(prefs.hidden) - {id}))
  }

  lemma FullOfFull(prefs: Prefs, pages: seq<NavPage>)
    ensures FullOrder(Full(prefs, pages), PageIds(pages)) == Full(prefs, pages)
  {
    FullOrderLaw(prefs.order, PageIds(pages));
    FullOrderOfComplete(Full(prefs, pages), PageIds(pages));
  }

  /** Hiding a page takes it, and nothing else, out of the visible list, and showing it puts it back; the full
      order stays. */
  lemma HideLaw(prefs: Prefs, id: Id, pages: seq<NavPage>)
    requires Hideable(id, pages) && id !in prefs.hidden
    ensures var after := HidePage(prefs, id, pages);
            && Full(after, pages) == Full(prefs, pages)
            && HiddenSet(after, pages) == HiddenSet(prefs, pages) + {id}
            && Visible(after, pages) == Keep(Visible(prefs, pages), Ids(PageIds(pages)) - {id})
  {
    hide Keep, FullOrder;
    FullOfFull(prefs, pages);
    var after := HidePage(prefs, id, pages);
    var ids := Ids(PageIds(pages));
    assert HiddenSet(after, pages) == HiddenSet(prefs, pages) + {id};
    KeepKeep(Full(prefs, pages), ids - HiddenSet(prefs, pages), ids - {id});
    assert (ids - HiddenSet(prefs, pages)) * (ids - {id}) == ids - HiddenSet(after, pages);
  }

  lemma ShowLaw(prefs: Prefs, id: Id, pages: seq<NavPage>)
    ensures var after := ShowPage(prefs, id);
            && Full(after, pages) == Full(prefs, pages)
            && HiddenSet(after, pages) == HiddenSet(prefs, pages) - {id}
  {
    hide Keep, FullOrder;
    KeepMembers(prefs.hidden, Ids(prefs.hidden) - {id});
  }

  /** Hiding a page and showing it again restores both lists exactly when the page was not hidden to begin
      with; when it was, the second step shows it. */
  lemma HideThenShow(prefs: Prefs, id: Id, pages: seq<NavPage>)
    requires Distinct(PageIds(pages))
    ensures var after := ShowPage(HidePage(prefs, id, pages), id);
            Visible(after, pages) == Visible(prefs, pages) && Hidden(after, pages) == Hidden(prefs, pages)
            <==> id !in prefs.hidden || !Hideable(id, pages)
  {
    hide Keep, FullOrder;
    var hid := HidePage(prefs, id, pages);
    var after := ShowPage(hid, id);
    var full, ids, H := Full(prefs, pages), Ids(PageIds(pages)), HiddenSet(prefs, pages);
    ShowLaw(hid, id, pages);
    if Hideable(id, pages) && id !in prefs.hidden {
      HideLaw(prefs, id, pages);
      assert HiddenSet(after, pages) == H;
    } else if !Hideable(id, pages) {
      assert HiddenSet(after, pages) == H;
    } else {
      FullOrderLaw(prefs.order, PageIds(pages));
      var i :| 0 <= i < |pages| && pages[i].id == id && !pages[i].pinned;
      assert PageIds(pages)[i] == id;
      KeepMembers(full, H);
      KeepMembers(full, HiddenSet(after, pages));
      assert id in Ids(full) && id in Hidden(prefs, pages) && id !in Hidden(after, pages);
    }
  }

  /** A page that is hidden already ends up shown. */
  lemma ShowingReveals(id: Id, title: string)
    ensures var prefs, pages := Prefs([], [id]), [NavPage(id, title, false)];
            var after := ShowPage(HidePage(prefs, id, pages), id);
            Visible(after, pages) != Visible(prefs, pages) || Hidden(after, pages) != Hidden(prefs, pages)
  {
    hide ShowPage, HidePage, Visible, Hidden;
    var pages := [NavPage(id, title, false)];
    assert pages[0].id == id && !pages[0].pinned;
    HideThenShow(Prefs([], [id]), id, pages);
  }
}
