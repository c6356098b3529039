/**
 What a Foothold update leaves of the other lines.
*/
module FootholdLayout {
  import opened Options
  import opened Foothold
  import opened FootholdMeaning

  // A line that no update is for: a table's start or end, a comment or another line that assigns nothing, or the
  // value of a path without an update. Lines that Lua cannot read count only if asked for.
  predicate Stays(path: Path, line: Line, updates: seq<Update>, broken: bool) {
    match line
    case Assignment(key, _, _) => forall u <- updates :: u.0 != Join(path + [key])
    case Blank => false
    case Broken(_) => broken
    case _ => true
  }

  function Untouched(path: Path, lines: seq<Line>, updates: seq<Update>, broken: bool): seq<Line>
    decreases |lines|
  {
    if lines == [] then []
    else
      (if Stays(path, lines[0], updates, broken) then [lines[0]] else [])
      + Untouched(Moved(path, lines[0]), lines[1..], updates, broken)
  }

  lemma {:induction false} UntouchedAppend(path: Path, a: seq<Line>, b: seq<Line>, updates: seq<Update>, broken: bool)
    ensures Untouched(path, a + b, updates, broken) ==
            Untouched(path, a, updates, broken) + Untouched(MovedAll(path, a), b, updates, broken)
    decreases |a|
  {
    hide Stays;
    if a == [] {
      assert a + b == b;
    } else {
      assert (a + b)[1..] == a[1..] + b;
      UntouchedAppend(Moved(path, a[0]), a[1..], b, updates, broken);
    }
  }

  // No new entry counts as untouched.
  lemma {:induction false} EntriesTouched(path: Path, pending: seq<Update>, updates: seq<Update>, broken: bool)
    requires path != [] && forall u <- pending :: u in updates
    requires broken ==> forall u <- updates :: Recognized(LastPart(u.0))
    ensures Untouched(path, NewEntries(path, pending), updates, broken) == []
    ensures MovedAll(path, NewEntries(path, pending)) == path
    decreases |pending|
  {
    hide Untouched, NewEntry, Recognized, LastPart, MovedAll;
    if pending == [] {
      NoLines(path, updates, broken);
    } else {
      var u, first, rest := pending[0], NewEntry(path, pending[0]), NewEntries(path, pending[1..]);
      EntriesTouched(path, pending[1..], updates, broken);
      UntouchedAppend(path, first, rest, updates, broken);
      MovedAppend(path, first, rest);
      EntryTouched(path, u, updates, broken);
    }
  }

  lemma NoLines(path: Path, updates: seq<Update>, broken: bool)
    ensures Untouched(path, [], updates, broken) == [] && MovedAll(path, []) == path
  {
  }

  lemma EntryTouched(path: Path, u: Update, updates: seq<Update>, broken: bool)
    requires path != [] && u in updates && (broken ==> Recognized(LastPart(u.0)))
    ensures Untouched(path, NewEntry(path, u), updates, broken) == [] && MovedAll(path, NewEntry(path, u)) == path
  {
    hide Join, LocalKey, LastPart, Recognized, Untouched, MovedAll;
    NoLines(path, updates, broken);
    if LocalKey(path, u.0).Some? {
      JoinChild(path, u.0);
      LocalIsLast(path, u.0);
      OneLine(path, Entry(LocalKey(path, u.0).value, u.1), updates, broken);
    }
  }

  lemma OneLine(path: Path, line: Line, updates: seq<Update>, broken: bool)
    ensures Untouched(path, [line], updates, broken) == if Stays(path, line, updates, broken) then [line] else []
    ensures MovedAll(path, [line]) == Moved(path, line)
  {
    hide Stays;
    assert [line][1..] == [];
  }

  lemma GroupTouched(st: State, line: Line, updates: seq<Update>, broken: bool)
    requires forall u <- st.pending :: u in updates
    requires broken ==> forall u <- updates :: Recognized(LastPart(u.0))
    ensures Untouched(st.path, Rewritten(st, line), updates, broken) == Untouched(st.path, [line], updates, broken)
    ensures MovedAll(st.path, Rewritten(st, line)) == Moved(st.path, line)
  {
    hide Join, NewEntries, LastPart, Recognized, Lookup;
    OneLine(st.path, line, updates, broken);
    match line {
      case TableEnd =>
        if st.path == [] {
          assert [] + [line] == [line];
        } else {
          EntriesTouched(st.path, st.pending, updates, broken);
          UntouchedAppend(st.path, NewEntries(st.path, st.pending), [line], updates, broken);
          MovedAppend(st.path, NewEntries(st.path, st.pending), [line]);
        }
      case Assignment(key, bare, _) =>
        OneLine(st.path, Blank, updates, broken);
        match Lookup(st.pending, Join(st.path + [key])) {
          case Some(v) =>
            LookupIn(st.pending, Join(st.path + [key]));
            OneLine(st.path, Assignment(key, bare, v), updates, broken);
          case None =>
        }
      case _ =>
    }
  }

  lemma {:induction false} MovedAppend(path: Path, a: seq<Line>, b: seq<Line>)
    ensures MovedAll(path, a + b) == MovedAll(MovedAll(path, a), b)
    decreases |a|
  {
    if a == [] {
      assert a + b == b;
    } else {
      assert (a + b)[1..] == a[1..] + b;
      MovedAppend(Moved(path, a[0]), a[1..], b);
    }
  }

  lemma {:induction false} AllTouched(st: State, lines: seq<Line>, updates: seq<Update>, broken: bool)
    requires forall u <- st.pending :: u in updates
    requires broken ==> forall u <- updates :: Recognized(LastPart(u.0))
    ensures Untouched(st.path, Flatten(RewriteAll(st, lines)), updates, broken) ==
            Untouched(st.path, lines, updates, broken)
    decreases |lines|
  {
    hide Stays, Rewritten, LastPart, Recognized, Flatten, RewriteAll, Join;
    if lines == [] {
      Nothing(st, updates, broken);
    } else {
      var line, next := lines[0], Next(st, lines[0]);
      NextPath(st, line);
      NextPending(st, line);
      AllTouched(next, lines[1..], updates, broken);
      RewriteFirst(st, lines);
      GroupTouched(st, line, updates, broken);
      UntouchedAppend(st.path, Rewritten(st, line), Flatten(RewriteAll(next, lines[1..])), updates, broken);
      OneLine(st.path, line, updates, broken);
    }
  }

  lemma Nothing(st: State, updates: seq<Update>, broken: bool)
    ensures Untouched(st.path, Flatten(RewriteAll(st, [])), updates, broken) == []
  {
  }

  lemma {:induction false} UntouchedByBlanks(path: Path, lines: seq<Line>, updates: seq<Update>, broken: bool)
    ensures Untouched(path, DropBlanks(lines), updates, broken) == Untouched(path, lines, updates, broken)
    decreases |lines|
  {
    if lines != [] {
      hide Join;
      UntouchedByBlanks(Moved(path, lines[0]), lines[1..], updates, broken);
      if lines[0] == Blank {
        assert DropBlanks(lines) == DropBlanks(lines[1..]);
      } else {
        assert DropBlanks(lines)[1..] == DropBlanks(lines[1..]);
      }
    }
  }

  /** Whatever is updated, the lines without an update are in the saved file as they were and in their order. */
  lemma UntouchedStays(lines: seq<Line>, updates: seq<Update>, broken: bool)
    requires broken ==> forall u <- updates :: Recognized(LastPart(u.0))
    ensures Untouched([], UpdatedConfig(lines, updates), updates, broken) == Untouched([], lines, updates, broken)
  {
    hide Untouched, Flatten, RewriteAll, DropBlanks, Recognized, LastPart;
    AllTouched(State([], updates), lines, updates, broken);
    UntouchedByBlanks([], Flatten(RewriteAll(State([], updates), lines)), updates, broken);
  }

  function Blanks(lines: seq<Line>): nat {
    if lines == [] then 0 else (if lines[0] == Blank then 1 else 0) + Blanks(lines[1..])
  }

  // The values that are deleted: each first assignment of a path whose update asks for it.
  function Deleted(st: State, lines: seq<Line>): nat
    decreases |lines|
  {
    if lines == [] then 0
    else
      (if lines[0].Assignment? && Lookup(st.pending, Join(st.path + [lines[0].key])) == Some("__DELETE__") then 1
       else 0)
      + Deleted(Next(st, lines[0]), lines[1..])
  }

  lemma {:induction false} BlanksAppend(a: seq<Line>, b: seq<Line>)
    ensures Blanks(a + b) == Blanks(a) + Blanks(b)
  {
    if a == [] {
      assert a + b == b;
    } else {
      assert (a + b)[1..] == a[1..] + b;
      BlanksAppend(a[1..], b);
    }
  }

  lemma {:induction false} EntriesNotBlank(path: Path, pending: seq<Update>)
    ensures Blanks(NewEntries(path, pending)) == 0
  {
    if pending != [] {
      hide LocalKey;
      EntriesNotBlank(path, pending[1..]);
      BlanksAppend(NewEntry(path, pending[0]), NewEntries(path, pending[1..]));
    }
  }

  lemma {:induction false} RewrittenBlanks(st: State, lines: seq<Line>)
    ensures Blanks(Flatten(RewriteAll(st, lines))) == Blanks(lines) + Deleted(st, lines)
    decreases |lines|
  {
    hide Join, Flatten, RewriteAll, Lookup, NewEntries;
    if lines == [] {
      assert Flatten(RewriteAll(st, [])) == [] by {
        NothingWritten(st);
      }
    } else {
      RewrittenBlanks(Next(st, lines[0]), lines[1..]);
      RewriteFirst(st, lines);
      BlanksAppend(Rewritten(st, lines[0]), Flatten(RewriteAll(Next(st, lines[0]), lines[1..])));
      if lines[0] == TableEnd {
        EntriesNotBlank(st.path, st.pending);
        BlanksAppend(NewEntries(st.path, st.pending), [TableEnd]);
        assert [] + [TableEnd] == [TableEnd];
      }
    }
  }

  lemma NothingWritten(st: State)
    ensures Flatten(RewriteAll(st, [])) == []
  {
  }

  lemma {:induction false} NoBlanksLeft(lines: seq<Line>)
    ensures Blanks(DropBlanks(lines)) == 0
  {
    if lines != [] {
      NoBlanksLeft(lines[1..]);
      BlanksAppend(if lines[0] == Blank then [] else [lines[0]], DropBlanks(lines[1..]));
    }
  }

  /** A deleted value leaves an empty line in a file that has one already, and no line in any other file. */
  lemma BlankLines(lines: seq<Line>, updates: seq<Update>)
    ensures Blanks(UpdatedConfig(lines, updates)) ==
            if Blank in lines then Blanks(lines) + Deleted(State([], updates), lines) else 0
  {
    hide Blanks, Flatten, RewriteAll, DropBlanks, Deleted;
    var all := Flatten(RewriteAll(State([], updates), lines));
    RewrittenBlanks(State([], updates), lines);
    NoBlanksLeft(all);
  }
}
