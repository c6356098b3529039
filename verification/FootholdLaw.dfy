/**
 The law of the Foothold editor in Lua's terms, for one save and for runs of saves.
*/
module FootholdLaw {
  import opened Options
  import opened Foothold
  import opened FootholdMeaning

  // ---------------------------------------------------------------------------------------------
  // The law, in Lua's terms
  // ---------------------------------------------------------------------------------------------

  // Whether the lines close a table that has k for a direct entry.
  predicate ClosesTableOf(path: Path, lines: seq<Line>, k: string)
    decreases |lines|
  {
    lines != [] &&
    ((lines[0] == TableEnd && path != [] && LocalKey(path, k).Some?)
     || ClosesTableOf(Moved(path, lines[0]), lines[1..], k))
  }

  // The update is written as a new entry: the file does not assign its path, but has the table for it.
  predicate IsNew(lines: seq<Line>, u: Update) {
    u.1 != DELETE && Assigned([], lines, u.0) == 0 && ClosesTableOf([], lines, u.0)
  }

  // Lua can read what is written: each new entry, and each value that takes the place of another.
  predicate Fits(lines: seq<Line>, updates: seq<Update>) {
    forall u <- updates ::
      && (IsNew(lines, u) ==> EntryReads(LastPart(u.0), u.1))
      && (u.1 != DELETE && Assigned([], lines, u.0) > 0 ==> ValueReads(u.1))
  }

  // No new key holds a backslash.
  predicate KeysPlain(lines: seq<Line>, updates: seq<Update>) {
    forall u <- updates :: IsNew(lines, u) ==> '\\' !in LastPart(u.0)
  }

  // A value is written at the path of a table within a table.
  ghost predicate Overwrites(lines: seq<Line>, updates: seq<Update>, p: Path) {
    |p| > 1 && Opens([], lines, p) > 0 && Inserts(updates, Join(p))
  }

  // No value is written over a table within a table.
  ghost predicate SparesTables(lines: seq<Line>, updates: seq<Update>) {
    forall p: Path :: !Overwrites(lines, updates, p)
  }

  lemma {:induction false} OpensAreDeclared(path: Path, lines: seq<Line>, p: Path)
    ensures Opens(path, lines, p) <= Times(path, lines, p)
    decreases |lines|
  {
    if lines != [] {
      OpensAreDeclared(Moved(path, lines[0]), lines[1..], p);
    }
  }

  lemma ParentIs(path: Path, p: Path)
    requires DotFree(path) && path != [] && p != [] && DotFree(p)
    ensures LocalKey(path, Join(p)).Some? <==> path == p[..|p| - 1]
    ensures LocalKey(path, Join(p)).Some? ==> LocalKey(path, Join(p)).value == p[|p| - 1]
  {
    var parent, key := p[..|p| - 1], p[|p| - 1];
    if LocalKey(path, Join(p)).Some? {
      var x := LocalKey(path, Join(p)).value;
      JoinChild(path, Join(p));
      DotFreeAdd(path, x);
      JoinApart(path + [x], p);
      assert (path + [x])[..|path|] == path;
    }
    if path == parent {
      assert Join(p) == Join(path) + "." + key;
      assert Join(p)[|Join(path) + "."|..] == key;
    }
  }

  lemma {:induction false} ClosesItsTable(path: Path, lines: seq<Line>, p: Path)
    requires DotFree(path) && p != [] && DotFree(p) && forall line <- lines :: DotFreeLine(line)
    requires Loads(path, lines)
    ensures var parent := p[..|p| - 1];
            ClosesTableOf(path, lines, Join(p)) <==> parent != [] && (parent <= path || Opens(path, lines, parent) > 0)
    decreases |lines|
  {
    hide Join, LocalKey;
    var parent := p[..|p| - 1];
    if lines != [] {
      var line := lines[0];
      MovedDotFree(path, line);
      ClosesItsTable(Moved(path, line), lines[1..], p);
      if path != [] {
        ParentIs(path, p);
      }
      if line == TableEnd && parent != [] {
        PrefixOfPop(parent, path);
      }
      if line.TableStart? {
        PrefixOfMore(parent, path, line.key);
      }
    }
  }

  lemma {:induction false} ClosesParentIs(path: Path, lines: seq<Line>, k: string)
    ensures ClosesParent(path, lines, k) <==> ClosesTableOf(path, lines, k) && Recognized(LastPart(k))
    decreases |lines|
  {
    hide Join, LocalKey, Recognized, LastPart;
    if lines != [] {
      ClosesParentIs(Moved(path, lines[0]), lines[1..], k);
      if LocalKey(path, k).Some? {
        LocalIsLast(path, k);
      }
    }
  }

  // Once its table is closed for good, a path is not assigned any more.
  lemma {:induction false} NeverAgain(path: Path, lines: seq<Line>, p: Path)
    requires DotFree(path) && |p| > 1 && DotFree(p) && forall line <- lines :: DotFreeLine(line)
    requires !(p[..|p| - 1] <= path) && Opens(path, lines, p[..|p| - 1]) == 0
    ensures Assigned(path, lines, Join(p)) == 0
    decreases |lines|
  {
    hide Join;
    var parent := p[..|p| - 1];
    if lines != [] {
      var line := lines[0];
      MovedDotFree(path, line);
      if line == TableEnd {
        PrefixOfPop(parent, path);
      }
      if line.TableStart? {
        PrefixOfMore(parent, path, line.key);
      }
      if line.Assignment? {
        DotFreeAdd(path, line.key);
        JoinApart(path + [line.key], p);
        assert path + [line.key] == p ==> path == parent;
      }
      NeverAgain(Moved(path, line), lines[1..], p);
    }
  }

  lemma {:induction false} ReachedBefore(path: Path, lines: seq<Line>, p: Path)
    requires DotFree(path) && |p| > 1 && DotFree(p) && forall line <- lines :: DotFreeLine(line)
    requires One(p[..|p| - 1] <= path) + Opens(path, lines, p[..|p| - 1]) <= 1
    ensures Reaches(path, lines, Join(p)) <==>
            Assigned(path, lines, Join(p)) == 0 && ClosesTableOf(path, lines, Join(p))
    decreases |lines|
  {
    hide Join, LocalKey;
    var parent := p[..|p| - 1];
    if lines != [] {
      var line := lines[0];
      MovedDotFree(path, line);
      if path != [] {
        ParentIs(path, p);
      }
      if line == TableEnd {
        PrefixOfPop(parent, path);
      }
      if line.TableStart? {
        PrefixOfMore(parent, path, line.key);
      }
      if line == TableEnd && path == parent {
        NeverAgain(Moved(path, line), lines[1..], p);
      } else {
        ReachedBefore(Moved(path, line), lines[1..], p);
      }
    }
  }

  // The path whose table closes.
  lemma {:induction false} PathOfClosed(path: Path, lines: seq<Line>, k: string) returns (p: Path)
    requires DotFree(path) && (forall line <- lines :: DotFreeLine(line)) && ClosesTableOf(path, lines, k)
    ensures |p| > 1 && DotFree(p) && Join(p) == k
    decreases |lines|
  {
    hide Join;
    if lines[0] == TableEnd && path != [] && LocalKey(path, k).Some? {
      JoinChild(path, k);
      p := path + [LocalKey(path, k).value];
    } else {
      MovedDotFree(path, lines[0]);
      p := PathOfClosed(Moved(path, lines[0]), lines[1..], k);
    }
  }

  lemma {:induction false} ReachedCloses(path: Path, lines: seq<Line>, k: string)
    requires Reaches(path, lines, k)
    ensures ClosesTableOf(path, lines, k)
    decreases |lines|
  {
    if !(lines[0] == TableEnd && path != [] && LocalKey(path, k).Some?) {
      ReachedCloses(Moved(path, lines[0]), lines[1..], k);
    }
  }

  lemma ReachesIs(lines: seq<Line>, k: string)
    requires Tidy(lines)
    ensures Reaches([], lines, k) <==> Assigned([], lines, k) == 0 && ClosesTableOf([], lines, k)
  {
    hide Reaches, Assigned, ClosesTableOf, Opens, Times, Join;
    if Reaches([], lines, k) {
      ReachedCloses([], lines, k);
    }
    if ClosesTableOf([], lines, k) {
      var p := PathOfClosed([], lines, k);
      OpensAreDeclared([], lines, p[..|p| - 1]);
      ReachedBefore([], lines, p);
    }
  }

  /** Saving to a tidy file leaves a file that loads exactly when Lua can read what is written: the key and the
      value of each new entry, and each value that takes the place of another. */
  lemma SavedFileLoads(lines: seq<Line>, updates: seq<Update>)
    requires Loads([], lines) && Tidy(lines) && DistinctPaths(updates) && QuoteFree(updates)
    ensures Loads([], UpdatedConfig(lines, updates)) <==> Fits(lines, updates)
  {
    hide Loads, Tidy, UpdatedConfig, Reaches, Assigned, ClosesTableOf, LastPart, EntryReads, ValueReads, AllStand;
    SavedLoads(lines, updates);
    forall u | u in updates
      ensures Spoils([], lines, u) <==>
              || (IsNew(lines, u) && !EntryReads(LastPart(u.0), u.1))
              || (u.1 != DELETE && Assigned([], lines, u.0) > 0 && !ValueReads(u.1))
    {
      ReachesIs(lines, u.0);
    }
  }

  // ---------------------------------------------------------------------------------------------
  // Keys with escapes
  // ---------------------------------------------------------------------------------------------

  // A new entry whose key stands for another one.
  predicate Escapes(path: Path, lines: seq<Line>, u: Update) {
    u.1 != DELETE && '\\' in LastPart(u.0) && Reaches(path, lines, u.0)
  }

  lemma EscapesFirst(path: Path, lines: seq<Line>, u: Update)
    requires lines != []
    ensures Escapes(path, lines, u) <==>
            && !(lines[0].Assignment? && Join(path + [lines[0].key]) == u.0)
            && ((u.1 != DELETE && '\\' in LastPart(u.0) && lines[0] == TableEnd && path != [] &&
                 LocalKey(path, u.0).Some?)
                || Escapes(Moved(path, lines[0]), lines[1..], u))
  {
    hide Join, LocalKey, LastPart;
  }

  lemma {:induction false} EntriesPlain(path: Path, pending: seq<Update>)
    requires forall u <- pending :: u.1 != DELETE && LocalKey(path, u.0).Some? ==> '\\' !in LastPart(u.0)
    ensures forall line <- NewEntries(path, pending) :: ReadsAsItself(line)
  {
    hide KeyRead, LocalKey, LastPart, AllWord;
    if pending != [] {
      EntriesPlain(path, pending[1..]);
      if LocalKey(path, pending[0].0).Some? && pending[0].1 != DELETE {
        assert pending[0] in pending;
        LocalIsLast(path, pending[0].0);
        PlainEntryReads(LocalKey(path, pending[0].0).value, pending[0].1);
      }
    }
  }

  lemma PlainEntryReads(key: string, value: string)
    requires '\\' !in key
    ensures ReadsAsItself(Entry(key, value))
  {
    hide KeyRead;
    if '"' !in key {
      PlainKeyRead(key, AllWord(key));
    }
    if '"' in key {
      assert !AllWord(key);
    }
  }

  lemma {:induction false} RewrittenPlain(st: State, lines: seq<Line>)
    requires forall line <- lines :: ReadsAsItself(line)
    requires forall u <- st.pending :: !Escapes(st.path, lines, u)
    ensures forall line <- Flatten(RewriteAll(st, lines)) :: ReadsAsItself(line)
    decreases |lines|
  {
    if lines != [] {
      hide KeyRead, Escapes, LastPart, Join, LocalKey, Flatten, RewriteAll;
      var line, next := lines[0], Next(st, lines[0]);
      assert line in lines;
      NextPath(st, line);
      NextPending(st, line);
      forall u | u in st.pending
        ensures u in next.pending ==> !Escapes(next.path, lines[1..], u)
        ensures line == TableEnd && st.path != [] && u.1 != DELETE && LocalKey(st.path, u.0).Some? ==>
                  '\\' !in LastPart(u.0)
      {
        EscapesFirst(st.path, lines, u);
        if line.Assignment? {
          WithoutMembers(st.pending, Join(st.path + [line.key]), u);
        }
      }
      RewrittenPlain(next, lines[1..]);
      RewriteFirst(st, lines);
      GroupPlain(st, line);
    }
  }

  lemma GroupPlain(st: State, line: Line)
    requires ReadsAsItself(line)
    requires line == TableEnd && st.path != [] ==>
               forall u <- st.pending :: u.1 != DELETE && LocalKey(st.path, u.0).Some? ==> '\\' !in LastPart(u.0)
    ensures forall l <- Rewritten(st, line) :: ReadsAsItself(l)
  {
    hide KeyRead, LastPart, Join, LocalKey, Lookup, NewEntries;
    if line == TableEnd && st.path != [] {
      EntriesPlain(st.path, st.pending);
    }
  }

  lemma {:induction false} EntryAmong(path: Path, pending: seq<Update>, u: Update)
    requires u in pending && u.1 != DELETE && LocalKey(path, u.0).Some?
    ensures Entry(LastPart(u.0), u.1) in NewEntries(path, pending)
  {
    hide Entry, LastPart, LocalKey;
    if pending[0] == u {
      LocalIsLast(path, u.0);
      assert NewEntry(path, u) == [Entry(LastPart(u.0), u.1)];
    } else {
      assert u in pending[1..];
      EntryAmong(path, pending[1..], u);
    }
  }

  lemma {:induction false} ReachedIsWritten(st: State, lines: seq<Line>, u: Update)
    requires u in st.pending && u.1 != DELETE && Reaches(st.path, lines, u.0)
    ensures Entry(LastPart(u.0), u.1) in Flatten(RewriteAll(st, lines))
    decreases |lines|
  {
    hide Entry, LastPart, Join, LocalKey, Flatten, RewriteAll, NewEntries;
    var line := lines[0];
    RewriteFirst(st, lines);
    NextPath(st, line);
    if line == TableEnd && st.path != [] && LocalKey(st.path, u.0).Some? {
      EntryAmong(st.path, st.pending, u);
    } else {
      if line.Assignment? {
        WithoutMembers(st.pending, Join(st.path + [line.key]), u);
      }
      ReachedIsWritten(Next(st, line), lines[1..], u);
    }
  }

  lemma {:induction false} KeptWithoutBlanks(lines: seq<Line>, line: Line)
    requires line in lines && line != Blank
    ensures line in DropBlanks(lines)
  {
    if lines[0] != line {
      assert line in lines[1..];
      KeptWithoutBlanks(lines[1..], line);
    }
  }

  lemma ReachedIsSaved(lines: seq<Line>, updates: seq<Update>, u: Update)
    requires u in updates && u.1 != DELETE && Reaches([], lines, u.0)
    ensures Entry(LastPart(u.0), u.1) in UpdatedConfig(lines, updates)
  {
    hide LastPart, Reaches, Flatten, RewriteAll, DropBlanks, Recognized;
    ReachedIsWritten(State([], updates), lines, u);
    KeptWithoutBlanks(Flatten(RewriteAll(State([], updates), lines)), Entry(LastPart(u.0), u.1));
  }

  // The saved lines read as themselves exactly when the new keys are plain.
  lemma SavedPlain(lines: seq<Line>, updates: seq<Update>)
    requires Tidy(lines) && Fits(lines, updates)
    ensures (forall line <- UpdatedConfig(lines, updates) :: ReadsAsItself(line)) <==> KeysPlain(lines, updates)
  {
    hide Assigned, ClosesTableOf, Reaches, LastPart, EntryReads, ValueReads, Flatten, RewriteAll, DropBlanks, KeyRead;
    var st := State([], updates);
    forall u | u in updates
      ensures Reaches([], lines, u.0) && u.1 != DELETE <==> IsNew(lines, u)
    {
      ReachesIs(lines, u.0);
    }
    if KeysPlain(lines, updates) {
      RewrittenPlain(st, lines);
      WithoutBlanks([], Flatten(RewriteAll(st, lines)), []);
    } else {
      var u :| u in updates && IsNew(lines, u) && '\\' in LastPart(u.0);
      ReachedIsSaved(lines, updates, u);
      EscapedEntryReads(LastPart(u.0), u.1);
    }
  }

  lemma EscapedEntryReads(key: string, value: string)
    requires EntryReads(key, value) && '\\' in key
    ensures !ReadsAsItself(Entry(key, value))
  {
    hide KeyRead, StringFills, ValueReads;
    EscapedKeyRead(key);
  }

  // ---------------------------------------------------------------------------------------------
  // Tidy again
  // ---------------------------------------------------------------------------------------------

  lemma StartsOnTrack(lines: seq<Line>, updates: seq<Update>, p: Path)
    requires Tidy(lines) && DistinctPaths(updates) && SparesTables(lines, updates) && p != [] && DotFree(p)
    ensures OnTrack(State([], updates), lines, p, 0, 0, 0)
  {
    hide Times, DistinctPaths, Join, Opens;
    OpensAreDeclared([], lines, p[..|p| - 1]);
    assert !Overwrites(lines, updates, p);
  }

  lemma SavedDotFree(lines: seq<Line>, updates: seq<Update>)
    requires forall line <- lines :: DotFreeLine(line)
    ensures forall line <- UpdatedConfig(lines, updates) :: DotFreeLine(line)
  {
    hide Flatten, RewriteAll, DropBlanks;
    RewrittenDotFree(State([], updates), lines);
    WithoutBlanks([], Flatten(RewriteAll(State([], updates), lines)), []);
  }

  lemma SparedIsTidy(lines: seq<Line>, updates: seq<Update>)
    requires Tidy(lines) && DistinctPaths(updates) && SparesTables(lines, updates)
    requires Fits(lines, updates) && KeysPlain(lines, updates)
    ensures Tidy(UpdatedConfig(lines, updates))
  {
    hide Times, Flatten, RewriteAll, DropBlanks, DistinctPaths, Join, Opens, SparesTables, Fits, KeysPlain, KeyRead;
    SavedPlain(lines, updates);
    var st := State([], updates);
    var all := Flatten(RewriteAll(st, lines));
    var t := UpdatedConfig(lines, updates);
    RewrittenDotFree(st, lines);
    SavedDotFree(lines, updates);
    forall p: Path
      ensures Times([], t, p) <= 1
    {
      WithoutBlanks([], all, p);
      if p == [] || !DotFree(p) {
        TimesOfDotted([], all, p);
      } else {
        StartsOnTrack(lines, updates, p);
        RewrittenOnce(st, lines, p, 0, 0, 0);
      }
    }
  }

  lemma {:induction false} DeclaredApart(path: Path, lines: seq<Line>, p: Path)
    requires DotFree(path) && p != [] && DotFree(p) && forall line <- lines :: DotFreeLine(line)
    ensures Opens(path, lines, p) + Assigned(path, lines, Join(p)) == Times(path, lines, p)
    decreases |lines|
  {
    if lines != [] {
      hide Join;
      MovedDotFree(path, lines[0]);
      DeclaredApart(Moved(path, lines[0]), lines[1..], p);
      if lines[0].Assignment? {
        DotFreeAdd(path, lines[0].key);
        JoinApart(path + [lines[0].key], p);
      }
    }
  }

  lemma {:induction false} AssignedShows(m: Meaning, lines: seq<Line>, k: string)
    ensures Get(After(m, lines).leaves, k).Some? <==> Get(m.leaves, k).Some? || Assigned(m.path, lines, k) > 0
    decreases |lines|
  {
    if lines != [] {
      hide Join;
      AssignedShows(Read(m, lines[0]), lines[1..], k);
    }
  }

  lemma {:induction false} OpenedWithin(path: Path, lines: seq<Line>, p: Path)
    requires |p| > 1 && Opens(path, lines, p) > 0
    ensures var parent := p[..|p| - 1]; parent <= path || Opens(path, lines, parent) > 0
    decreases |lines|
  {
    var parent, line := p[..|p| - 1], lines[0];
    if line.TableStart? && path + [line.key] == p {
      assert path == parent;
    } else {
      OpenedWithin(Moved(path, line), lines[1..], p);
      if line.TableStart? {
        PrefixOfMore(parent, path, line.key);
      }
      if line == TableEnd {
        PrefixOfPop(parent, path);
      }
    }
  }

  // A value for an entry of a table, that the file does not assign, is written and can be read.
  lemma WrittenWhereItFits(lines: seq<Line>, updates: seq<Update>, p: Path)
    requires Loads([], lines) && Tidy(lines) && Fits(lines, updates) && Inserts(updates, Join(p))
    requires |p| > 1 && DotFree(p) && Assigned([], lines, Join(p)) == 0
    ensures ClosesParent([], lines, Join(p)) <==> Opens([], lines, p[..|p| - 1]) > 0
  {
    hide Loads, Join, ClosesParent, ClosesTableOf, Opens, Times, Assigned, Recognized, KeyReads, ValueReads, LastPart;
    var k := Join(p);
    LookupIn(updates, k);
    ClosesParentIs([], lines, k);
    ClosesItsTable([], lines, p);
  }

  lemma OverwrittenIsNotTidy(lines: seq<Line>, updates: seq<Update>, p: Path)
    requires Loads([], lines) && Tidy(lines) && DistinctPaths(updates) && Fits(lines, updates)
    requires |p| > 1 && Opens([], lines, p) > 0 && Inserts(updates, Join(p))
    ensures !Tidy(UpdatedConfig(lines, updates))
  {
    hide Loads, DistinctPaths, UpdatedConfig, Opens, Times, Assigned, After, Join, ClosesParent, Fits;
    var t, k := UpdatedConfig(lines, updates), Join(p);
    OpensAreDeclared([], lines, p);
    if !DotFree(p) {
      TimesOfDotted([], lines, p);
    } else {
      DeclaredApart([], lines, p);
      OpenedWithin([], lines, p);
      WrittenWhereItFits(lines, updates, p);
      UpdateLaw(lines, updates, k);
      AssignedShows(START, t, k);
      SavedDotFree(lines, updates);
      DeclaredApart([], t, p);
      NestingUnchanged(lines, updates);
      OpensOfSkeleton([], t, p);
      OpensOfSkeleton([], lines, p);
      assert Times([], t, p) >= 2;
    }
  }

  /** The saved file is tidy again exactly when no value is written over a table within a table and no new key
      holds a backslash, which would make it another key. */
  lemma SavedTidy(lines: seq<Line>, updates: seq<Update>)
    requires Loads([], lines) && Tidy(lines) && DistinctPaths(updates) && Fits(lines, updates)
    ensures Tidy(UpdatedConfig(lines, updates)) <==> SparesTables(lines, updates) && KeysPlain(lines, updates)
  {
    hide Loads, DistinctPaths, UpdatedConfig, Opens, Times, Join, Fits, KeysPlain, Inserts, KeyRead;
    SavedPlain(lines, updates);
    hide Tidy;
    if !SparesTables(lines, updates) {
      var p: Path :| Overwrites(lines, updates, p);
      OverwrittenIsNotTidy(lines, updates, p);
    } else if KeysPlain(lines, updates) {
      SparedIsTidy(lines, updates);
    }
  }

  // Whether p can be added: its table is in the file.
  predicate Addable(lines: seq<Line>, p: Path)
    requires p != []
  {
    |p| > 1 && Opens([], lines, p[..|p| - 1]) > 0
  }

  // The value of a path after one save.
  function Saved(update: Option<string>, before: Option<string>, addable: bool): Option<string> {
    match update
    case None => before
    case Some(value) => if value == DELETE || (before.None? && !addable) then None else Some(value)
  }

  // ---------------------------------------------------------------------------------------------
  // Where nothing is written above a path, Lua reads what the lines assign to it
  // ---------------------------------------------------------------------------------------------

  // Read at the path, the line takes away the value of q: it declares what q is in, or a table in its place.
  predicate Harms(path: Path, line: Line, q: Path) {
    match Declared(path, line)
    case Some(r) => r <= q && (line.Assignment? ==> r != q)
    case None => false
  }

  // No value that the lines assign to q is taken away.
  predicate Spared(r: Meaning, lines: seq<Line>, q: Path)
    decreases |lines|
  {
    lines != [] ==>
      && (Harms(r.path, lines[0], q) ==> Get(r.leaves, Join(q)) == None)
      && Spared(Read(r, lines[0]), lines[1..], q)
  }

  lemma SparedLine(m: Tables, r: Meaning, line: Line, q: Path)
    requires m.path == r.path && DotFree(m.path) && DotFreeLine(line) && ReadsAsItself(line)
    requires q != [] && DotFree(q) && LeafAt(m.leaves, q) == Get(r.leaves, Join(q))
    requires Harms(r.path, line, q) ==> Get(r.leaves, Join(q)) == None
    ensures Evaluate(m, line).path == Read(r, line).path == Moved(m.path, line)
    ensures LeafAt(Evaluate(m, line).leaves, q) == Get(Read(r, line).leaves, Join(q))
  {
    hide Join, KeyRead, DotFree;
    if line.TableStart? || line.Assignment? {
      DotFreeAdd(m.path, line.key);
      JoinApart(m.path + [line.key], q);
    }
  }

  lemma {:induction false} SparedAgrees(m: Tables, r: Meaning, lines: seq<Line>, q: Path)
    requires m.path == r.path && DotFree(m.path) && forall line <- lines :: DotFreeLine(line) && ReadsAsItself(line)
    requires q != [] && DotFree(q) && LeafAt(m.leaves, q) == Get(r.leaves, Join(q))
    requires Spared(r, lines, q)
    ensures LeafAt(Evaluated(m, lines).leaves, q) == Get(After(r, lines).leaves, Join(q))
    decreases |lines|
  {
    if lines != [] {
      hide Join, KeyRead, DotFree, Harms, DotFreeLine, ReadsAsItself;
      assert lines[0] in lines;
      SparedLine(m, r, lines[0], q);
      MovedDotFree(m.path, lines[0]);
      SparedAgrees(Evaluate(m, lines[0]), Read(r, lines[0]), lines[1..], q);
    }
  }

  lemma {:induction false} SparedAppend(r: Meaning, a: seq<Line>, b: seq<Line>, q: Path)
    ensures Spared(r, a + b, q) <==> Spared(r, a, q) && Spared(After(r, a), b, q)
    decreases |a|
  {
    if a == [] {
      assert a + b == b;
    } else {
      hide Harms, Join;
      assert (a + b)[1..] == a[1..] + b;
      SparedAppend(Read(r, a[0]), a[1..], b, q);
    }
  }

  // While the lines are rewritten: no value is written above q, and once q has a value nothing above it is
  // declared any more.
  ghost predicate Clear(st: State, lines: seq<Line>, q: Path, has: bool) {
    && DistinctPaths(st.pending) && DotFree(st.path)
    && (forall p: Path :: Times(st.path, lines, p) <= 1)
    && (forall p: Path :: p != [] && p <= st.path ==> Times(st.path, lines, p) == 0)
    && (forall p: Path :: |p| > 1 && p < q && (p <= st.path || Opens(st.path, lines, p) > 0) ==>
          !Inserts(st.pending, Join(p)))
    && (has ==> Opens(st.path, lines, q) == 0)
    && (has ==> forall p: Path :: p != [] && p < q ==>
          Times(st.path, lines, p) == 0 && (|p| > 1 ==> !Inserts(st.pending, Join(p))))
  }

  // The line, or what is written before it, can give q a value.
  predicate MaySet(path: Path, line: Line, q: Path)
    requires q != []
  {
    path == q[..|q| - 1] && ((line.Assignment? && line.key == q[|q| - 1]) || (line == TableEnd && path != []))
  }

  lemma ClearStep(st: State, lines: seq<Line>, q: Path, has: bool)
    requires q != [] && lines != [] && DotFreeLine(lines[0]) && Clear(st, lines, q, has)
    ensures Clear(Next(st, lines[0]), lines[1..], q, has || MaySet(st.path, lines[0], q))
  {
    hide Join, Times, Opens, DotFree, Inserts, DistinctPaths;
    var line, rest, next := lines[0], lines[1..], Next(st, lines[0]);
    NextPath(st, line);
    MovedDotFree(st.path, line);
    if line.Assignment? {
      WithoutDistinct(st.pending, Join(st.path + [line.key]));
    }
    forall p: Path
      ensures Times(st.path, lines, p) == One(Declared(st.path, line) == Some(p)) + Times(next.path, rest, p)
      ensures Opens(next.path, rest, p) <= Opens(st.path, lines, p)
      ensures Inserts(next.pending, Join(p)) ==> Inserts(st.pending, Join(p))
      ensures p != [] && p <= next.path ==> p <= st.path || Declared(st.path, line) == Some(p)
      ensures p != [] && p <= next.path ==>
                p <= st.path || (line.TableStart? && p == st.path + [line.key] && Opens(st.path, lines, p) > 0)
    {
      TimesFirst(st.path, lines, p);
      OpensFirst(st.path, lines, p);
      if line.Assignment? {
        InsertsWithout(st.pending, Join(st.path + [line.key]), Join(p));
      }
      if line.TableStart? {
        PrefixOfMore(p, st.path, line.key);
      }
      if line == TableEnd && p != [] {
        PrefixOfPop(p, st.path);
      }
    }
    if MaySet(st.path, line, q) {
      ClearSet(st, lines, q, has);
    }
  }

  lemma ClearSet(st: State, lines: seq<Line>, q: Path, has: bool)
    requires q != [] && lines != [] && MaySet(st.path, lines[0], q) && Clear(st, lines, q, has)
    ensures Opens(Moved(st.path, lines[0]), lines[1..], q) == 0
    ensures forall p: Path :: p != [] && p < q ==>
              Times(st.path, lines, p) == 0 && (|p| > 1 ==> !Inserts(st.pending, Join(p)))
  {
    hide Join, Times, Opens, DotFree, Inserts, DistinctPaths;
    var line, rest, parent := lines[0], lines[1..], q[..|q| - 1];
    forall p: Path
      ensures p != [] && p < q ==>
                Times(st.path, lines, p) == 0 && (|p| > 1 ==> !Inserts(st.pending, Join(p)))
    {
      assert p < q ==> p <= parent;
    }
    TimesFirst(st.path, lines, q);
    TimesFirst(st.path, lines, parent);
    OpensAreDeclared(Moved(st.path, line), rest, q);
    OpensAreDeclared(Moved(st.path, line), rest, parent);
    if line.Assignment? {
      assert st.path + [line.key] == q;
    } else {
      if Opens(Moved(st.path, line), rest, q) > 0 {
        OpenedWithin(Moved(st.path, line), rest, q);
        PrefixOfPop(parent, st.path);
      }
    }
  }

  lemma {:induction false} EntriesSpared(r: Meaning, pending: seq<Update>, q: Path)
    requires r.path != [] && DotFree(r.path) && q != [] && DotFree(q)
    requires |q| <= |r.path| + 1 || Get(r.leaves, Join(q)) == None ||
             forall u <- pending :: u.1 != DELETE && LocalKey(r.path, u.0).Some? ==>
               !(r.path + [LocalKey(r.path, u.0).value] <= q)
    ensures Spared(r, NewEntries(r.path, pending), q)
    decreases |pending|
  {
    hide Join, LocalKey, DotFree, Recognized, AllWord;
    if pending != [] {
      var u, first := pending[0], NewEntry(r.path, pending[0]);
      var rest := NewEntries(r.path, pending[1..]);
      assert u in pending;
      SparedAppend(r, first, rest, q);
      if LocalKey(r.path, u.0).Some? && u.1 != DELETE {
        var key := LocalKey(r.path, u.0).value;
        var e := r.path + [key];
        LocalKeyDotFree(r.path, u.0);
        DotFreeAdd(r.path, key);
        JoinApart(e, q);
        assert e < q ==> |e| < |q|;
        OneEntry(r, Entry(key, u.1), q);
      }
      EntriesSpared(After(r, first), pending[1..], q);
    }
  }

  lemma LocalKeyDotFree(path: Path, k: string)
    requires LocalKey(path, k).Some?
    ensures '.' !in LocalKey(path, k).value
  {
  }

  lemma OneEntry(r: Meaning, line: Line, q: Path)
    ensures After(r, [line]) == Read(r, line)
    ensures Spared(r, [line], q) <==> (Harms(r.path, line, q) ==> Get(r.leaves, Join(q)) == None)
  {
    assert [line][1..] == [];
  }

  lemma GroupSpared(st: State, lines: seq<Line>, r: Meaning, q: Path)
    requires q != [] && DotFree(q) && lines != [] && DotFreeLine(lines[0]) && r.path == st.path
    requires Clear(st, lines, q, Get(r.leaves, Join(q)).Some?)
    ensures Spared(r, Rewritten(st, lines[0]), q)
    ensures var after := After(r, Rewritten(st, lines[0]));
            && after.path == Moved(st.path, lines[0])
            && (Get(after.leaves, Join(q)).Some? ==>
                  Get(r.leaves, Join(q)).Some? || MaySet(st.path, lines[0], q))
  {
    hide Join, Times, Opens, DotFree, Inserts, DistinctPaths, NewEntries, LocalKey, Recognized;
    var line := lines[0];
    hide Clear;
    OneEntry(r, line, q);
    if line != TableEnd {
      HarmlessNow(st, lines, q, Get(r.leaves, Join(q)).Some?);
    }
    ClearDotFree(st, lines, q, Get(r.leaves, Join(q)).Some?);
    match line {
      case TableEnd => EndSpared(st, lines, r, q);
      case Assignment(key, bare, value) =>
        DotFreeAdd(st.path, key);
        JoinApart(st.path + [key], q);
        OneEntry(r, Blank, q);
        match Lookup(st.pending, Join(st.path + [key])) {
          case Some(v) => OneEntry(r, Assignment(key, bare, v), q);
          case None =>
        }
      case _ =>
    }
  }

  lemma HarmlessNow(st: State, lines: seq<Line>, q: Path, has: bool)
    requires lines != [] && Clear(st, lines, q, has)
    ensures has ==> !Harms(st.path, lines[0], q)
  {
    hide Join, DotFree, Inserts, DistinctPaths, Times, Opens;
    var line := lines[0];
    if line.TableStart? || line.Assignment? {
      var e := st.path + [line.key];
      TimesFirst(st.path, lines, e);
      OpensFirst(st.path, lines, q);
      assert e <= q ==> e == q || e < q;
    }
  }

  lemma ClearDotFree(st: State, lines: seq<Line>, q: Path, has: bool)
    requires Clear(st, lines, q, has)
    ensures DotFree(st.path)
  {
  }

  lemma EndSpared(st: State, lines: seq<Line>, r: Meaning, q: Path)
    requires q != [] && DotFree(q) && lines != [] && lines[0] == TableEnd && r.path == st.path
    requires Clear(st, lines, q, Get(r.leaves, Join(q)).Some?)
    ensures Spared(r, Rewritten(st, TableEnd), q)
    ensures var after := After(r, Rewritten(st, TableEnd));
            && after.path == Pop(st.path)
            && (Get(after.leaves, Join(q)).Some? ==> Get(r.leaves, Join(q)).Some? || MaySet(st.path, TableEnd, q))
  {
    hide Join, Times, Opens, DotFree, DistinctPaths, NewEntries, LocalKey, Recognized;
    if st.path == [] {
      assert [] + [TableEnd] == [TableEnd];
      OneEntry(r, TableEnd, q);
    } else {
      var entries := NewEntries(st.path, st.pending);
      NewEntriesSet(r, st.pending, Join(q));
      ParentIs(st.path, q);
      forall u | u in st.pending && u.1 != DELETE && LocalKey(st.path, u.0).Some?
        ensures |q| <= |st.path| + 1 || Get(r.leaves, Join(q)) == None ||
                !(st.path + [LocalKey(st.path, u.0).value] <= q)
      {
        JoinChild(st.path, u.0);
        LookupOf(st.pending, u);
      }
      EntriesSpared(r, st.pending, q);
      SparedAppend(r, entries, [TableEnd], q);
      OneEntry(After(r, entries), TableEnd, q);
      AfterAppend(r, entries, [TableEnd]);
    }
  }

  lemma {:induction false} RewrittenSpared(st: State, lines: seq<Line>, r: Meaning, q: Path)
    requires q != [] && DotFree(q) && r.path == st.path && forall line <- lines :: DotFreeLine(line)
    requires Clear(st, lines, q, Get(r.leaves, Join(q)).Some?)
    ensures Spared(r, Flatten(RewriteAll(st, lines)), q)
    decreases |lines|
  {
    hide Clear, Rewritten, Next, Join, Flatten, RewriteAll;
    if lines == [] {
      RewriteNone(st);
    } else {
      var group := Rewritten(st, lines[0]);
      GroupSpared(st, lines, r, q);
      ClearStep(st, lines, q, Get(r.leaves, Join(q)).Some?);
      NextPath(st, lines[0]);
      var has := Get(After(r, group).leaves, Join(q)).Some?;
      ClearLess(Next(st, lines[0]), lines[1..], q, Get(r.leaves, Join(q)).Some? || MaySet(st.path, lines[0], q), has);
      RewrittenSpared(Next(st, lines[0]), lines[1..], After(r, group), q);
      RewriteFirst(st, lines);
      SparedAppend(r, group, Flatten(RewriteAll(Next(st, lines[0]), lines[1..])), q);
    }
  }

  lemma ClearLess(st: State, lines: seq<Line>, q: Path, had: bool, has: bool)
    requires Clear(st, lines, q, had) && (has ==> had)
    ensures Clear(st, lines, q, has)
  {
    hide Join, Times, Opens, DotFree, DistinctPaths;
  }

  lemma RewriteNone(st: State)
    ensures Flatten(RewriteAll(st, [])) == []
  {
  }

  // Nothing is written above q.
  ghost predicate Open(lines: seq<Line>, updates: seq<Update>, q: Path) {
    forall p: Path :: p < q ==> !Overwrites(lines, updates, p)
  }

  lemma OpenReadsDotted(lines: seq<Line>, updates: seq<Update>, q: Path)
    requires Tidy(lines) && DistinctPaths(updates) && Fits(lines, updates) && KeysPlain(lines, updates)
    requires q != [] && DotFree(q) && Open(lines, updates, q)
    ensures LuaValue(UpdatedConfig(lines, updates), q) == Get(Denotes(UpdatedConfig(lines, updates)), Join(q))
  {
    hide Times, Flatten, RewriteAll, DropBlanks, DistinctPaths, Join, Opens, Fits, KeysPlain, KeyRead, Inserts;
    var st := State([], updates);
    var all := Flatten(RewriteAll(st, lines));
    SavedPlain(lines, updates);
    SavedDotFree(lines, updates);
    forall p: Path | |p| > 1 && p < q && (p <= [] || Opens([], lines, p) > 0)
      ensures !Inserts(updates, Join(p))
    {
      assert !Overwrites(lines, updates, p);
    }
    assert Clear(st, lines, q, false);
    RewrittenSpared(st, lines, START, q);
    SparedWithoutBlanks(START, all, q);
    SparedAgrees(Tables([], map[]), START, UpdatedConfig(lines, updates), q);
  }

  lemma {:induction false} SparedWithoutBlanks(r: Meaning, lines: seq<Line>, q: Path)
    requires Spared(r, lines, q)
    ensures Spared(r, DropBlanks(lines), q)
    decreases |lines|
  {
    if lines != [] {
      hide Harms, Join;
      SparedWithoutBlanks(Read(r, lines[0]), lines[1..], q);
      if lines[0] == Blank {
        assert DropBlanks(lines) == DropBlanks(lines[1..]);
      } else {
        assert DropBlanks(lines)[1..] == DropBlanks(lines[1..]);
      }
    }
  }

  lemma {:induction false} NothingRewritten(path: Path, lines: seq<Line>)
    ensures Flatten(RewriteAll(State(path, []), lines)) == lines
    decreases |lines|
  {
    if lines == [] {
      RewriteNone(State(path, []));
    } else {
      hide Flatten, RewriteAll, Join;
      RewriteFirst(State(path, []), lines);
      NothingRewritten(Moved(path, lines[0]), lines[1..]);
      assert [] + [lines[0]] == [lines[0]] && Rewritten(State(path, []), lines[0]) == [lines[0]];
    }
  }

  /** On a tidy file, the value that Lua leaves at a path is the last one assigned to its dotted form. */
  lemma LuaReadsDotted(lines: seq<Line>, p: Path)
    requires Tidy(lines) && p != [] && DotFree(p)
    ensures LuaValue(lines, p) == Get(Denotes(lines), Join(p))
  {
    hide Times, Join, Flatten, RewriteAll, Opens, KeyRead;
    assert Clear(State([], []), lines, p, false);
    RewrittenSpared(State([], []), lines, START, p);
    NothingRewritten([], lines);
    SparedAgrees(Tables([], map[]), START, lines, p);
  }

  // ---------------------------------------------------------------------------------------------
  // Below a value that is written over a table, nothing is left
  // ---------------------------------------------------------------------------------------------

  lemma {:induction false} EvaluatedAppend(m: Tables, a: seq<Line>, b: seq<Line>)
    ensures Evaluated(m, a + b) == Evaluated(Evaluated(m, a), b)
    decreases |a|
  {
    if a == [] {
      assert a + b == b;
    } else {
      assert (a + b)[1..] == a[1..] + b;
      EvaluatedAppend(Evaluate(m, a[0]), a[1..], b);
    }
  }

  lemma {:induction false} UndeclaredStays(m: Tables, lines: seq<Line>, q: Path)
    requires forall line <- lines :: ReadsAsItself(line)
    requires Times(m.path, lines, q) == 0 && LeafAt(m.leaves, q) == None
    ensures LeafAt(Evaluated(m, lines).leaves, q) == None
    ensures Evaluated(m, lines).path == MovedAll(m.path, lines)
    decreases |lines|
  {
    if lines != [] {
      hide KeyRead;
      assert lines[0] in lines;
      UndeclaredStays(Evaluate(m, lines[0]), lines[1..], q);
    }
  }

  // What lies below p is not declared once the table p is closed for good.
  lemma {:induction false} NeverBelow(st: State, lines: seq<Line>, p: Path, q: Path)
    requires p != [] && p < q && DistinctPaths(st.pending) && !(p <= st.path) && Opens(st.path, lines, p) == 0
    ensures Times(st.path, Flatten(RewriteAll(st, lines)), q) == 0
    decreases |lines|
  {
    hide Join, DistinctPaths, Flatten, RewriteAll, Rewritten, Next, Inserts, Lookup, Times, Opens;
    if lines == [] {
      RewriteNone(st);
      NoTimes(st.path, q);
    } else {
      var line, next := lines[0], Next(st, lines[0]);
      NextPath(st, line);
      NextDistinct(st, line);
      OpensFirst(st.path, lines, p);
      if line == TableEnd {
        PrefixOfPop(p, st.path);
      }
      if line.TableStart? {
        PrefixOfMore(p, st.path, line.key);
      }
      NeverBelow(next, lines[1..], p, q);
      RewriteFirst(st, lines);
      RewrittenDeclares(st, line, q);
      NotBelow(st.path, p, q);
      TimesAppend(st.path, Rewritten(st, line), Flatten(RewriteAll(next, lines[1..])), q);
    }
  }

  lemma NoTimes(path: Path, q: Path)
    ensures Times(path, [], q) == 0
  {
  }

  lemma NextDistinct(st: State, line: Line)
    requires DistinctPaths(st.pending)
    ensures DistinctPaths(Next(st, line).pending)
  {
    hide DistinctPaths, Join;
    if line.Assignment? {
      WithoutDistinct(st.pending, Join(st.path + [line.key]));
    }
  }

  // What is below p is no entry of a table outside p.
  lemma NotBelow(path: Path, p: Path, q: Path)
    requires p < q && !(p <= path)
    ensures path != q[..|q| - 1]
    ensures forall key: string :: path + [key] != q
  {
    assert p <= q[..|q| - 1];
    forall key: string
      ensures path + [key] != q
    {
      assert (path + [key])[..|path|] == path;
    }
  }

  // The new entry for p is among those written, and takes away what is below p.
  lemma {:induction false} EntriesCover(m: Tables, pending: seq<Update>, p: Path, q: Path)
    requires p != [] && p < q && m.path != [] && m.path == p[..|p| - 1] && DotFree(p) && DistinctPaths(pending)
    requires Inserts(pending, Join(p)) && Recognized(p[|p| - 1])
    requires forall line <- NewEntries(m.path, pending) :: ReadsAsItself(line)
    ensures LeafAt(Evaluated(m, NewEntries(m.path, pending)).leaves, q) == None
    ensures Evaluated(m, NewEntries(m.path, pending)).path == m.path
    decreases |pending|
  {
    hide Join, LocalKey, DotFree, Recognized, AllWord, KeyRead, DistinctPaths, ReadsAsItself;
    var u, first, rest := pending[0], NewEntry(m.path, pending[0]), NewEntries(m.path, pending[1..]);
    forall line | line in first + rest
      ensures ReadsAsItself(line)
    {
    }
    EvaluatedAppend(m, first, rest);
    DistinctRest(pending);
    ParentOfChild(m.path, p);
    var next := EntryEvaluated(m, u, q);
    if u.0 == Join(p) {
      CoverNow(m, u, p, q);
      RestDeclaresNone(m.path, pending[1..], p, q);
      UndeclaredStays(next, rest, q);
      NewEntriesDeclare(m.path, pending[1..], q);
    } else {
      EntriesCover(next, pending[1..], p, q);
    }
  }

  lemma DistinctRest(pending: seq<Update>)
    requires pending != [] && DistinctPaths(pending)
    ensures DistinctPaths(pending[1..])
  {
  }

  lemma ParentOfChild(path: Path, p: Path)
    requires p != [] && path != [] && path == p[..|p| - 1] && DotFree(p)
    ensures DotFree(path) && LocalKey(path, Join(p)) == Some(p[|p| - 1])
  {
    hide Join, LocalKey;
    assert DotFree(path);
    ParentIs(path, p);
  }

  lemma EntryEvaluated(m: Tables, u: Update, q: Path) returns (next: Tables)
    requires m.path != []
    ensures next == Evaluated(m, NewEntry(m.path, u)) && next.path == m.path
  {
    hide KeyRead, LocalKey, Recognized;
    next := Evaluated(m, NewEntry(m.path, u));
    if NewEntry(m.path, u) != [] {
      EvaluatedOne(m, NewEntry(m.path, u)[0]);
    }
  }

  lemma EvaluatedOne(m: Tables, line: Line)
    ensures Evaluated(m, [line]) == Evaluate(m, line)
  {
    assert [line][1..] == [];
  }

  lemma CoverNow(m: Tables, u: Update, p: Path, q: Path)
    requires p != [] && p < q && m.path == p[..|p| - 1] && u.0 == Join(p) && u.1 != DELETE
    requires LocalKey(m.path, u.0) == Some(p[|p| - 1]) && Recognized(p[|p| - 1])
    requires forall line <- NewEntry(m.path, u) :: ReadsAsItself(line)
    ensures LeafAt(Evaluated(m, NewEntry(m.path, u)).leaves, q) == None
  {
    hide KeyRead, LocalKey, Recognized, Join;
    var line := Entry(p[|p| - 1], u.1);
    assert NewEntry(m.path, u) == [line];
    assert line in NewEntry(m.path, u);
    EvaluatedOne(m, line);
    assert m.path + [p[|p| - 1]] == p;
  }

  lemma RestDeclaresNone(path: Path, pending: seq<Update>, p: Path, q: Path)
    requires p != [] && p < q && path != [] && path == p[..|p| - 1] && DistinctPaths(pending)
    ensures Times(path, NewEntries(path, pending), q) == 0
  {
    hide Join, DistinctPaths, NewEntries, Times;
    assert |path| + 1 == |p| < |q|;
    NewEntriesDeclare(path, pending, q);
  }

  // Up to the line that closes the table of p, and after it.
  lemma {:induction false} GoneBelow(st: State, lines: seq<Line>, m: Tables, p: Path, q: Path)
    requires |p| > 1 && p < q && DotFree(p) && DotFree(st.path) && forall line <- lines :: DotFreeLine(line)
    requires m.path == st.path && forall line <- Flatten(RewriteAll(st, lines)) :: ReadsAsItself(line)
    requires DistinctPaths(st.pending) && Inserts(st.pending, Join(p)) && Recognized(p[|p| - 1])
    requires Assigned(st.path, lines, Join(p)) == 0 && ClosesTableOf(st.path, lines, Join(p))
    requires One(p[..|p| - 1] <= st.path) + Opens(st.path, lines, p[..|p| - 1]) <= 1
    ensures LeafAt(Evaluated(m, Flatten(RewriteAll(st, lines))).leaves, q) == None
    decreases |lines|
  {
    hide Join, DistinctPaths, Flatten, RewriteAll, Rewritten, Next, Opens, Inserts, DotFree, LocalKey, ReadsAsItself,
         Recognized, DotFreeLine;
    var parent, line, next := p[..|p| - 1], lines[0], Next(st, lines[0]);
    var group, rest := Rewritten(st, line), Flatten(RewriteAll(Next(st, lines[0]), lines[1..]));
    RewriteFirst(st, lines);
    forall l | l in group || l in rest
      ensures ReadsAsItself(l)
    {
      assert l in group + rest;
    }
    assert line in lines;
    NextPath(st, line);
    NextDistinct(st, line);
    MovedDotFree(st.path, line);
    OpensFirst(st.path, lines, parent);
    RewrittenDeclares(st, line, p);
    GroupPath(m, group);
    EvaluatedAppend(m, group, rest);
    if st.path != [] {
      ParentIs(st.path, p);
    }
    if line == TableEnd && st.path == parent {
      GroupCovers(st, m, p, q);
      CloseForGood(st.path, lines, p);
      NeverBelow(next, lines[1..], p, q);
      UndeclaredStays(Evaluated(m, group), rest, q);
    } else {
      if line == TableEnd {
        PrefixOfPop(parent, st.path);
      }
      if line.TableStart? {
        PrefixOfMore(parent, st.path, line.key);
      }
      StillInserts(st, line, Join(p));
      GoneBelow(next, lines[1..], Evaluated(m, group), p, q);
    }
  }

  lemma {:induction false} GroupPath(m: Tables, lines: seq<Line>)
    requires forall line <- lines :: ReadsAsItself(line)
    ensures Evaluated(m, lines).path == MovedAll(m.path, lines)
    decreases |lines|
  {
    if lines != [] {
      hide ReadsAsItself;
      assert lines[0] in lines;
      EvaluatedPath(m, lines[0]);
      GroupPath(Evaluate(m, lines[0]), lines[1..]);
    }
  }

  lemma StillInserts(st: State, line: Line, k: string)
    requires Inserts(st.pending, k) && !(line.Assignment? && Join(st.path + [line.key]) == k)
    ensures Inserts(Next(st, line).pending, k)
  {
    hide Join, Inserts;
    if line.Assignment? {
      InsertsWithout(st.pending, Join(st.path + [line.key]), k);
    }
  }

  lemma GroupCovers(st: State, m: Tables, p: Path, q: Path)
    requires |p| > 1 && p < q && DotFree(p) && m.path == st.path == p[..|p| - 1]
    requires DistinctPaths(st.pending) && Inserts(st.pending, Join(p)) && Recognized(p[|p| - 1])
    requires forall line <- Rewritten(st, TableEnd) :: ReadsAsItself(line)
    ensures LeafAt(Evaluated(m, Rewritten(st, TableEnd)).leaves, q) == None
  {
    hide Join, DistinctPaths, Inserts, DotFree, ReadsAsItself, Recognized, NewEntries;
    var entries := NewEntries(st.path, st.pending);
    forall l | l in entries
      ensures ReadsAsItself(l)
    {
      assert l in entries + [TableEnd];
    }
    EntriesCover(m, st.pending, p, q);
    EvaluatedAppend(m, entries, [TableEnd]);
    EvaluatedOne(Evaluated(m, entries), TableEnd);
  }

  lemma CloseForGood(path: Path, lines: seq<Line>, p: Path)
    requires |p| > 1 && lines != [] && lines[0] == TableEnd && path == p[..|p| - 1]
    requires One(p[..|p| - 1] <= path) + Opens(path, lines, p[..|p| - 1]) <= 1
    ensures !(p <= Pop(path)) && Opens(Pop(path), lines[1..], p) == 0
  {
    hide Opens;
    var parent := p[..|p| - 1];
    OpensFirst(path, lines, parent);
    PrefixOfPop(parent, path);
    if Opens(Pop(path), lines[1..], p) > 0 {
      OpenedWithin(Pop(path), lines[1..], p);
    }
  }

  lemma CoveredIsGone(lines: seq<Line>, updates: seq<Update>, p: Path, q: Path)
    requires Loads([], lines) && Tidy(lines) && DistinctPaths(updates) && Fits(lines, updates)
    requires KeysPlain(lines, updates) && Overwrites(lines, updates, p) && p < q && DotFree(q)
    ensures LuaValue(UpdatedConfig(lines, updates), q) == None
  {
    hide Loads, Flatten, RewriteAll, DropBlanks, DistinctPaths, Join, Opens, Fits, KeysPlain, KeyRead, Inserts,
         Assigned, ClosesTableOf, Recognized, ReadsAsItself, Times;
    var st, k := State([], updates), Join(p);
    var all := Flatten(RewriteAll(st, lines));
    SavedAllPlain(lines, updates);
    assert DotFree(p) by {
      forall key | key in p
        ensures key in q
      {
        var i :| 0 <= i < |p| && p[i] == key;
        assert q[i] == key;
      }
    }
    OpensAreDeclared([], lines, p);
    OpensAreDeclared([], lines, p[..|p| - 1]);
    DeclaredApart([], lines, p);
    OpenedWithin([], lines, p);
    ClosesItsTable([], lines, p);
    NewKeyFits(lines, updates, p);
    GoneBelow(st, lines, Tables([], map[]), p, q);
    EvaluatedWithoutBlanks(Tables([], map[]), all);
  }

  lemma SavedAllPlain(lines: seq<Line>, updates: seq<Update>)
    requires Tidy(lines) && KeysPlain(lines, updates)
    ensures forall line <- Flatten(RewriteAll(State([], updates), lines)) :: ReadsAsItself(line)
  {
    hide Assigned, ClosesTableOf, Reaches, LastPart, Flatten, RewriteAll, KeyRead;
    forall u | u in updates
      ensures !Escapes([], lines, u)
    {
      ReachesIs(lines, u.0);
    }
    RewrittenPlain(State([], updates), lines);
  }

  lemma NewKeyFits(lines: seq<Line>, updates: seq<Update>, p: Path)
    requires Fits(lines, updates) && Inserts(updates, Join(p)) && |p| > 1 && DotFree(p)
    requires Assigned([], lines, Join(p)) == 0 && ClosesTableOf([], lines, Join(p))
    ensures Recognized(p[|p| - 1])
  {
    hide Join, Assigned, ClosesTableOf, Recognized, KeyReads, ValueReads, LastPart;
    LookupIn(updates, Join(p));
    LastOfJoin(p);
  }

  lemma LastOfJoin(p: Path)
    requires |p| > 1 && DotFree(p)
    ensures LastPart(Join(p)) == p[|p| - 1]
  {
    assert p[|p| - 1] in p;
    LastPartIs(Join(p[..|p| - 1]), p[|p| - 1]);
  }

  lemma {:induction false} EvaluatedWithoutBlanks(m: Tables, lines: seq<Line>)
    ensures Evaluated(m, DropBlanks(lines)) == Evaluated(m, lines)
    decreases |lines|
  {
    if lines != [] {
      hide KeyRead;
      EvaluatedWithoutBlanks(Evaluate(m, lines[0]), lines[1..]);
      if lines[0] == Blank {
        assert DropBlanks(lines) == DropBlanks(lines[1..]);
      } else {
        assert DropBlanks(lines)[1..] == DropBlanks(lines[1..]);
      }
    }
  }

  // ---------------------------------------------------------------------------------------------
  // The law for one save
  // ---------------------------------------------------------------------------------------------

  // Each path of the saved file has the value that its own update gives it.
  ghost predicate Lens(lines: seq<Line>, updates: seq<Update>) {
    forall p: Path :: p != [] && DotFree(p) ==> LensAt(lines, updates, p)
  }

  ghost predicate LensAt(lines: seq<Line>, updates: seq<Update>, p: Path)
    requires p != []
  {
    LuaValue(UpdatedConfig(lines, updates), p) == Saved(Lookup(updates, Join(p)), LuaValue(lines, p), Addable(lines, p))
  }

  // Where a value is written over a table within a table, nothing below it has or gets a value.
  ghost predicate NothingLost(lines: seq<Line>, updates: seq<Update>) {
    forall p: Path, q: Path :: p < q && DotFree(q) && Overwrites(lines, updates, p) ==>
      Saved(Lookup(updates, Join(q)), LuaValue(lines, q), Addable(lines, q)) == None
  }

  lemma OpenValue(lines: seq<Line>, updates: seq<Update>, p: Path)
    requires Loads([], lines) && Tidy(lines) && DistinctPaths(updates) && Fits(lines, updates)
    requires KeysPlain(lines, updates) && Open(lines, updates, p) && p != [] && DotFree(p)
    ensures LensAt(lines, updates, p)
  {
    hide Loads, Times, UpdatedConfig, DistinctPaths, Join, Opens, After, LuaValue, Assigned, ClosesParent,
         ClosesTableOf, Fits, KeysPlain, Open, KeyRead;
    var t, k := UpdatedConfig(lines, updates), Join(p);
    LuaReadsDotted(lines, p);
    OpenReadsDotted(lines, updates, p);
    UpdateLaw(lines, updates, k);
    DeclaredApart([], lines, p);
    AssignedShows(START, lines, k);
    if Inserts(updates, k) && Assigned([], lines, k) == 0 {
      if |p| > 1 {
        WrittenWhereItFits(lines, updates, p);
      } else {
        ClosesItsTable([], lines, p);
        ClosesParentIs([], lines, k);
      }
    }
  }

  /** The value that Lua leaves at any path after a save: none below a value that was written over a table, and
      otherwise what the path's own update makes of it. */
  lemma SavedValue(lines: seq<Line>, updates: seq<Update>, q: Path)
    requires Loads([], lines) && Tidy(lines) && DistinctPaths(updates) && Fits(lines, updates)
    requires KeysPlain(lines, updates) && q != [] && DotFree(q)
    ensures LuaValue(UpdatedConfig(lines, updates), q) ==
            if Open(lines, updates, q) then Saved(Lookup(updates, Join(q)), LuaValue(lines, q), Addable(lines, q))
            else None
  {
    hide Loads, Tidy, UpdatedConfig, DistinctPaths, Join, LuaValue, Fits, KeysPlain, Overwrites, Addable;
    if Open(lines, updates, q) {
      OpenValue(lines, updates, q);
    } else {
      var p: Path :| p < q && Overwrites(lines, updates, p);
      CoveredIsGone(lines, updates, p, q);
    }
  }

  lemma PlainLens(lines: seq<Line>, updates: seq<Update>)
    requires Loads([], lines) && Tidy(lines) && DistinctPaths(updates) && Fits(lines, updates)
    requires KeysPlain(lines, updates)
    ensures Lens(lines, updates) <==> NothingLost(lines, updates)
  {
    hide Loads, Tidy, UpdatedConfig, DistinctPaths, Join, LuaValue, Fits, KeysPlain, Overwrites, Addable, Saved;
    forall q: Path | q != [] && DotFree(q)
      ensures LensAt(lines, updates, q) <==>
              Open(lines, updates, q) || Saved(Lookup(updates, Join(q)), LuaValue(lines, q), Addable(lines, q)) == None
    {
      SavedValue(lines, updates, q);
    }
  }

  // ---------------------------------------------------------------------------------------------
  // With a key that stands for another one, the law fails
  // ---------------------------------------------------------------------------------------------

  // A new entry with an escape in its key, and none is longer.
  ghost predicate Longest(lines: seq<Line>, updates: seq<Update>, u: Update) {
    && u in updates && IsNew(lines, u) && '\\' in LastPart(u.0)
    && forall v <- updates :: IsNew(lines, v) && '\\' in LastPart(v.0) ==> |v.0| <= |u.0|
  }

  lemma {:induction false} LongestOf(lines: seq<Line>, updates: seq<Update>) returns (u: Update)
    requires exists v <- updates :: IsNew(lines, v) && '\\' in LastPart(v.0)
    ensures Longest(lines, updates, u)
  {
    hide IsNew, LastPart;
    var first, rest := updates[0], updates[1..];
    assert updates == [first] + rest;
    if exists v <- rest :: IsNew(lines, v) && '\\' in LastPart(v.0) {
      u := LongestOf(lines, rest);
      if IsNew(lines, first) && '\\' in LastPart(first.0) && |first.0| > |u.0| {
        u := first;
      }
    } else {
      u := first;
    }
  }

  lemma KeyOfEntry(path: Path, u: Update)
    requires LocalKey(path, u.0).Some? && EntryReads(LastPart(u.0), u.1)
    ensures var key := LastPart(u.0);
            && Entry(key, u.1) == Assignment(key, AllWord(key), u.1)
            && |KeyRead(key, AllWord(key))| <= |key|
            && ('\\' in KeyRead(key, AllWord(key)) ==>
                  '\\' in key && |KeyRead(key, AllWord(key))| < |key|)
            && |u.0| == |Join(path)| + 1 + |key|
  {
    hide StringFills, ValueReads, KeyRead, Join, LastPart;
    var key := LastPart(u.0);
    LocalIsLast(path, u.0);
    assert u.0 == (Join(path) + ".") + key;
    if AllWord(key) {
      assert KeyRead(key, true) == key by {
        BareKeyRead(key);
      }
      assert '\\' !in key;
    } else {
      EscapedKeyRead(key);
      if '\\' !in key && '"' !in key {
        PlainKeyRead(key, false);
      }
    }
  }

  lemma BareKeyRead(key: string)
    ensures KeyRead(key, true) == key
  {
  }

  // A path that no line assigns as Lua reads its key keeps no value.
  lemma {:induction false} EntriesMiss(m: Tables, pending: seq<Update>, p: Path)
    requires m.path != [] && LeafAt(m.leaves, p) == None
    requires forall u <- pending :: u.1 != DELETE && LocalKey(m.path, u.0).Some? ==>
               EntryReads(LastPart(u.0), u.1) && m.path + [KeyRead(LastPart(u.0), AllWord(LastPart(u.0)))] != p
    ensures LeafAt(Evaluated(m, NewEntries(m.path, pending)).leaves, p) == None
    ensures Evaluated(m, NewEntries(m.path, pending)).path == m.path
    decreases |pending|
  {
    if pending != [] {
      hide KeyRead, LocalKey, EntryReads, LastPart, Join, AllWord;
      var u, first, rest := pending[0], NewEntry(m.path, pending[0]), NewEntries(m.path, pending[1..]);
      assert u in pending;
      EvaluatedAppend(m, first, rest);
      var next := EntryEvaluated(m, u, p);
      if u.1 != DELETE && LocalKey(m.path, u.0).Some? {
        LocalIsLast(m.path, u.0);
        KeyOfEntry(m.path, u);
        assert first == [Entry(LastPart(u.0), u.1)];
        EvaluatedOne(m, Entry(LastPart(u.0), u.1));
      }
      EntriesMiss(next, pending[1..], p);
    }
  }

  // What is left to do while the path p, whose last key holds a backslash, is never assigned.
  ghost predicate Misses(st: State, lines: seq<Line>, p: Path) {
    && DotFree(st.path) && (forall line <- lines :: DotFreeLine(line) && ReadsAsItself(line))
    && Assigned(st.path, lines, Join(p)) == 0
    && (forall u <- st.pending :: Escapes(st.path, lines, u) ==> |u.0| <= |Join(p)|)
    && (forall u <- st.pending :: u.1 != DELETE && Reaches(st.path, lines, u.0) ==> EntryReads(LastPart(u.0), u.1))
  }

  lemma MissesStep(st: State, lines: seq<Line>, p: Path)
    requires lines != [] && Misses(st, lines, p)
    ensures Misses(Next(st, lines[0]), lines[1..], p)
  {
    hide Join, LastPart, EntryReads, KeyRead, LocalKey, DotFree, DotFreeLine, ReadsAsItself;
    var line, next := lines[0], Next(st, lines[0]);
    assert line in lines;
    NextPath(st, line);
    MovedDotFree(st.path, line);
    NextPending(st, line);
    forall u | u in next.pending
      ensures Escapes(next.path, lines[1..], u) ==> Escapes(st.path, lines, u)
      ensures Reaches(next.path, lines[1..], u.0) ==> Reaches(st.path, lines, u.0)
    {
      if line.Assignment? {
        WithoutMembers(st.pending, Join(st.path + [line.key]), u);
      }
      EscapesFirst(st.path, lines, u);
    }
  }

  lemma MissesNow(st: State, lines: seq<Line>, m: Tables, p: Path)
    requires lines != [] && Misses(st, lines, p) && m.path == st.path && LeafAt(m.leaves, p) == None
    requires |p| > 1 && DotFree(p) && '\\' in p[|p| - 1]
    ensures LeafAt(Evaluated(m, Rewritten(st, lines[0])).leaves, p) == None
    ensures Evaluated(m, Rewritten(st, lines[0])).path == Moved(st.path, lines[0])
  {
    hide Join, LastPart, EntryReads, KeyRead, LocalKey, DotFree, DotFreeLine, NewEntries, Lookup;
    var line := lines[0];
    assert line in lines;
    EvaluatedOne(m, line);
    match line {
      case TableEnd =>
        if st.path == [] {
          assert [] + [TableEnd] == [TableEnd];
        } else {
          var entries := NewEntries(st.path, st.pending);
          forall u | u in st.pending && u.1 != DELETE && LocalKey(st.path, u.0).Some?
            ensures EntryReads(LastPart(u.0), u.1)
            ensures st.path + [KeyRead(LastPart(u.0), AllWord(LastPart(u.0)))] != p
          {
            MissesEntry(st, lines, p, u);
          }
          EntriesMiss(m, st.pending, p);
          EvaluatedAppend(m, entries, [TableEnd]);
          EvaluatedOne(Evaluated(m, entries), TableEnd);
        }
      case Assignment(key, bare, value) =>
        assert st.path + [key] != p;
        EvaluatedOne(m, Blank);
        match Lookup(st.pending, Join(st.path + [key])) {
          case Some(v) => EvaluatedOne(m, Assignment(key, bare, v));
          case None =>
        }
      case _ =>
    }
  }

  lemma MissesEntry(st: State, lines: seq<Line>, p: Path, u: Update)
    requires lines != [] && lines[0] == TableEnd && st.path != [] && Misses(st, lines, p)
    requires |p| > 1 && DotFree(p) && '\\' in p[|p| - 1]
    requires u in st.pending && u.1 != DELETE && LocalKey(st.path, u.0).Some?
    ensures EntryReads(LastPart(u.0), u.1)
    ensures st.path + [KeyRead(LastPart(u.0), AllWord(LastPart(u.0)))] != p
  {
    hide Join, LastPart, EntryReads, KeyRead, LocalKey, DotFree, DotFreeLine, AllWord;
    assert Reaches(st.path, lines, u.0);
    KeyOfEntry(st.path, u);
    var read := KeyRead(LastPart(u.0), AllWord(LastPart(u.0)));
    if st.path + [read] == p {
      assert read == p[|p| - 1];
      EscapesFirst(st.path, lines, u);
      LengthOfChild(st.path, read);
    }
  }

  lemma LengthOfChild(path: Path, key: string)
    requires path != []
    ensures |Join(path + [key])| == |Join(path)| + 1 + |key|
  {
    assert (path + [key])[..|path|] == path;
  }

  lemma {:induction false} MissesAll(st: State, lines: seq<Line>, m: Tables, p: Path)
    requires Misses(st, lines, p) && m.path == st.path && LeafAt(m.leaves, p) == None
    requires |p| > 1 && DotFree(p) && '\\' in p[|p| - 1]
    ensures LeafAt(Evaluated(m, Flatten(RewriteAll(st, lines))).leaves, p) == None
    decreases |lines|
  {
    hide Misses, Rewritten, Next, Flatten, RewriteAll, DotFree;
    if lines == [] {
      RewriteNone(st);
    } else {
      var group := Rewritten(st, lines[0]);
      MissesNow(st, lines, m, p);
      MissesStep(st, lines, p);
      NextPath(st, lines[0]);
      MissesAll(Next(st, lines[0]), lines[1..], Evaluated(m, group), p);
      RewriteFirst(st, lines);
      EvaluatedAppend(m, group, Flatten(RewriteAll(Next(st, lines[0]), lines[1..])));
    }
  }

  lemma EscapeBreaksLens(lines: seq<Line>, updates: seq<Update>)
    requires Loads([], lines) && Tidy(lines) && DistinctPaths(updates) && Fits(lines, updates)
    requires !KeysPlain(lines, updates)
    ensures !Lens(lines, updates)
  {
    hide Loads, Times, Opens, UpdatedConfig, DistinctPaths, Join, Assigned, ClosesTableOf, LastPart, EntryReads,
         ValueReads, KeyRead, LuaValue, Lookup, DotFree, DotFreeLine, ReadsAsItself;
    var u := LongestOf(lines, updates);
    var p := PathOfNew(lines, u);
    LongestMisses(lines, updates, u, p);
    NoneSaved(lines, updates, p);
    LookupOf(updates, u);
    ClosesItsTable([], lines, p);
    assert !LensAt(lines, updates, p);
  }

  lemma PathOfNew(lines: seq<Line>, u: Update) returns (p: Path)
    requires Tidy(lines) && IsNew(lines, u)
    ensures |p| > 1 && DotFree(p) && Join(p) == u.0 && LastPart(u.0) == p[|p| - 1]
  {
    hide Times, Join, Assigned, ClosesTableOf, LastPart, DotFree, DotFreeLine;
    assert DotFree([]) by {
      NoKeys();
    }
    p := PathOfClosed([], lines, u.0);
    LastOfJoin(p);
  }

  lemma NoKeys()
    ensures DotFree([])
  {
  }

  lemma LongestMisses(lines: seq<Line>, updates: seq<Update>, u: Update, p: Path)
    requires Tidy(lines) && Fits(lines, updates) && Longest(lines, updates, u) && Join(p) == u.0
    ensures Misses(State([], updates), lines, p)
  {
    hide Times, Join, Assigned, ClosesTableOf, LastPart, EntryReads, ValueReads, DotFreeLine, ReadsAsItself, Reaches;
    forall v | v in updates
      ensures Reaches([], lines, v.0) && v.1 != DELETE <==> IsNew(lines, v)
    {
      ReachesIs(lines, v.0);
    }
  }

  lemma NoneSaved(lines: seq<Line>, updates: seq<Update>, p: Path)
    requires Misses(State([], updates), lines, p) && |p| > 1 && DotFree(p) && '\\' in p[|p| - 1]
    ensures LuaValue(UpdatedConfig(lines, updates), p) == None
  {
    hide Misses, Flatten, RewriteAll, DropBlanks, DotFree;
    MissesAll(State([], updates), lines, Tables([], map[]), p);
    EvaluatedWithoutBlanks(Tables([], map[]), Flatten(RewriteAll(State([], updates), lines)));
  }

  /** The lens law, as Lua reads the file, for every save that leaves a file that loads: each path has its new value
      or is gone, is added exactly when it was not there and its table is, and otherwise keeps its old value, if and
      only if no new key holds a backslash and nothing has or gets a value below one written over a table. The file
      is tidy again if and only if no value is written over a table within a table at all. */
  lemma SavedFileLaw(lines: seq<Line>, updates: seq<Update>)
    requires Loads([], lines) && Tidy(lines) && DistinctPaths(updates) && Fits(lines, updates)
    ensures Lens(lines, updates) <==> KeysPlain(lines, updates) && NothingLost(lines, updates)
    ensures Tidy(UpdatedConfig(lines, updates)) <==> KeysPlain(lines, updates) && SparesTables(lines, updates)
    ensures SparesTables(lines, updates) ==> NothingLost(lines, updates)
  {
    hide Loads, Tidy, DistinctPaths, UpdatedConfig, Join, Fits, Lens, NothingLost, SparesTables, KeysPlain;
    SavedTidy(lines, updates);
    if KeysPlain(lines, updates) {
      PlainLens(lines, updates);
    } else {
      EscapeBreaksLens(lines, updates);
    }
    if SparesTables(lines, updates) {
      SparedLosesNothing(lines, updates);
    }
  }

  lemma SparedLosesNothing(lines: seq<Line>, updates: seq<Update>)
    requires SparesTables(lines, updates)
    ensures NothingLost(lines, updates)
  {
    hide Join, Opens, Saved, LuaValue, Addable;
    forall p: Path
      ensures !Overwrites(lines, updates, p)
    {
    }
  }

  // ---------------------------------------------------------------------------------------------
  // Runs of saves
  // ---------------------------------------------------------------------------------------------

  function SaveAll(lines: seq<Line>, saves: seq<seq<Update>>): seq<Line>
    decreases |saves|
  {
    if saves == [] then lines else SaveAll(UpdatedConfig(lines, saves[0]), saves[1..])
  }

  function SavedAll(before: Option<string>, saves: seq<seq<Update>>, k: string, addable: bool): Option<string>
    decreases |saves|
  {
    if saves == [] then before else SavedAll(Saved(Lookup(saves[0], k), before, addable), saves[1..], k, addable)
  }

  // The file loads and is tidy after every save of the run.
  ghost predicate StaysTidy(lines: seq<Line>, saves: seq<seq<Update>>)
    decreases |saves|
  {
    Loads([], lines) && Tidy(lines) && (saves != [] ==> StaysTidy(UpdatedConfig(lines, saves[0]), saves[1..]))
  }

  // A save that leaves a file that loads and is tidy.
  ghost predicate FitsWell(lines: seq<Line>, updates: seq<Update>) {
    Fits(lines, updates) && KeysPlain(lines, updates) && SparesTables(lines, updates)
  }

  // Each save fits the file that it finds.
  ghost predicate AllFit(lines: seq<Line>, saves: seq<seq<Update>>)
    decreases |saves|
  {
    saves != [] ==> FitsWell(lines, saves[0]) && AllFit(UpdatedConfig(lines, saves[0]), saves[1..])
  }

  // The updates come from a map, and each is one line of text when it is written.
  predicate IsSave(updates: seq<Update>) {
    DistinctPaths(updates) && QuoteFree(updates) && forall u <- updates :: '\n' !in u.0 && '\n' !in u.1
  }

  /** A run of saves: the file loads and is tidy all along if and only if each save fits the file that it finds;
      then the run acts on each path by itself and keeps the nesting. */
  lemma {:induction false} RunOfSaves(lines: seq<Line>, saves: seq<seq<Update>>, p: Path)
    requires Loads([], lines) && Tidy(lines) && forall updates <- saves :: IsSave(updates)
    requires p != [] && DotFree(p)
    ensures StaysTidy(lines, saves) <==> AllFit(lines, saves)
    ensures AllFit(lines, saves) ==>
              && Skeleton(SaveAll(lines, saves)) == Skeleton(lines)
              && LuaValue(SaveAll(lines, saves), p) ==
                 SavedAll(LuaValue(lines, p), saves, Join(p), Addable(lines, p))
    decreases |saves|
  {
    hide Loads, Tidy, UpdatedConfig, Join, LuaValue, Saved, Skeleton, Addable, FitsWell, DistinctPaths, QuoteFree;
    if saves != [] {
      var next := UpdatedConfig(lines, saves[0]);
      assert IsSave(saves[0]);
      OneSave(lines, saves[0], p);
      if FitsWell(lines, saves[0]) {
        NestingUnchanged(lines, saves[0]);
        StillAddable(lines, next, p);
        RunOfSaves(next, saves[1..], p);
      } else {
        NotTidyAnyMore(next, saves[1..]);
      }
    }
  }

  lemma OneSave(lines: seq<Line>, updates: seq<Update>, p: Path)
    requires Loads([], lines) && Tidy(lines) && DistinctPaths(updates) && QuoteFree(updates) && p != [] && DotFree(p)
    ensures var t := UpdatedConfig(lines, updates);
            && (Loads([], t) && Tidy(t) <==> FitsWell(lines, updates))
            && (FitsWell(lines, updates) ==>
                  LuaValue(t, p) == Saved(Lookup(updates, Join(p)), LuaValue(lines, p), Addable(lines, p)))
  {
    hide Loads, Tidy, UpdatedConfig, Join, LuaValue, Saved, Addable, Fits, KeysPlain, SparesTables, DistinctPaths,
         Overwrites, Lookup;
    SavedFileLoads(lines, updates);
    if Fits(lines, updates) {
      SavedTidy(lines, updates);
      if FitsWell(lines, updates) {
        SparedIsOpen(lines, updates, p);
        SavedValue(lines, updates, p);
      }
    }
  }

  lemma SparedIsOpen(lines: seq<Line>, updates: seq<Update>, q: Path)
    requires SparesTables(lines, updates)
    ensures Open(lines, updates, q)
  {
    hide Join, Opens;
  }

  lemma NotTidyAnyMore(lines: seq<Line>, saves: seq<seq<Update>>)
    requires !Loads([], lines) || !Tidy(lines)
    ensures !StaysTidy(lines, saves)
  {
    hide Loads, Tidy;
  }

  lemma StillAddable(lines: seq<Line>, next: seq<Line>, p: Path)
    requires Skeleton(next) == Skeleton(lines) && p != []
    ensures Addable(next, p) == Addable(lines, p)
  {
    hide Skeleton, Opens;
    OpensOfSkeleton([], next, p[..|p| - 1]);
    OpensOfSkeleton([], lines, p[..|p| - 1]);
  }
}
