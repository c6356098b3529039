/**
 The Foothold configuration editor: a file of nested Lua tables, one entry to a line, is updated line by
 line from a map of dotted paths. Lines are taken as the editor's patterns classify them, with the text
 of a value left as it is.
*/
module Foothold {
  import opened Options

  // The key of a table or a value stands in brackets and quotes, or bare.
  datatype Line =
    | TableStart(key: string, bare: bool)
    | TableEnd
    | Assignment(key: string, bare: bool, value: string)
    | Blank
    | Other(text: string)
    | Broken(text: string)  // a line that no pattern of the editor matches and that Lua cannot read

  datatype Json = JNull | JBool(b: bool) | JNumber(text: string) | JString(s: string) | JNested

  // An update is a dotted path and the Lua text of its new value, or the word that asks for deletion.
  type Update = (string, string)

  const DELETE := "__DELETE__"

  // ---------------------------------------------------------------------------------------------
  // Updates
  // ---------------------------------------------------------------------------------------------

  function EscapeQuotes(s: string): string {
    if s == "" then "" else (if s[0] == '"' then "\\\"" else [s[0]]) + EscapeQuotes(s[1..])
  }

  // A table literal from the page goes into the file as it is; any other string is quoted.
  function ToLua(value: Json): Option<string> {
    match value
    case JNull => Some(DELETE)
    case JString(s) =>
      if s != "" && s[0] == '{' && s[|s| - 1] == '}' then Some(s) else Some("\"" + EscapeQuotes(s) + "\"")
    case JBool(b) => Some(if b then "true" else "false")
    case JNumber(text) => Some(text)
    case JNested => None
  }

  /** Only null asks for deletion: no string, not even the word itself, is mistaken for it. */
  lemma OnlyNullDeletes(value: Json)
    requires value.JNumber? ==> value.text != DELETE
    ensures ToLua(value) == Some(DELETE) <==> value == JNull
  {
    if value.JString? {
      assert ToLua(value).value[0] == '{' || ToLua(value).value[0] == '"';
      assert DELETE[0] == '_';
    }
    if value.JBool? {
      assert |"true"| == 4 && |"false"| == 5 && |DELETE| == 10;
    }
  }

  function Lookup(updates: seq<Update>, k: string): Option<string> {
    if updates == [] then None
    else if updates[0].0 == k then Some(updates[0].1)
    else Lookup(updates[1..], k)
  }

  // An update that has been applied is taken out.
  function Without(updates: seq<Update>, k: string): seq<Update> {
    if updates == [] then []
    else if updates[0].0 == k then Without(updates[1..], k)
    else [updates[0]] + Without(updates[1..], k)
  }

  function Join(path: seq<string>): string {
    if path == [] then ""
    else if |path| == 1 then path[0]
    else Join(path[..|path| - 1]) + "." + path[|path| - 1]
  }

  // ---------------------------------------------------------------------------------------------
  // The editor
  // ---------------------------------------------------------------------------------------------

  predicate IsWordChar(c: char) {
    c == '_' || '0' <= c <= '9' || 'a' <= c <= 'z' || 'A' <= c <= 'Z'
  }

  predicate AllWord(key: string) {
    forall c <- key :: IsWordChar(c)
  }

  // Once it is written, the editor's patterns find the key again.
  predicate Recognized(key: string) {
    if AllWord(key) then key != "" && !('0' <= key[0] <= '9') else '"' !in key
  }

  // A new line; a key of word characters is written bare.
  function Entry(key: string, value: string): Line {
    if Recognized(key) then Assignment(key, AllWord(key), value)
    else Broken((if AllWord(key) then key else "[\"" + key + "\"]") + " = " + value)
  }

  // The part of k below the table at path, if k names a direct entry of that table.
  function LocalKey(path: seq<string>, k: string): Option<string> {
    var prefix := Join(path) + ".";
    if prefix <= k && '.' !in k[|prefix|..] then Some(k[|prefix|..]) else None
  }

  function NewEntry(path: seq<string>, update: Update): seq<Line> {
    match LocalKey(path, update.0)
    case None => []
    case Some(key) =>
      if update.1 == DELETE then [] else [Entry(key, update.1)]
  }

  function NewEntries(path: seq<string>, pending: seq<Update>): seq<Line> {
    if pending == [] then [] else NewEntry(path, pending[0]) + NewEntries(path, pending[1..])
  }

  datatype State = State(path: seq<string>, pending: seq<Update>)

  function Pop(path: seq<string>): seq<string> {
    if path == [] then [] else path[..|path| - 1]
  }

  // The lines that take the place of a line.
  function Rewritten(st: State, line: Line): seq<Line> {
    match line
    case TableEnd => (if st.path == [] then [] else NewEntries(st.path, st.pending)) + [line]
    case Assignment(key, bare, _) =>
      (match Lookup(st.pending, Join(st.path + [key]))
       case None => [line]
       case Some(value) => if value == DELETE then [Blank] else [Assignment(key, bare, value)])
    case _ => [line]
  }

  function Next(st: State, line: Line): State {
    match line
    case TableEnd => st.(path := Pop(st.path))
    case TableStart(key, _) => st.(path := st.path + [key])
    case Assignment(key, _, _) => st.(pending := Without(st.pending, Join(st.path + [key])))
    case _ => st
  }

  function RewriteAll(st: State, lines: seq<Line>): seq<seq<Line>>
    decreases |lines|
  {
    if lines == [] then [] else [Rewritten(st, lines[0])] + RewriteAll(Next(st, lines[0]), lines[1..])
  }

  function Flatten(groups: seq<seq<Line>>): seq<Line> {
    if groups == [] then [] else groups[0] + Flatten(groups[1..])
  }

  function DropBlanks(lines: seq<Line>): seq<Line> {
    if lines == [] then [] else (if lines[0] == Blank then [] else [lines[0]]) + DropBlanks(lines[1..])
  }

  // Blanked lines go, unless the file had blank lines of its own; then all of them stay.
  function UpdatedConfig(lines: seq<Line>, updates: seq<Update>): seq<Line> {
    var all := Flatten(RewriteAll(State([], updates), lines));
    if Blank in lines then all else DropBlanks(all)
  }

  lemma WithoutAbsent(updates: seq<Update>, k: string)
    requires Lookup(updates, k) == None
    ensures Without(updates, k) == updates
  {
  }

  lemma RewriteAllStep(st: State, lines: seq<Line>, i: nat)
    requires i < |lines|
    ensures RewriteAll(st, lines[i..]) ==
            [Rewritten(st, lines[i])] + RewriteAll(Next(st, lines[i]), lines[i + 1..])
  {
    assert lines[i..][1..] == lines[i + 1..];
  }

  /** The loop over the lines, which rewrites each of them in place. */
  method RewriteLines(a: array<seq<Line>>, updates: seq<Update>)
    requires forall i :: 0 <= i < a.Length ==> |a[i]| == 1
    modifies a
    ensures a[..] == RewriteAll(State([], updates), old(Flatten(a[..])))
  {
    hide RewriteAll, Flatten, Lookup, Without, Join, NewEntries, Pop;
    ghost var lines := Flatten(a[..]);
    SingletonsFlat(a[..]);
    var currentPath: seq<string> := [];
    var pending := updates;
    assert a[..0] == [] && lines[0..] == lines;
    for i := 0 to a.Length
      invariant |lines| == a.Length
      invariant forall j :: i <= j < a.Length ==> a[j] == [lines[j]]
      invariant a[..i] + RewriteAll(State(currentPath, pending), lines[i..]) ==
                RewriteAll(State([], updates), lines)
    {
      var line := a[i][0];
      ghost var st, done := State(currentPath, pending), a[..i];
      RewriteAllStep(st, lines, i);
      match line {
        case TableEnd =>
          if currentPath != [] {
            a[i] := NewEntries(currentPath, pending) + [line];
          } else {
            assert [] + [line] == [line];
          }
          currentPath := Pop(currentPath);
        case TableStart(key, _) =>
          currentPath := currentPath + [key];
        case Assignment(key, bare, _) =>
          var full := Join(currentPath + [key]);
          match Lookup(pending, full) {
            case Some(value) =>
              a[i] := if value == DELETE then [Blank] else [Assignment(key, bare, value)];
              pending := Without(pending, full);
            case None =>
              WithoutAbsent(pending, full);
          }
        case _ =>
      }
      assert State(currentPath, pending) == Next(st, line) && a[i] == Rewritten(st, line);
      assert a[..i + 1] == done + [Rewritten(st, line)];
    }
    NoLinesLeft(State(currentPath, pending));
    assert a[..a.Length] == a[..] && lines[a.Length..] == [];
  }

  lemma NoLinesLeft(st: State)
    ensures RewriteAll(st, []) == []
  {
  }

  lemma {:induction false} SingletonsFlat(groups: seq<seq<Line>>)
    requires forall i :: 0 <= i < |groups| ==> |groups[i]| == 1
    ensures |Flatten(groups)| == |groups|
    ensures forall i :: 0 <= i < |groups| ==> groups[i] == [Flatten(groups)[i]]
  {
    if groups != [] {
      SingletonsFlat(groups[1..]);
    }
  }

  // ---------------------------------------------------------------------------------------------
  // What a file means: a value for every dotted path
  // ---------------------------------------------------------------------------------------------

  datatype Meaning = Meaning(path: seq<string>, leaves: map<string, string>)

  function Read(m: Meaning, line: Line): Meaning {
    match line
    case TableStart(key, _) => m.(path := m.path + [key])
    case TableEnd => m.(path := Pop(m.path))
    case Assignment(key, _, value) => m.(leaves := m.leaves[Join(m.path + [key]) := value])
    case _ => m
  }

  function After(m: Meaning, lines: seq<Line>): Meaning
    decreases |lines|
  {
    if lines == [] then m else After(Read(m, lines[0]), lines[1..])
  }

  const START := Meaning([], map[])

  function Denotes(lines: seq<Line>): map<string, string> {
    After(START, lines).leaves
  }

  function Get(leaves: map<string, string>, k: string): Option<string> {
    if k in leaves then Some(leaves[k]) else None
  }

  // The open table after a line.
  function Moved(path: seq<string>, line: Line): seq<string> {
    match line
    case TableStart(key, _) => path + [key]
    case TableEnd => Pop(path)
    case _ => path
  }

  // How often k is assigned by the lines of a file, read from inside the table at path.
  function Assigned(path: seq<string>, lines: seq<Line>, k: string): nat
    decreases |lines|
  {
    if lines == [] then 0
    else
      (if lines[0].Assignment? && Join(path + [lines[0].key]) == k then 1 else 0)
      + Assigned(Moved(path, lines[0]), lines[1..], k)
  }

  predicate IsParent(path: seq<string>, k: string) {
    path != [] && LocalKey(path, k).Some? && Recognized(LocalKey(path, k).value)
  }

  // Whether the lines close a table that k can be written into.
  predicate ClosesParent(path: seq<string>, lines: seq<Line>, k: string)
    decreases |lines|
  {
    lines != [] &&
    ((lines[0] == TableEnd && IsParent(path, k))
     || ClosesParent(Moved(path, lines[0]), lines[1..], k))
  }

  lemma {:induction false} AfterAppend(m: Meaning, a: seq<Line>, b: seq<Line>)
    ensures After(m, a + b) == After(After(m, a), b)
    decreases |a|
  {
    if a == [] {
      assert a + b == b;
    } else {
      assert (a + b)[1..] == a[1..] + b;
      AfterAppend(Read(m, a[0]), a[1..], b);
    }
  }

  lemma {:induction false} BlanksMeanNothing(m: Meaning, lines: seq<Line>)
    ensures After(m, DropBlanks(lines)) == After(m, lines)
    decreases |lines|
  {
    if lines != [] {
      BlanksMeanNothing(Read(m, lines[0]), lines[1..]);
      if lines[0] == Blank {
        assert DropBlanks(lines) == DropBlanks(lines[1..]);
      } else {
        assert DropBlanks(lines)[1..] == DropBlanks(lines[1..]);
      }
    }
  }

  // ---------------------------------------------------------------------------------------------
  // The law of the editor
  // ---------------------------------------------------------------------------------------------

  predicate DistinctPaths(updates: seq<Update>) {
    forall i, j :: 0 <= i < j < |updates| ==> updates[i].0 != updates[j].0
  }

  lemma JoinChild(path: seq<string>, k: string)
    requires path != [] && LocalKey(path, k).Some?
    ensures Join(path + [LocalKey(path, k).value]) == k
  {
    var prefix := Join(path) + ".";
    assert (path + [LocalKey(path, k).value])[..|path|] == path;
    assert k == prefix + k[|prefix|..];
  }

  // The entries written at the end of a table set exactly the pending paths they name.
  lemma {:induction false} NewEntriesSet(m: Meaning, pending: seq<Update>, k: string)
    requires m.path != [] && DistinctPaths(pending)
    ensures var r := After(m, NewEntries(m.path, pending));
            && r.path == m.path
            && Get(r.leaves, k) ==
               (match Lookup(pending, k)
                case Some(value) => if value != DELETE && IsParent(m.path, k) then Some(value) else Get(m.leaves, k)
                case None => Get(m.leaves, k))
    decreases |pending|
  {
    if pending != [] {
      var update := pending[0];
      var first := NewEntry(m.path, update);
      AfterAppend(m, first, NewEntries(m.path, pending[1..]));
      NewEntrySets(m, update, k);
      NewEntriesSet(After(m, first), pending[1..], k);
      if update.0 == k {
        LookupAbsent(pending[1..], k);
      }
    }
  }

  lemma {:induction false} LookupAbsent(updates: seq<Update>, k: string)
    requires forall u <- updates :: u.0 != k
    ensures Lookup(updates, k) == None
  {
    if updates != [] {
      LookupAbsent(updates[1..], k);
    }
  }

  lemma NewEntrySets(m: Meaning, update: Update, k: string)
    requires m.path != []
    ensures var r := After(m, NewEntry(m.path, update));
            && r.path == m.path
            && Get(r.leaves, k) ==
               if update.0 == k && update.1 != DELETE && IsParent(m.path, k) then Some(update.1) else Get(m.leaves, k)
  {
    if LocalKey(m.path, update.0).Some? {
      JoinChild(m.path, update.0);
    }
  }

  lemma {:induction false} WithoutLookup(updates: seq<Update>, gone: string, k: string)
    ensures Lookup(Without(updates, gone), k) == if k == gone then None else Lookup(updates, k)
  {
    if updates != [] {
      WithoutLookup(updates[1..], gone, k);
    }
  }

  lemma {:induction false} WithoutDistinct(updates: seq<Update>, gone: string)
    requires DistinctPaths(updates)
    ensures DistinctPaths(Without(updates, gone))
    ensures forall u <- Without(updates, gone) :: u in updates
  {
    if updates != [] {
      WithoutDistinct(updates[1..], gone);
      forall u | u in Without(updates[1..], gone)
        ensures u.0 != updates[0].0
      {
        var j :| 0 <= j < |updates[1..]| && updates[1..][j] == u;
        assert updates[j + 1] == u;
      }
    }
  }

  // What has become of path k after its count-th assignment: `inserted` says whether a table that can
  // hold it has been closed.
  function Expected(update: Option<string>, count: nat, inserted: bool, original: Option<string>): Option<string> {
    match update
    case None => original
    case Some(value) =>
      if count >= 2 then original
      else if value == DELETE then None
      else if count == 1 || inserted then Some(value)
      else None
  }

  // One line, for one path k.
  lemma RewriteStep(st: State, line: Line, m: Meaning, r: Meaning, k: string, update: Option<string>,
                    count: nat, inserted: bool)
    requires DistinctPaths(st.pending) && m.path == st.path && r.path == st.path
    requires Lookup(st.pending, k) == if count == 0 then update else None
    requires Get(r.leaves, k) == Expected(update, count, inserted, Get(m.leaves, k))
    ensures var more := if line.Assignment? && Join(st.path + [line.key]) == k then 1 else 0;
            var st2, m2, r2 := Next(st, line), Read(m, line), After(r, Rewritten(st, line));
            && DistinctPaths(st2.pending) && m2.path == st2.path && r2.path == st2.path
            && Lookup(st2.pending, k) == (if count + more == 0 then update else None)
            && Get(r2.leaves, k) ==
               Expected(update, count + more, inserted || (line == TableEnd && IsParent(st.path, k)), Get(m2.leaves, k))
  {
    hide IsParent, LocalKey, Join, DistinctPaths, NewEntries;
    match line {
      case TableEnd =>
        RewrittenEnd(st, r, k);
      case Assignment(key, _, _) =>
        WithoutLookup(st.pending, Join(st.path + [key]), k);
        WithoutDistinct(st.pending, Join(st.path + [key]));
      case _ =>
    }
  }

  lemma RewrittenEnd(st: State, r: Meaning, k: string)
    requires DistinctPaths(st.pending) && r.path == st.path
    ensures var r2, update := After(r, Rewritten(st, TableEnd)), Lookup(st.pending, k);
            && r2.path == Pop(r.path)
            && Get(r2.leaves, k) ==
               if update.Some? && update.value != DELETE && IsParent(st.path, k) then update else Get(r.leaves, k)
  {
    hide IsParent, DistinctPaths, NewEntries, Lookup, Pop;
    if st.path != [] {
      NewEntriesSet(r, st.pending, k);
      AfterAppend(r, NewEntries(st.path, st.pending), [TableEnd]);
    } else {
      NoParentAbove(k);
      assert [] + [TableEnd] == [TableEnd];
    }
    assert [TableEnd][1..] == [];
  }

  lemma NoParentAbove(k: string)
    ensures !IsParent([], k)
  {
  }

  lemma {:induction false} RewriteLaw(st: State, lines: seq<Line>, m: Meaning, r: Meaning, k: string,
                                      update: Option<string>, count: nat, inserted: bool)
    requires DistinctPaths(st.pending) && m.path == st.path && r.path == st.path
    requires Lookup(st.pending, k) == if count == 0 then update else None
    requires Get(r.leaves, k) == Expected(update, count, inserted, Get(m.leaves, k))
    ensures Get(After(r, Flatten(RewriteAll(st, lines))).leaves, k) ==
            Expected(update, count + Assigned(st.path, lines, k), inserted || ClosesParent(st.path, lines, k),
                     Get(After(m, lines).leaves, k))
    decreases |lines|
  {
    hide IsParent, Join, Expected, Rewritten, DistinctPaths, Get, Lookup;
    if lines != [] {
      var line := lines[0];
      RewriteStep(st, line, m, r, k, update, count, inserted);
      var more := if line.Assignment? && Join(st.path + [line.key]) == k then 1 else 0;
      var now := inserted || (line == TableEnd && IsParent(st.path, k));
      RewriteLaw(Next(st, line), lines[1..], Read(m, line), After(r, Rewritten(st, line)), k, update, count + more,
                 now);
      FlattenFirst(Rewritten(st, line), RewriteAll(Next(st, line), lines[1..]));
      AfterAppend(r, Rewritten(st, line), Flatten(RewriteAll(Next(st, line), lines[1..])));
    }
  }

  lemma FlattenFirst(group: seq<Line>, groups: seq<seq<Line>>)
    ensures Flatten([group] + groups) == group + Flatten(groups)
  {
    assert ([group] + groups)[1..] == groups;
  }

  /** The law, for any file, any updates with distinct paths in any order, and any path k. A path without
      an update keeps its value. An updated path that the file assigns once gets the new value or goes; one
      that it never assigns is added exactly when the file closes a table that can hold it; and one that it
      assigns more than once keeps its old value. */
  lemma UpdateLaw(lines: seq<Line>, updates: seq<Update>, k: string)
    requires DistinctPaths(updates)
    ensures Get(Denotes(UpdatedConfig(lines, updates)), k) ==
            Expected(Lookup(updates, k), Assigned([], lines, k), ClosesParent([], lines, k), Get(Denotes(lines), k))
  {
    hide Expected, Lookup, DistinctPaths, Flatten, RewriteAll, After;
    EmptyStart(Lookup(updates, k), k);
    RewriteLaw(State([], updates), lines, START, START, k, Lookup(updates, k), 0, false);
    BlanksMeanNothing(START, Flatten(RewriteAll(State([], updates), lines)));
  }

  /** A path that the file assigns twice keeps its second value, whatever it is updated to. */
  lemma SecondAssignmentStays(x: string, value: string)
    ensures var lines := [Assignment(x, true, "1"), Assignment(x, true, "2")];
            Get(Denotes(UpdatedConfig(lines, [(x, value)])), x) == Some("2")
  {
    hide UpdatedConfig;
    var lines, updates := [Assignment(x, true, "1"), Assignment(x, true, "2")], [(x, value)];
    assert lines[1..] == [Assignment(x, true, "2")] && lines[1..][1..] == [];
    assert [] + [x] == [x] && Join([x]) == x;
    assert Assigned([], lines[1..], x) == 1;
    assert After(Meaning([], map[x := "1"]), lines[1..]) == Meaning([], map[x := "1"][x := "2"]);
    UpdateLaw(lines, updates, x);
  }

  lemma EmptyStart(update: Option<string>, k: string)
    ensures Get(START.leaves, k) == Expected(update, 0, false, Get(START.leaves, k))
  {
  }
}
