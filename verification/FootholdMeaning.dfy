/**
 What Lua makes of a Foothold configuration: which lines it can read, and the value of every path, where
 assigning to a key replaces all that was there. An update keeps the nesting, and loads under an exact condition.
*/
module FootholdMeaning {
  import opened Options
  import opened Foothold
  import opened LuaPrinting
  import LuaText

  type Path = seq<string>

  // ---------------------------------------------------------------------------------------------
  // Keys and values as Lua 5.1 reads them
  // ---------------------------------------------------------------------------------------------

  // The words that are no names (section 2.1 of the Lua 5.1 reference manual).
  const RESERVED := ["and", "break", "do", "else", "elseif", "end", "false", "for", "function", "if", "in",
                     "local", "nil", "not", "or", "repeat", "return", "then", "true", "until", "while"]

  // The string that starts before position i is the rest of the text.
  predicate StringFills(text: string, i: nat)
    requires i <= |text|
  {
    var r := LuaText.ReadString(text, i, '"');
    r.Some? && r.value.1 == |text|
  }

  // A bare key is a name; one in brackets ends at the quote that was put after it.
  predicate KeyReads(key: string, bare: bool) {
    if bare then AllWord(key) && key != "" && !('0' <= key[0] <= '9') && key !in RESERVED
    else StringFills(key + "\"", 0)
  }

  // A value that starts as a string is that string and no more; other values are taken as they are.
  predicate ValueReads(value: string) {
    value != "" && value[0] == '"' ==> StringFills(value, 1)
  }

  predicate LineReads(line: Line) {
    match line
    case TableStart(key, bare) => KeyReads(key, bare)
    case Assignment(key, bare, value) => KeyReads(key, bare) && ValueReads(value)
    case Broken(_) => false
    case _ => true
  }

  // The key that Lua assigns: escapes in brackets stand for other characters.
  function KeyRead(key: string, bare: bool): string {
    var r := LuaText.ReadString(key + "\"", 0, '"');
    if bare || r.None? then key else r.value.0
  }

  predicate ReadsAsItself(line: Line) {
    (line.TableStart? || line.Assignment?) ==> KeyRead(line.key, line.bare) == line.key
  }

  // ---------------------------------------------------------------------------------------------
  // Tables
  // ---------------------------------------------------------------------------------------------

  // The leaves of the tables, by path, while the table at `path` is being read.
  datatype Tables = Tables(path: Path, leaves: map<Path, string>)

  // Assigning to a path replaces what was at it and below it.
  function Replaced(leaves: map<Path, string>, p: Path): map<Path, string> {
    map q | q in leaves && !(p <= q) :: leaves[q]
  }

  function Evaluate(m: Tables, line: Line): Tables {
    match line
    case TableStart(key, bare) =>
      var p := m.path + [KeyRead(key, bare)];
      Tables(p, Replaced(m.leaves, p))
    case TableEnd => m.(path := Pop(m.path))
    case Assignment(key, bare, value) =>
      var p := m.path + [KeyRead(key, bare)];
      m.(leaves := Replaced(m.leaves, p)[p := value])
    case _ => m
  }

  function Evaluated(m: Tables, lines: seq<Line>): Tables
    decreases |lines|
  {
    if lines == [] then m else Evaluated(Evaluate(m, lines[0]), lines[1..])
  }

  // The value that Lua leaves at a path.
  function LuaValue(lines: seq<Line>, p: Path): Option<string> {
    LeafAt(Evaluated(Tables([], map[]), lines).leaves, p)
  }

  function LeafAt(leaves: map<Path, string>, p: Path): Option<string> {
    if p in leaves then Some(leaves[p]) else None
  }

  // Lua can read the lines: every key and value, every brace closes a table that is open, and all are closed in
  // the end.
  predicate Loads(path: Path, lines: seq<Line>)
    decreases |lines|
  {
    if lines == [] then path == []
    else LineReads(lines[0]) && (lines[0] == TableEnd ==> path != []) && Loads(Moved(path, lines[0]), lines[1..])
  }

  // ---------------------------------------------------------------------------------------------
  // Tidy files
  // ---------------------------------------------------------------------------------------------

  predicate DotFree(p: Path) {
    forall key <- p :: '.' !in key
  }

  predicate DotFreeLine(line: Line) {
    (line.TableStart? || line.Assignment?) ==> '.' !in line.key
  }

  function Declared(path: Path, line: Line): Option<Path> {
    if line.TableStart? || line.Assignment? then Some(path + [line.key]) else None
  }

  function One(b: bool): nat {
    if b then 1 else 0
  }

  // How often the lines declare p, as a table or as a value.
  function Times(path: Path, lines: seq<Line>, p: Path): nat
    decreases |lines|
  {
    if lines == [] then 0
    else One(Declared(path, lines[0]) == Some(p)) + Times(Moved(path, lines[0]), lines[1..], p)
  }

  // How often they open the table p.
  function Opens(path: Path, lines: seq<Line>, p: Path): nat
    decreases |lines|
  {
    if lines == [] then 0
    else One(lines[0].TableStart? && path + [lines[0].key] == p) + Opens(Moved(path, lines[0]), lines[1..], p)
  }

  // No key holds a dot or stands for another one, and no path is declared twice.
  ghost predicate Tidy(lines: seq<Line>) {
    && (forall line <- lines :: DotFreeLine(line) && ReadsAsItself(line))
    && (forall p: Path :: Times([], lines, p) <= 1)
  }

  // ---------------------------------------------------------------------------------------------
  // Dotted paths
  // ---------------------------------------------------------------------------------------------

  lemma LastDotApart(a: string, x: string, b: string, y: string)
    requires |a| < |b| && '.' !in x
    ensures a + "." + x != b + "." + y
  {
    var s, t := a + "." + x, b + "." + y;
    assert t[|b|] == '.';
    if |b| < |s| {
      assert s[|b|] == x[|b| - |a| - 1];
    }
  }

  lemma SameSplit(a: string, x: string, b: string, y: string)
    requires a + "." + x == b + "." + y && '.' !in x && '.' !in y
    ensures a == b && x == y
  {
    if |a| < |b| {
      LastDotApart(a, x, b, y);
    } else if |b| < |a| {
      LastDotApart(b, y, a, x);
    } else {
      var s := a + "." + x;
      assert a == s[..|a|] && b == s[..|b|];
      assert x == s[|a| + 1..] && y == s[|b| + 1..];
    }
  }

  lemma JoinHoldsDot(p: Path)
    requires |p| > 1
    ensures '.' in Join(p)
  {
    assert Join(p)[|Join(p[..|p| - 1])|] == '.';
  }

  // On keys without dots, a dotted path names one path.
  lemma {:induction false} JoinApart(p: Path, q: Path)
    requires p != [] && q != [] && DotFree(p) && DotFree(q)
    ensures Join(p) == Join(q) ==> p == q
    decreases |p|
  {
    var pf, qf, pl, ql := p[..|p| - 1], q[..|q| - 1], p[|p| - 1], q[|q| - 1];
    assert p == pf + [pl] && q == qf + [ql];
    if |p| > 1 && |q| > 1 {
      JoinApart(pf, qf);
      if Join(p) == Join(q) {
        SameSplit(Join(pf), pl, Join(qf), ql);
      }
    } else if |p| > 1 {
      JoinHoldsDot(p);
      assert Join(q) == q[0];
    } else if |q| > 1 {
      JoinHoldsDot(q);
      assert Join(p) == p[0];
    }
  }

  lemma DotFreeAdd(p: Path, key: string)
    requires DotFree(p) && '.' !in key
    ensures DotFree(p + [key])
  {
  }

  lemma EvaluatedPath(m: Tables, line: Line)
    requires ReadsAsItself(line)
    ensures Evaluate(m, line).path == Moved(m.path, line)
  {
    hide KeyRead;
  }

  // ---------------------------------------------------------------------------------------------
  // The saved file is tidy again
  // ---------------------------------------------------------------------------------------------

  function MovedAll(path: Path, lines: seq<Line>): Path
    decreases |lines|
  {
    if lines == [] then path else MovedAll(Moved(path, lines[0]), lines[1..])
  }

  lemma {:induction false} TimesAppend(path: Path, a: seq<Line>, b: seq<Line>, p: Path)
    ensures Times(path, a + b, p) == Times(path, a, p) + Times(MovedAll(path, a), b, p)
    ensures MovedAll(path, a + b) == MovedAll(MovedAll(path, a), b)
    decreases |a|
  {
    if a == [] {
      assert a + b == b;
    } else {
      assert (a + b)[1..] == a[1..] + b;
      TimesAppend(Moved(path, a[0]), a[1..], b, p);
    }
  }

  lemma TimesOfOne(path: Path, line: Line, p: Path)
    ensures Times(path, [line], p) == One(Declared(path, line) == Some(p))
    ensures MovedAll(path, [line]) == Moved(path, line)
  {
    assert [line][1..] == [];
  }

  // The pending update writes a value to k.
  predicate Inserts(pending: seq<Update>, k: string) {
    Lookup(pending, k).Some? && Lookup(pending, k) != Some(DELETE)
  }

  lemma {:induction false} NewEntriesDeclare(path: Path, pending: seq<Update>, p: Path)
    requires path != [] && p != [] && DistinctPaths(pending)
    ensures MovedAll(path, NewEntries(path, pending)) == path
    ensures Times(path, NewEntries(path, pending), p) <= One(path == p[..|p| - 1] && Inserts(pending, Join(p)))
    decreases |pending|
  {
    if pending != [] {
      var update, rest := pending[0], pending[1..];
      NewEntriesDeclare(path, rest, p);
      TimesAppend(path, NewEntry(path, update), NewEntries(path, rest), p);
      if update.0 == Join(p) {
        LookupAbsent(rest, Join(p));
      }
    }
  }

  // What the lines that take the place of one line declare.
  lemma RewrittenDeclares(st: State, line: Line, p: Path)
    requires p != [] && DistinctPaths(st.pending)
    ensures MovedAll(st.path, Rewritten(st, line)) == Moved(st.path, line)
    ensures var n := Times(st.path, Rewritten(st, line), p);
            match line
            case TableEnd => n <= One(st.path != [] && st.path == p[..|p| - 1] && Inserts(st.pending, Join(p)))
            case TableStart(key, _) => n == One(st.path + [key] == p)
            case Assignment(key, _, _) => n == One(st.path + [key] == p && Lookup(st.pending, Join(p)) != Some(DELETE))
            case _ => n == 0
  {
    hide Join, NewEntries, Inserts, Times, MovedAll, Lookup;
    TimesOfOne(st.path, line, p);
    match line {
      case TableEnd => EndDeclares(st, p);
      case Assignment(key, bare, value) => AssignmentDeclares(st, key, bare, value, p);
      case _ =>
    }
  }

  lemma EndDeclares(st: State, p: Path)
    requires p != [] && DistinctPaths(st.pending)
    ensures MovedAll(st.path, Rewritten(st, TableEnd)) == Pop(st.path)
    ensures Times(st.path, Rewritten(st, TableEnd), p) <=
            One(st.path != [] && st.path == p[..|p| - 1] && Inserts(st.pending, Join(p)))
  {
    hide Join, NewEntries, Inserts, Times, MovedAll;
    TimesOfOne(st.path, TableEnd, p);
    if st.path == [] {
      assert [] + [TableEnd] == [TableEnd];
    } else {
      NewEntriesDeclare(st.path, st.pending, p);
      TimesAppend(st.path, NewEntries(st.path, st.pending), [TableEnd], p);
    }
  }

  lemma AssignmentDeclares(st: State, key: string, bare: bool, value: string, p: Path)
    ensures var group := Rewritten(st, Assignment(key, bare, value));
            && MovedAll(st.path, group) == st.path
            && Times(st.path, group, p) == One(st.path + [key] == p && Lookup(st.pending, Join(p)) != Some(DELETE))
  {
    hide Join, Times, MovedAll, Lookup;
    TimesOfOne(st.path, Assignment(key, bare, value), p);
    TimesOfOne(st.path, Blank, p);
    match Lookup(st.pending, Join(st.path + [key])) {
      case Some(v) => TimesOfOne(st.path, Assignment(key, bare, v), p);
      case None =>
    }
  }

  // How far the path p and its table have come: how often the table was opened and closed, how often the new
  // lines declare p, and what the lines to come can still do.
  ghost predicate OnTrack(st: State, lines: seq<Line>, p: Path, opens: nat, closed: nat, written: nat)
    requires p != []
  {
    var parent, k := p[..|p| - 1], Join(p);
    && DotFree(st.path) && DistinctPaths(st.pending)
    && (parent != [] ==> closed + One(parent <= st.path) == opens && opens + Opens(st.path, lines, parent) <= 1)
    && (parent == [] ==> closed == 0)
    && Times(st.path, lines, p) <= 1
    && if parent != [] && Inserts(st.pending, k) then written <= closed && Opens(st.path, lines, p) == 0
       else written + Times(st.path, lines, p) <= 1
  }

  lemma OnTrackEnd(st: State, lines: seq<Line>, p: Path, opens: nat, closed: nat, written: nat)
    requires p != [] && DotFree(p) && lines != [] && DotFreeLine(lines[0])
    requires OnTrack(st, lines, p, opens, closed, written)
    requires lines[0] == TableEnd
    ensures OnTrack(Next(st, lines[0]), lines[1..], p,
                    opens, closed + One(p[..|p| - 1] != [] && st.path == p[..|p| - 1]),
                    written + Times(st.path, Rewritten(st, lines[0]), p))
  {
    hide Join, Opens, Times, Rewritten, DotFree, Inserts, DistinctPaths;
    var line, parent := lines[0], p[..|p| - 1];
    RewrittenDeclares(st, line, p);
    TimesFirst(st.path, lines, p);
    OpensFirst(st.path, lines, p);
    OpensFirst(st.path, lines, parent);
    PopDotFree(st.path);
    if parent != [] {
      PrefixOfPop(parent, st.path);
    }
  }

  lemma OnTrackStart(st: State, lines: seq<Line>, p: Path, opens: nat, closed: nat, written: nat)
    requires p != [] && DotFree(p) && lines != [] && DotFreeLine(lines[0])
    requires OnTrack(st, lines, p, opens, closed, written)
    requires lines[0].TableStart?
    ensures OnTrack(Next(st, lines[0]), lines[1..], p,
                    opens + One(st.path + [lines[0].key] == p[..|p| - 1]), closed,
                    written + Times(st.path, Rewritten(st, lines[0]), p))
  {
    hide Join, Opens, Times, Rewritten, DotFree, Inserts, DistinctPaths;
    var line, parent := lines[0], p[..|p| - 1];
    RewrittenDeclares(st, line, p);
    TimesFirst(st.path, lines, p);
    OpensFirst(st.path, lines, p);
    OpensFirst(st.path, lines, parent);
    DotFreeAdd(st.path, line.key);
    PrefixOfMore(parent, st.path, line.key);
  }

  lemma OnTrackAssignment(st: State, lines: seq<Line>, p: Path, opens: nat, closed: nat, written: nat)
    requires p != [] && DotFree(p) && lines != [] && DotFreeLine(lines[0])
    requires OnTrack(st, lines, p, opens, closed, written)
    requires lines[0].Assignment?
    ensures OnTrack(Next(st, lines[0]), lines[1..], p, opens, closed,
                    written + Times(st.path, Rewritten(st, lines[0]), p))
  {
    hide Join, Opens, Times, Rewritten, DotFree, Inserts, DistinctPaths;
    var line, parent := lines[0], p[..|p| - 1];
    RewrittenDeclares(st, line, p);
    TimesFirst(st.path, lines, p);
    OpensFirst(st.path, lines, p);
    OpensFirst(st.path, lines, parent);
    var q := st.path + [line.key];
    DotFreeAdd(st.path, line.key);
    JoinApart(q, p);
    InsertsWithout(st.pending, Join(q), Join(p));
    WithoutDistinct(st.pending, Join(q));
    assert q == p ==> q[..|q| - 1] == st.path;
    InsertsIs(st.pending, Join(p));
  }

  lemma OnTrackOther(st: State, lines: seq<Line>, p: Path, opens: nat, closed: nat, written: nat)
    requires p != [] && DotFree(p) && lines != []
    requires OnTrack(st, lines, p, opens, closed, written)
    requires lines[0].Blank? || lines[0].Other? || lines[0].Broken?
    ensures OnTrack(Next(st, lines[0]), lines[1..], p, opens, closed,
                    written + Times(st.path, Rewritten(st, lines[0]), p))
  {
    hide Join, Opens, Times, Rewritten, DotFree, Inserts, DistinctPaths;
    RewrittenDeclares(st, lines[0], p);
    TimesFirst(st.path, lines, p);
    OpensFirst(st.path, lines, p);
    OpensFirst(st.path, lines, p[..|p| - 1]);
  }

  lemma InsertsIs(pending: seq<Update>, k: string)
    ensures Inserts(pending, k) ==> Lookup(pending, k) != Some(DELETE)
  {
  }

  lemma OnTrackStep(st: State, lines: seq<Line>, p: Path, opens: nat, closed: nat, written: nat)
    requires p != [] && DotFree(p) && lines != [] && DotFreeLine(lines[0])
    requires OnTrack(st, lines, p, opens, closed, written)
    ensures var line, parent := lines[0], p[..|p| - 1];
            OnTrack(Next(st, line), lines[1..], p,
                    opens + One(line.TableStart? && st.path + [line.key] == parent),
                    closed + One(line == TableEnd && parent != [] && st.path == parent),
                    written + Times(st.path, Rewritten(st, line), p))
  {
    hide OnTrack, Next, Times, Rewritten, DotFree, DotFreeLine;
    if lines[0] == TableEnd {
      OnTrackEnd(st, lines, p, opens, closed, written);
    } else if lines[0].TableStart? {
      OnTrackStart(st, lines, p, opens, closed, written);
    } else if lines[0].Assignment? {
      OnTrackAssignment(st, lines, p, opens, closed, written);
    } else {
      OnTrackOther(st, lines, p, opens, closed, written);
    }
  }

  lemma TimesFirst(path: Path, lines: seq<Line>, p: Path)
    requires lines != []
    ensures Times(path, lines, p) ==
            One(Declared(path, lines[0]) == Some(p)) + Times(Moved(path, lines[0]), lines[1..], p)
  {
  }

  lemma OpensFirst(path: Path, lines: seq<Line>, p: Path)
    requires lines != []
    ensures Opens(path, lines, p) ==
            One(lines[0].TableStart? && path + [lines[0].key] == p) + Opens(Moved(path, lines[0]), lines[1..], p)
  {
  }

  lemma PopDotFree(path: Path)
    requires DotFree(path)
    ensures DotFree(Pop(path))
  {
  }

  lemma PrefixOfPop(parent: Path, path: Path)
    requires parent != []
    ensures parent <= Pop(path) <==> parent <= path && parent != path
  {
    if parent <= path && parent != path {
      assert parent <= path[..|path| - 1];
    }
  }

  lemma PrefixOfMore(parent: Path, path: Path, key: string)
    ensures parent <= path + [key] <==> parent <= path || parent == path + [key]
    ensures !(parent <= path && parent == path + [key])
  {
  }

  lemma InsertsWithout(pending: seq<Update>, gone: string, k: string)
    ensures Inserts(Without(pending, gone), k) <==> k != gone && Inserts(pending, k)
  {
    WithoutLookup(pending, gone, k);
  }

  lemma {:induction false} RewrittenOnce(st: State, lines: seq<Line>, p: Path, opens: nat, closed: nat, written: nat)
    requires p != [] && DotFree(p) && forall line <- lines :: DotFreeLine(line)
    requires OnTrack(st, lines, p, opens, closed, written)
    ensures written + Times(st.path, Flatten(RewriteAll(st, lines)), p) <= 1
    decreases |lines|
  {
    hide OnTrack, Rewritten, Next, DotFree, Times, Flatten, RewriteAll;
    if lines == [] {
      TrackEnd(st, p, opens, closed, written);
    } else {
      var line, rest, parent := lines[0], lines[1..], p[..|p| - 1];
      var group := Rewritten(st, line);
      OnTrackStep(st, lines, p, opens, closed, written);
      NextPath(st, line);
      RewriteFirst(st, lines);
      TimesAppend(st.path, group, Flatten(RewriteAll(Next(st, line), rest)), p);
      TrackDistinct(st, lines, p, opens, closed, written);
      RewrittenDeclares(st, line, p);
      RewrittenOnce(Next(st, line), rest, p,
                    opens + One(line.TableStart? && st.path + [line.key] == parent),
                    closed + One(line == TableEnd && parent != [] && st.path == parent),
                    written + Times(st.path, group, p));
    }
  }

  lemma RewriteFirst(st: State, lines: seq<Line>)
    requires lines != []
    ensures Flatten(RewriteAll(st, lines)) ==
            Rewritten(st, lines[0]) + Flatten(RewriteAll(Next(st, lines[0]), lines[1..]))
  {
    FlattenFirst(Rewritten(st, lines[0]), RewriteAll(Next(st, lines[0]), lines[1..]));
  }

  lemma NextPath(st: State, line: Line)
    ensures Next(st, line).path == Moved(st.path, line)
  {
  }

  lemma TrackDistinct(st: State, lines: seq<Line>, p: Path, opens: nat, closed: nat, written: nat)
    requires p != [] && OnTrack(st, lines, p, opens, closed, written)
    ensures DistinctPaths(st.pending)
  {
  }

  lemma TrackEnd(st: State, p: Path, opens: nat, closed: nat, written: nat)
    requires p != [] && OnTrack(st, [], p, opens, closed, written)
    ensures written + Times(st.path, Flatten(RewriteAll(st, [])), p) <= 1
  {
  }

  // ---------------------------------------------------------------------------------------------
  // Keys, nesting and braces of the saved file
  // ---------------------------------------------------------------------------------------------

  lemma {:induction false} NewEntriesDotFree(path: Path, pending: seq<Update>)
    ensures forall line <- NewEntries(path, pending) :: DotFreeLine(line)
  {
    if pending != [] {
      NewEntriesDotFree(path, pending[1..]);
    }
  }

  lemma {:induction false} RewrittenDotFree(st: State, lines: seq<Line>)
    requires forall line <- lines :: DotFreeLine(line)
    ensures forall line <- Flatten(RewriteAll(st, lines)) :: DotFreeLine(line)
    decreases |lines|
  {
    if lines != [] {
      RewriteFirst(st, lines);
      RewrittenDotFree(Next(st, lines[0]), lines[1..]);
      GroupDotFree(st, lines[0]);
    }
  }

  lemma GroupDotFree(st: State, line: Line)
    requires DotFreeLine(line)
    ensures forall l <- Rewritten(st, line) :: DotFreeLine(l)
  {
    NewEntriesDotFree(st.path, st.pending);
  }

  lemma {:induction false} TimesOfDotted(path: Path, lines: seq<Line>, p: Path)
    requires DotFree(path) && forall line <- lines :: DotFreeLine(line)
    requires p == [] || !DotFree(p)
    ensures Times(path, lines, p) == 0
    decreases |lines|
  {
    if lines != [] {
      MovedDotFree(path, lines[0]);
      TimesOfDotted(Moved(path, lines[0]), lines[1..], p);
      if lines[0].TableStart? || lines[0].Assignment? {
        DotFreeAdd(path, lines[0].key);
      }
    }
  }

  lemma MovedDotFree(path: Path, line: Line)
    requires DotFree(path) && DotFreeLine(line)
    ensures DotFree(Moved(path, line))
  {
    PopDotFree(path);
    if line.TableStart? {
      DotFreeAdd(path, line.key);
    }
  }

  // The lines that open and close tables.
  function Skeleton(lines: seq<Line>): seq<Line> {
    if lines == [] then []
    else (if lines[0].TableStart? || lines[0].TableEnd? then [lines[0]] else []) + Skeleton(lines[1..])
  }

  lemma {:induction false} SkeletonAppend(a: seq<Line>, b: seq<Line>)
    ensures Skeleton(a + b) == Skeleton(a) + Skeleton(b)
  {
    if a == [] {
      assert a + b == b;
    } else {
      hide Skeleton;
      assert a + b == [a[0]] + (a[1..] + b) && a == [a[0]] + a[1..];
      SkeletonFirst(a[0], a[1..] + b);
      SkeletonFirst(a[0], a[1..]);
      SkeletonAppend(a[1..], b);
    }
  }

  lemma SkeletonFirst(line: Line, rest: seq<Line>)
    ensures Skeleton([line] + rest) == (if line.TableStart? || line.TableEnd? then [line] else []) + Skeleton(rest)
  {
    assert ([line] + rest)[1..] == rest;
  }

  lemma {:induction false} NewEntriesHaveNone(path: Path, pending: seq<Update>)
    ensures Skeleton(NewEntries(path, pending)) == []
  {
    if pending != [] {
      NewEntriesHaveNone(path, pending[1..]);
      SkeletonAppend(NewEntry(path, pending[0]), NewEntries(path, pending[1..]));
    }
  }

  lemma SkeletonOfGroup(st: State, line: Line)
    ensures Skeleton(Rewritten(st, line)) == Skeleton([line])
  {
    if line == TableEnd {
      NewEntriesHaveNone(st.path, st.pending);
      SkeletonAppend(NewEntries(st.path, st.pending), [line]);
      assert [] + [line] == [line];
    }
  }

  lemma {:induction false} SkeletonRewritten(st: State, lines: seq<Line>)
    ensures Skeleton(Flatten(RewriteAll(st, lines))) == Skeleton(lines)
    decreases |lines|
  {
    if lines != [] {
      hide Rewritten;
      var groups := RewriteAll(Next(st, lines[0]), lines[1..]);
      RewriteFirst(st, lines);
      SkeletonAppend(Rewritten(st, lines[0]), Flatten(groups));
      SkeletonOfGroup(st, lines[0]);
      SkeletonRewritten(Next(st, lines[0]), lines[1..]);
      assert lines == [lines[0]] + lines[1..];
      SkeletonAppend([lines[0]], lines[1..]);
    }
  }

  lemma {:induction false} SkeletonWithoutBlanks(lines: seq<Line>)
    ensures Skeleton(DropBlanks(lines)) == Skeleton(lines)
  {
    if lines != [] {
      SkeletonWithoutBlanks(lines[1..]);
      SkeletonAppend(if lines[0] == Blank then [] else [lines[0]], DropBlanks(lines[1..]));
    }
  }

  /** Any update of any file leaves its nesting: the same tables are opened and closed in the same order. */
  lemma NestingUnchanged(lines: seq<Line>, updates: seq<Update>)
    ensures Skeleton(UpdatedConfig(lines, updates)) == Skeleton(lines)
  {
    hide Skeleton, Flatten, RewriteAll, DropBlanks;
    SkeletonRewritten(State([], updates), lines);
    SkeletonWithoutBlanks(Flatten(RewriteAll(State([], updates), lines)));
  }

  lemma {:induction false} OpensOfSkeleton(path: Path, lines: seq<Line>, p: Path)
    ensures Opens(path, Skeleton(lines), p) == Opens(path, lines, p)
    decreases |lines|
  {
    if lines != [] {
      OpensOfSkeleton(Moved(path, lines[0]), lines[1..], p);
      if lines[0].TableStart? || lines[0].TableEnd? {
        assert ([lines[0]] + Skeleton(lines[1..]))[1..] == Skeleton(lines[1..]);
      } else {
        assert Skeleton(lines) == Skeleton(lines[1..]);
      }
    }
  }

  // The part of a dotted path after its last dot.
  function LastPart(k: string): string {
    if '.' in k then LastPart(k[1..]) else k
  }

  lemma {:induction false} LastPartIs(a: string, x: string)
    requires '.' !in x
    ensures LastPart(a + "." + x) == x
  {
    var k := a + "." + x;
    assert k[|a|] == '.';
    if a == "" {
      assert k[1..] == x;
    } else {
      assert k[1..] == a[1..] + "." + x;
      LastPartIs(a[1..], x);
    }
  }

  lemma LocalIsLast(path: Path, k: string)
    requires LocalKey(path, k).Some?
    ensures LocalKey(path, k).value == LastPart(k)
  {
    var key := LocalKey(path, k).value;
    assert k == Join(path) + "." + key;
    LastPartIs(Join(path), key);
  }

  // Whether Lua can read the new line of an entry.
  predicate EntryReads(key: string, value: string) {
    Recognized(key) && KeyReads(key, AllWord(key)) && ValueReads(value)
  }

  lemma EntryReadsIs(key: string, value: string)
    ensures LineReads(Entry(key, value)) <==> EntryReads(key, value)
  {
  }

  /** How a new key is written: word characters bare, where they must be a name of Lua 5.1, and anything else in
      brackets and quotes, where it must be a string up to the quote that is put after it. */
  lemma NewKeyReads(key: string, value: string)
    requires '"' !in key && ValueReads(value)
    ensures LineReads(Entry(key, value)) <==>
            if forall c <- key :: c == '_' || '0' <= c <= '9' || 'a' <= c <= 'z' || 'A' <= c <= 'Z' then
              key != "" && !('0' <= key[0] <= '9') &&
              key !in ["and", "break", "do", "else", "elseif", "end", "false", "for", "function", "if", "in", "local",
                       "nil", "not", "or", "repeat", "return", "then", "true", "until", "while"]
            else
              var r := LuaText.ReadString(key + "\"", 0, '"'); r.Some? && r.value.1 == |key| + 1
  {
    hide LuaText.ReadString, ValueReads;
    assert AllWord(key) <==>
           forall c <- key :: c == '_' || '0' <= c <= '9' || 'a' <= c <= 'z' || 'A' <= c <= 'Z';
  }

  // Written at the end of the table, the update makes a line that Lua cannot read.
  predicate BreaksAt(path: Path, u: Update) {
    path != [] && u.1 != DELETE && LocalKey(path, u.0).Some? && !EntryReads(LastPart(u.0), u.1)
  }

  predicate AnyBreaks(path: Path, pending: seq<Update>) {
    exists u <- pending :: BreaksAt(path, u)
  }

  lemma AnyBreaksFirst(path: Path, pending: seq<Update>)
    requires pending != []
    ensures AnyBreaks(path, pending) <==> BreaksAt(path, pending[0]) || AnyBreaks(path, pending[1..])
  {
    hide BreaksAt;
    assert pending == [pending[0]] + pending[1..];
  }

  lemma {:induction false} LoadsAfterEntries(path: Path, pending: seq<Update>, rest: seq<Line>)
    requires path != []
    ensures Loads(path, NewEntries(path, pending) + rest) <==> !AnyBreaks(path, pending) && Loads(path, rest)
  {
    hide EntryReads, LineReads, Entry, Loads, AnyBreaks;
    if pending == [] {
      assert [] + rest == rest;
      NothingBreaks(path);
    } else {
      var u, more := pending[0], NewEntries(path, pending[1..]) + rest;
      var entry := NewEntry(path, u);
      AnyBreaksFirst(path, pending);
      assert NewEntries(path, pending) + rest == entry + more;
      LoadsAfterEntries(path, pending[1..], rest);
      if LocalKey(path, u.0).Some? {
        var key := LocalKey(path, u.0).value;
        LocalIsLast(path, u.0);
        EntryReadsIs(key, u.1);
        EntryStays(path, key, u.1);
        LoadsFirst(path, Entry(key, u.1), more);
      }
      assert [] + more == more;
    }
  }

  lemma NothingBreaks(path: Path)
    ensures !AnyBreaks(path, [])
  {
  }

  lemma EntryStays(path: Path, key: string, value: string)
    ensures Entry(key, value) != TableEnd && Entry(key, value) != Blank && Moved(path, Entry(key, value)) == path
  {
  }

  // What is written for the line makes lines that Lua cannot read.
  predicate BreaksHere(st: State, line: Line) {
    match line
    case TableEnd => AnyBreaks(st.path, st.pending)
    case Assignment(key, _, _) =>
      (match Lookup(st.pending, Join(st.path + [key]))
       case Some(value) => value != DELETE && !ValueReads(value)
       case None => false)
    case _ => false
  }

  // What stays of the line can be read.
  predicate Stands(st: State, line: Line) {
    match line
    case TableEnd => st.path != []
    case Assignment(key, bare, _) =>
      (match Lookup(st.pending, Join(st.path + [key]))
       case Some(value) => value == DELETE || KeyReads(key, bare)
       case None => LineReads(line))
    case _ => LineReads(line)
  }

  lemma GroupLoads(st: State, line: Line, rest: seq<Line>)
    ensures Loads(st.path, Rewritten(st, line) + rest) <==>
            Stands(st, line) && !BreaksHere(st, line) && Loads(Moved(st.path, line), rest)
  {
    hide AnyBreaks, NewEntries, Loads, KeyReads, ValueReads, Lookup, Join;
    LoadsFirst(st.path, line, rest);
    match line {
      case TableEnd =>
        var entries := NewEntries(st.path, st.pending);
        assert [] + [line] == [line];
        assert entries + [line] + rest == entries + ([line] + rest);
        if st.path != [] {
          LoadsAfterEntries(st.path, st.pending, [line] + rest);
        }
      case Assignment(key, bare, _) =>
        LoadsFirst(st.path, Blank, rest);
        match Lookup(st.pending, Join(st.path + [key])) {
          case Some(v) => LoadsFirst(st.path, Assignment(key, bare, v), rest);
          case None =>
        }
      case _ =>
    }
  }

  lemma LoadsFirst(path: Path, line: Line, rest: seq<Line>)
    ensures Loads(path, [line] + rest) <==>
            LineReads(line) && (line == TableEnd ==> path != []) && Loads(Moved(path, line), rest)
  {
    hide LineReads;
    assert ([line] + rest)[1..] == rest;
  }

  predicate Breaks(st: State, lines: seq<Line>)
    decreases |lines|
  {
    lines != [] && (BreaksHere(st, lines[0]) || Breaks(Next(st, lines[0]), lines[1..]))
  }

  // All that stays of the file can be read, and its braces match.
  predicate AllStand(st: State, lines: seq<Line>)
    decreases |lines|
  {
    if lines == [] then st.path == [] else Stands(st, lines[0]) && AllStand(Next(st, lines[0]), lines[1..])
  }

  lemma {:induction false} RewrittenLoads(st: State, lines: seq<Line>)
    ensures Loads(st.path, Flatten(RewriteAll(st, lines))) <==> AllStand(st, lines) && !Breaks(st, lines)
    decreases |lines|
  {
    if lines != [] {
      hide BreaksHere, Stands, Rewritten, Flatten, RewriteAll, Next;
      var line, rest := lines[0], Flatten(RewriteAll(Next(st, lines[0]), lines[1..]));
      RewriteFirst(st, lines);
      NextPath(st, line);
      RewrittenLoads(Next(st, line), lines[1..]);
      GroupLoads(st, line, rest);
    }
  }

  lemma {:induction false} LoadedStands(st: State, lines: seq<Line>)
    requires Loads(st.path, lines)
    ensures AllStand(st, lines)
    decreases |lines|
  {
    if lines != [] {
      hide LineReads, KeyReads, ValueReads, Stands, Next;
      NextPath(st, lines[0]);
      LoadedStands(Next(st, lines[0]), lines[1..]);
      ReadStands(st, lines[0]);
    }
  }

  lemma ReadStands(st: State, line: Line)
    requires LineReads(line) && (line == TableEnd ==> st.path != [])
    ensures Stands(st, line)
  {
    hide KeyReads, ValueReads, Lookup, Join;
  }

  // A table that can hold k closes before any line assigns k.
  predicate Reaches(path: Path, lines: seq<Line>, k: string)
    decreases |lines|
  {
    lines != [] && !(lines[0].Assignment? && Join(path + [lines[0].key]) == k) &&
    ((lines[0] == TableEnd && path != [] && LocalKey(path, k).Some?) || Reaches(Moved(path, lines[0]), lines[1..], k))
  }

  lemma {:induction false} WithoutMembers(updates: seq<Update>, gone: string, u: Update)
    ensures u in Without(updates, gone) <==> u in updates && u.0 != gone
  {
    if updates != [] {
      assert updates == [updates[0]] + updates[1..];
      WithoutMembers(updates[1..], gone, u);
    }
  }

  lemma {:induction false} LookupIn(updates: seq<Update>, k: string)
    requires Lookup(updates, k).Some?
    ensures (k, Lookup(updates, k).value) in updates
  {
    if updates[0].0 != k {
      LookupIn(updates[1..], k);
    }
  }

  lemma {:induction false} LookupOf(updates: seq<Update>, u: Update)
    requires DistinctPaths(updates) && u in updates
    ensures Lookup(updates, u.0) == Some(u.1)
  {
    if updates[0] != u {
      assert u in updates[1..];
      var j :| 0 <= j < |updates[1..]| && updates[1..][j] == u;
      assert updates[j + 1] == u;
      LookupOf(updates[1..], u);
    }
  }

  // One update, for all lines: it is written as a new entry, or in the place of a value, and cannot be read there.
  predicate Spoils(path: Path, lines: seq<Line>, u: Update) {
    u.1 != DELETE &&
    ((Reaches(path, lines, u.0) && !EntryReads(LastPart(u.0), u.1))
     || (Assigned(path, lines, u.0) > 0 && !ValueReads(u.1)))
  }

  lemma SpoilsFirst(path: Path, lines: seq<Line>, u: Update)
    requires lines != []
    ensures var assigns := lines[0].Assignment? && Join(path + [lines[0].key]) == u.0;
            Spoils(path, lines, u) <==>
            if assigns then u.1 != DELETE && !ValueReads(u.1)
            else (lines[0] == TableEnd && BreaksAt(path, u)) || Spoils(Moved(path, lines[0]), lines[1..], u)
  {
    hide Join, EntryReads, ValueReads, LocalKey, LastPart;
  }

  lemma {:induction false} BreaksIs(st: State, lines: seq<Line>)
    requires DistinctPaths(st.pending)
    ensures Breaks(st, lines) <==> exists u <- st.pending :: Spoils(st.path, lines, u)
    decreases |lines|
  {
    if lines != [] {
      hide Join, BreaksAt, Spoils, Lookup, Without, DistinctPaths, ValueReads;
      var line := lines[0];
      var next := Next(st, line);
      NextPath(st, line);
      if line.Assignment? {
        WithoutDistinct(st.pending, Join(st.path + [line.key]));
      }
      BreaksIs(next, lines[1..]);
      forall u: Update | u in st.pending
        ensures Spoils(st.path, lines, u) <==>
                (u in next.pending && Spoils(next.path, lines[1..], u))
                || (lines[0] == TableEnd && BreaksAt(st.path, u))
                || (line.Assignment? && u.0 == Join(st.path + [line.key]) && u.1 != DELETE && !ValueReads(u.1))
      {
        SpoilsFirst(st.path, lines, u);
        if line.Assignment? {
          WithoutMembers(st.pending, Join(st.path + [line.key]), u);
        }
      }
      NextPending(st, line);
      BreaksFirst(st, lines);
    }
  }

  lemma NextPending(st: State, line: Line)
    ensures forall u <- Next(st, line).pending :: u in st.pending
  {
    hide Join, Without;
    if line.Assignment? {
      forall u | u in Without(st.pending, Join(st.path + [line.key]))
        ensures u in st.pending
      {
        WithoutMembers(st.pending, Join(st.path + [line.key]), u);
      }
    }
  }

  lemma BreaksFirst(st: State, lines: seq<Line>)
    requires lines != [] && DistinctPaths(st.pending)
    ensures Breaks(st, lines) <==>
            || (lines[0] == TableEnd && exists u <- st.pending :: BreaksAt(st.path, u))
            || (lines[0].Assignment? &&
                exists u <- st.pending :: u.0 == Join(st.path + [lines[0].key]) && u.1 != DELETE && !ValueReads(u.1))
            || Breaks(Next(st, lines[0]), lines[1..])
  {
    hide BreaksAt, Join, DistinctPaths, ValueReads, Lookup;
    if lines[0].Assignment? {
      var k := Join(st.path + [lines[0].key]);
      if Lookup(st.pending, k).Some? {
        LookupIn(st.pending, k);
      }
      forall u | u in st.pending && u.0 == k
        ensures Lookup(st.pending, k) == Some(u.1)
      {
        LookupOf(st.pending, u);
      }
    }
  }

  // No path holds a quote, which could end a key in brackets before its end.
  predicate QuoteFree(updates: seq<Update>) {
    forall u <- updates :: '"' !in u.0
  }

  /** Whether the saved file loads, for any file: the braces match, each line is readable but for a value that is
      replaced or a line that is deleted, and no new value is written that cannot be read, in the place of another
      or under a new key, and no new key either. */
  lemma SavedLoads(lines: seq<Line>, updates: seq<Update>)
    requires DistinctPaths(updates) && QuoteFree(updates)
    ensures Loads([], UpdatedConfig(lines, updates)) <==>
            AllStand(State([], updates), lines) && forall u <- updates :: !Spoils([], lines, u)
    ensures Loads([], lines) ==> AllStand(State([], updates), lines)
  {
    hide Loads, Flatten, RewriteAll, DropBlanks, Breaks, Spoils, AllStand;
    var st := State([], updates);
    RewrittenLoads(st, lines);
    BreaksIs(st, lines);
    if Loads([], lines) {
      LoadedStands(st, lines);
    }
    WithoutBlanks([], Flatten(RewriteAll(st, lines)), []);
  }

  lemma {:induction false} WithoutBlanks(path: Path, lines: seq<Line>, p: Path)
    ensures Times(path, DropBlanks(lines), p) == Times(path, lines, p)
    ensures Loads(path, DropBlanks(lines)) == Loads(path, lines)
    ensures forall line <- DropBlanks(lines) :: line in lines
    decreases |lines|
  {
    if lines != [] {
      var line, rest := lines[0], lines[1..];
      WithoutBlanks(Moved(path, line), rest, p);
      if line == Blank {
        assert DropBlanks(lines) == DropBlanks(rest);
      } else {
        assert DropBlanks(lines)[1..] == DropBlanks(rest);
      }
    }
  }

  // ---------------------------------------------------------------------------------------------
  // String values
  // ---------------------------------------------------------------------------------------------

  predicate LineBreak(c: char) {
    c == '\n' || c == '\r'
  }

  function Count(s: string, c: char): nat {
    if s == "" then 0 else One(s[0] == c) + Count(s[1..], c)
  }

  lemma {:induction false} CountNone(s: string, c: char)
    ensures Count(s, c) == 0 <==> c !in s
  {
    if s != "" {
      CountNone(s[1..], c);
      assert s == [s[0]] + s[1..];
    }
  }

  lemma {:induction false} EscapedLength(s: string)
    ensures |EscapeQuotes(s)| == |s| + Count(s, '"')
  {
    if s != "" {
      EscapedLength(s[1..]);
    }
  }

  // Every quote and every backslash that Lua reads takes two characters of the text.
  lemma {:induction false} CostOfReading(t: string, i: nat)
    requires i <= |t|
    ensures var r := LuaText.ReadString(t, i, '"');
            r.Some? ==>
              r.value.1 - i >= 1 + |r.value.0| + Count(r.value.0, '"') + Count(r.value.0, '\\')
    decreases |t| - i
  {
    hide LuaText.ReadEscape;
    if i < |t| && LuaText.ReadString(t, i, '"').Some? && t[i] != '"' {
      var text := LuaText.ReadString(t, i, '"').value.0;
      if t[i] == '\\' {
        var next := LuaText.ReadEscape(t, i + 1).value.1;
        CostOfReading(t, next);
      } else {
        CostOfReading(t, i + 1);
      }
      assert text == [text[0]] + text[1..];
    }
  }

  lemma {:induction false} ReadWithoutBackslash(t: string, i: nat, s: string)
    requires Lies(t, i, EscapeQuotes(s) + "\"") && '\\' !in s
    ensures LuaText.ReadString(t, i, '"') ==
            if exists c <- s :: LineBreak(c) then None else Some((s, i + |EscapeQuotes(s)| + 1))
    decreases |s|
  {
    hide LuaText.ReadString, Lies;
    if s == "" {
      assert EscapeQuotes(s) + "\"" == "\"";
      ReadClosingQuote(t, i);
    } else {
      var c, rest := s[0], s[1..];
      var head := if c == '"' then "\\\"" else [c];
      assert s == [c] + rest;
      assert EscapeQuotes(s) + "\"" == head + (EscapeQuotes(rest) + "\"");
      LiesSplit(t, i, head, EscapeQuotes(rest) + "\"");
      ReadWithoutBackslash(t, i + |head|, rest);
      ReadOneChar(t, i, c, head);
    }
  }

  lemma ReadOneChar(t: string, i: nat, c: char, head: string)
    requires c != '\\' && head == if c == '"' then "\\\"" else [c]
    requires Lies(t, i, head)
    ensures LuaText.ReadString(t, i, '"') ==
            if LineBreak(c) then None
            else match LuaText.ReadString(t, i + |head|, '"')
                 case None => None
                 case Some((text, end)) => Some(([c] + text, end))
  {
    hide LuaText.DecimalValue, LuaText.DigitsEnd;
    assert t[i] == head[0];
    if c == '"' {
      assert t[i + 1] == head[1];
    }
  }

  predicate InBraces(s: string) {
    s != "" && s[0] == '{' && s[|s| - 1] == '}'
  }

  /** A string value from the page goes into the file as a Lua string that reads back as itself exactly when it is
      not in braces, which would make it a table, and holds no backslash and no line break: only its quotes are
      escaped. */
  lemma StringReadsBack(s: string)
    ensures var t := ToLua(JString(s)).value;
            t != "" && t[0] == '"' && LuaText.ReadString(t, 1, '"') == Some((s, |t|)) <==>
            !InBraces(s) && forall c <- s :: c != '\\' && !LineBreak(c)
  {
    hide LuaText.ReadString, EscapeQuotes, Count;
    var t := "\"" + EscapeQuotes(s) + "\"";
    EscapedLength(s);
    if InBraces(s) {
      assert ToLua(JString(s)).value[0] == '{';
    } else if '\\' in s {
      CostOfReading(t, 1);
      CountNone(s, '\\');
    } else {
      assert t == "\"" + (EscapeQuotes(s) + "\"") + "";
      LiesInside("\"", EscapeQuotes(s) + "\"", "");
      ReadWithoutBackslash(t, 1, s);
    }
  }

  // ---------------------------------------------------------------------------------------------
  // Keys in brackets
  // ---------------------------------------------------------------------------------------------

  lemma {:induction false} ReadVerbatim(t: string, i: nat)
    requires i <= |t| && '\\' !in t[i..]
    ensures var r := LuaText.ReadString(t, i, '"');
            r.Some? ==> r.value.0 == t[i..r.value.1 - 1] && QuoteAt(t, r.value.1 - 1)
    decreases |t| - i
  {
    hide LuaText.ReadEscape;
    if i < |t| {
      assert t[i] == t[i..][0] && t[i..][1..] == t[i + 1..];
      ReadVerbatim(t, i + 1);
    }
  }

  predicate QuoteAt(t: string, i: int) {
    0 <= i < |t| && t[i] == '"'
  }

  lemma PlainKeyRead(key: string, bare: bool)
    requires '\\' !in key && '"' !in key
    ensures KeyRead(key, bare) == key
  {
    hide LuaText.ReadString;
    var t := key + "\"";
    assert t[0..] == t;
    ReadVerbatim(t, 0);
    var r := LuaText.ReadString(t, 0, '"');
    forall k | 0 <= k < |key|
      ensures t[k] != '"'
    {
      assert t[k] == key[k] && key[k] in key;
    }
    assert t[0..|key|] == key;
  }

  // A key with escapes reads as a shorter one.
  lemma EscapedKeyRead(key: string)
    requires KeyReads(key, false)
    ensures |KeyRead(key, false)| <= |key|
    ensures '\\' in KeyRead(key, false) ==> |KeyRead(key, false)| < |key|
    ensures '\\' in key ==> KeyRead(key, false) != key
  {
    hide LuaText.ReadString, Count;
    CostOfReading(key + "\"", 0);
    CountNone(KeyRead(key, false), '\\');
  }
}
