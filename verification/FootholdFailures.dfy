/**
 Foothold updates after which the file cannot be read, or has lost a value that nobody updated.
*/
module FootholdFailures {
  import opened Options
  import opened Foothold
  import opened FootholdMeaning
  import opened FootholdLaw

  predicate Name(key: string) {
    KeyReads(key, true)
  }

  lemma NameHasNoDot(key: string)
    requires Name(key)
    ensures '.' !in key
  {
  }

  lemma NameHasNoQuote(key: string)
    requires Name(key)
    ensures '"' !in key
  {
  }

  lemma NamedReads(key: string, value: string)
    requires Name(key) && ValueReads(value)
    ensures LineReads(Assignment(key, true, value))
  {
  }

  lemma EndReads()
    ensures LineReads(TableEnd)
  {
  }

  // A file that holds one value, in a table in a table; and the same with a value after the inner table.
  function Nested(a: string, b: string, x: string, more: seq<Line>): seq<Line> {
    [TableStart(a, true)] + ([TableStart(b, true)] + ([Assignment(x, true, "1")] + ([TableEnd] + (more + [TableEnd]))))
  }

  /** A value written to the path of a table takes the place of the whole table, although none of the paths in
      it was updated. */
  lemma TableIsOverwritten(a: string, b: string, x: string, value: string)
    requires Name(a) && Name(b) && Name(x) && ValueReads(value) && value != DELETE
    ensures var lines, p := Nested(a, b, x, []), [a, b, x];
            var t := UpdatedConfig(lines, [(a + "." + b, value)]);
            && Loads([], lines) && LuaValue(lines, p) == Some("1")
            && Loads([], t) && LuaValue(t, p) == None
  {
    hide Name, ValueReads, Loads, Evaluated, Flatten, RewriteAll, DropBlanks, Nested;
    var more := [Assignment(b, true, value)];
    NestedIsRewritten(a, b, x, value);
    NestedHasNoBlanks(a, b, x, []);
    NestedHasNoBlanks(a, b, x, more);
    NestedLoads(a, b, x, []);
    NamedReads(b, value);
    NestedLoads(a, b, x, more);
    NestedLeaves(a, b, x, []);
    NestedLeaves(a, b, x, more);
    LastEntry(a, b, x, value);
  }

  lemma NestedHasNoBlanks(a: string, b: string, x: string, more: seq<Line>)
    requires more == [] || exists key, value :: more == [Assignment(key, true, value)]
    ensures Blank !in Nested(a, b, x, more) && DropBlanks(Nested(a, b, x, more)) == Nested(a, b, x, more)
  {
    hide DropBlanks;
    BlankFree(Nested(a, b, x, more));
  }

  lemma {:induction false} BlankFree(lines: seq<Line>)
    requires Blank !in lines
    ensures DropBlanks(lines) == lines
  {
    if lines != [] {
      BlankFree(lines[1..]);
    }
  }

  lemma NestedLoads(a: string, b: string, x: string, more: seq<Line>)
    requires Name(a) && Name(b) && Name(x)
    requires more == [] || (|more| == 1 && more[0].Assignment? && LineReads(more[0]))
    ensures Loads([], Nested(a, b, x, more))
  {
    hide Loads;
    assert LineReads(TableStart(a, true)) && LineReads(TableStart(b, true)) && LineReads(Assignment(x, true, "1"));
    hide LineReads;
    assert LineReads(TableEnd) by {
      EndReads();
    }
    var tail := more + [TableEnd];
    LoadsFirst([], TableStart(a, true), [TableStart(b, true)] + ([Assignment(x, true, "1")] + ([TableEnd] + tail)));
    LoadsFirst([a], TableStart(b, true), [Assignment(x, true, "1")] + ([TableEnd] + tail));
    LoadsFirst([a, b], Assignment(x, true, "1"), [TableEnd] + tail);
    LoadsFirst([a, b], TableEnd, tail);
    if more == [] {
      assert tail == [TableEnd];
    } else {
      assert tail == [more[0]] + [TableEnd];
      LoadsFirst([a], more[0], [TableEnd]);
    }
    LoadsFirst([a], TableEnd, []);
    LoadsNothing();
    assert [] + [a] == [a] && [a] + [b] == [a, b] && Pop([a, b]) == [a] && Pop([a]) == [];
    assert [TableEnd] + [] == [TableEnd];
  }

  lemma LoadsNothing()
    ensures Loads([], [])
  {
  }

  lemma EvaluatedFirst(m: Tables, line: Line, rest: seq<Line>)
    ensures Evaluated(m, [line] + rest) == Evaluated(Evaluate(m, line), rest)
  {
    assert ([line] + rest)[1..] == rest;
  }

  // Up to the end of the inner table.
  lemma NestedLeaves(a: string, b: string, x: string, more: seq<Line>)
    ensures Evaluated(Tables([], map[]), Nested(a, b, x, more)) ==
            Evaluated(Tables([a], map[[a, b, x] := "1"]), more + [TableEnd])
  {
    hide Evaluated;
    var none, one: map<Path, string> := map[], map[[a, b, x] := "1"];
    var tail := more + [TableEnd];
    var inner := [TableStart(b, true)] + ([Assignment(x, true, "1")] + ([TableEnd] + tail));
    EvaluatedFirst(Tables([], none), TableStart(a, true), inner);
    EvaluatedFirst(Tables([a], none), TableStart(b, true), [Assignment(x, true, "1")] + ([TableEnd] + tail));
    EvaluatedFirst(Tables([a, b], none), Assignment(x, true, "1"), [TableEnd] + tail);
    EvaluatedFirst(Tables([a, b], one), TableEnd, tail);
    assert [] + [a] == [a] && [a] + [b] == [a, b] && [a, b] + [x] == [a, b, x] && Pop([a, b]) == [a];
    assert Replaced(none, [a]) == none && Replaced(none, [a, b]) == none && Replaced(none, [a, b, x]) == none;
  }

  lemma LastEntry(a: string, b: string, x: string, value: string)
    ensures var m := Tables([a], map[[a, b, x] := "1"]);
            && LeafAt(Evaluated(m, [] + [TableEnd]).leaves, [a, b, x]) == Some("1")
            && LeafAt(Evaluated(m, [Assignment(b, true, value)] + [TableEnd]).leaves, [a, b, x]) == None
  {
    hide Evaluated;
    var one: map<Path, string> := map[[a, b, x] := "1"];
    var m := Tables([a], one);
    assert [] + [TableEnd] == [TableEnd] + [];
    EvaluatedFirst(m, TableEnd, []);
    EvaluatedNothing(Tables([], one));
    EvaluatedFirst(m, Assignment(b, true, value), [TableEnd]);
    var later := Evaluate(m, Assignment(b, true, value));
    assert [TableEnd] == [TableEnd] + [];
    EvaluatedFirst(later, TableEnd, []);
    EvaluatedNothing(Evaluate(later, TableEnd));
    assert [a] + [b] <= [a, b, x] && Pop([a]) == [];
    assert [a] + [b] != [a, b, x];
  }

  lemma EvaluatedNothing(m: Tables)
    ensures Evaluated(m, []) == m
  {
  }

  lemma NestedIsRewritten(a: string, b: string, x: string, value: string)
    requires Name(a) && Name(b) && Name(x) && value != DELETE
    ensures Flatten(RewriteAll(State([], [(a + "." + b, value)]), Nested(a, b, x, []))) ==
            Nested(a, b, x, [Assignment(b, true, value)])
  {
    hide Name, Flatten, RewriteAll, Rewritten, Next;
    var updates := [(a + "." + b, value)];
    var s0, s1, s2 := State([], updates), State([a], updates), State([a, b], updates);
    var last := [] + [TableEnd];
    RewrittenLines(a, b, x, value);
    RewriteOne(s0, TableStart(a, true), [TableStart(b, true)] + ([Assignment(x, true, "1")] + ([TableEnd] + last)));
    RewriteOne(s1, TableStart(b, true), [Assignment(x, true, "1")] + ([TableEnd] + last));
    RewriteOne(s2, Assignment(x, true, "1"), [TableEnd] + last);
    RewriteOne(s2, TableEnd, last);
    assert last == [TableEnd] + [];
    RewriteOne(s1, TableEnd, []);
    RewriteNone(Next(s1, TableEnd));
    assert [Assignment(b, true, value), TableEnd] + [] == [Assignment(b, true, value)] + [TableEnd];
  }

  lemma RewriteOne(st: State, line: Line, rest: seq<Line>)
    ensures Flatten(RewriteAll(st, [line] + rest)) ==
            Rewritten(st, line) + Flatten(RewriteAll(Next(st, line), rest))
  {
    RewriteFirst(st, [line] + rest);
    assert ([line] + rest)[1..] == rest;
  }

  lemma RewrittenLines(a: string, b: string, x: string, value: string)
    requires Name(a) && Name(b) && Name(x) && value != DELETE
    ensures var updates := [(a + "." + b, value)];
            var s0, s1, s2 := State([], updates), State([a], updates), State([a, b], updates);
            && Rewritten(s0, TableStart(a, true)) == [TableStart(a, true)] && Next(s0, TableStart(a, true)) == s1
            && Rewritten(s1, TableStart(b, true)) == [TableStart(b, true)] && Next(s1, TableStart(b, true)) == s2
            && Rewritten(s2, Assignment(x, true, "1")) == [Assignment(x, true, "1")]
            && Next(s2, Assignment(x, true, "1")) == s2
            && Rewritten(s2, TableEnd) == [TableEnd] && Next(s2, TableEnd) == s1
            && Rewritten(s1, TableEnd) == [Assignment(b, true, value), TableEnd]
  {
    hide Join;
    NameHasNoDot(a);
    NameHasNoDot(b);
    NameHasNoDot(x);
    assert Recognized(b) && AllWord(b);
    hide Name, AllWord, Recognized;
    var updates := [(a + "." + b, value)];
    assert [] + [a] == [a] && [a] + [b] == [a, b] && Pop([a, b]) == [a] && [a, b] + [x] == [a, b, x];
    JoinOfTwo(a, b);
    assert [a, b, x][..2] == [a, b];
    JoinApart([a, b], [a, b, x]);
    assert updates[1..] == [];
    assert Lookup(updates, Join([a, b, x])) == None;
    WithoutAbsent(updates, Join([a, b, x]));
    assert NewEntry([a, b], updates[0]) == [];
    assert (a + "." + b)[|a + "."|..] == b;
    assert NewEntry([a], updates[0]) == [Assignment(b, true, value)];
    assert NewEntries([a], updates) == [Assignment(b, true, value)];
    assert NewEntries([a, b], updates) == [];
  }

  lemma JoinOfTwo(a: string, b: string)
    ensures Join([a]) == a && Join([a, b]) == a + "." + b
  {
    assert [a, b][..1] == [a];
  }

  // A file of one table with one value.
  function Small(a: string, x: string): seq<Line> {
    [TableStart(a, true)] + ([Assignment(x, true, "1")] + [TableEnd])
  }

  lemma SmallLoads(a: string, x: string)
    requires Name(a) && Name(x)
    ensures Loads([], Small(a, x))
    ensures Assigned([], Small(a, x), a + "." + x) > 0
  {
    hide Loads, Join;
    var last := [TableEnd];
    LoadsFirst([], TableStart(a, true), [Assignment(x, true, "1")] + last);
    LoadsFirst([a], Assignment(x, true, "1"), last);
    LoadsFirst([a], TableEnd, []);
    LoadsNothing();
    assert last + [] == last && [] + [a] == [a] && [a] + [x] == [a, x] && Pop([a]) == [];
    JoinOfTwo(a, x);
    assert Small(a, x)[1..] == [Assignment(x, true, "1")] + last;
    assert Assigned([a], [Assignment(x, true, "1")] + last, a + "." + x) > 0;
  }

  /** A new entry whose key or value Lua cannot read makes the whole file unreadable. */
  lemma UnreadableEntryBreaksFile(a: string, x: string, key: string, value: string)
    requires Name(a) && Name(x) && '.' !in key && '"' !in key && key != x
    requires !EntryReads(key, value) && value != DELETE
    ensures Loads([], Small(a, x)) && !Loads([], UpdatedConfig(Small(a, x), [(a + "." + key, value)]))
  {
    SmallLoads(a, x);
    NameHasNoQuote(a);
    hide Name, EntryReads, Loads, Reaches, UpdatedConfig, LastPart, Join, LocalKey, AllStand, Small;
    var u := (a + "." + key, value);
    SmallReaches(a, x, key);
    LastPartIs(a, key);
    assert Spoils([], Small(a, x), u);
    assert u in [u];
    SavedLoads(Small(a, x), [u]);
  }

  lemma SmallReaches(a: string, x: string, key: string)
    requires '.' !in key && key != x
    ensures Reaches([], Small(a, x), a + "." + key)
  {
    hide Reaches, Join, LocalKey;
    var k, last := a + "." + key, [TableEnd];
    assert last + [] == last && [] + [a] == [a] && [a] + [x] == [a, x];
    JoinOfTwo(a, x);
    assert a + "." + x != k by {
      assert (a + "." + x)[|a + "."|..] == x && k[|a + "."|..] == key;
    }
    LocalOf(a, key);
    ReachesFirst([a], TableEnd, [], k);
    ReachesFirst([a], Assignment(x, true, "1"), last, k);
    ReachesFirst([], TableStart(a, true), [Assignment(x, true, "1")] + last, k);
  }

  lemma LocalOf(a: string, key: string)
    requires '.' !in key
    ensures LocalKey([a], a + "." + key) == Some(key)
  {
    assert (a + "." + key)[|a + "."|..] == key;
  }

  /** A string that ends in a backslash, as the value of a setting: its closing quote is escaped, and the whole file
      cannot be read. */
  lemma BackslashBreaksFile(a: string, x: string)
    requires Name(a) && Name(x)
    ensures var value := ToLua(JString("\\")).value;
            Loads([], Small(a, x)) && !Loads([], UpdatedConfig(Small(a, x), [(a + "." + x, value)]))
  {
    var value := ToLua(JString("\\")).value;
    BackslashText();
    SmallLoads(a, x);
    NameHasNoQuote(a);
    NameHasNoQuote(x);
    hide Name, Loads, Reaches, UpdatedConfig, LastPart, AllStand, EntryReads;
    var u := (a + "." + x, value);
    assert value != DELETE by {
      assert value[0] == '"' && DELETE[0] == '_';
    }
    assert Spoils([], Small(a, x), u);
    assert u in [u];
    SavedLoads(Small(a, x), [u]);
  }

  lemma BackslashText()
    ensures ToLua(JString("\\")) == Some("\"\\\"")
    ensures !ValueReads("\"\\\"")
  {
    assert "\\"[1..] == "";
    assert EscapeQuotes("\\") == "\\";
    assert "\"" + "\\" + "\"" == "\"\\\"";
    assert "\\"[0] == '\\';
  }

  lemma ReachesFirst(path: Path, line: Line, rest: seq<Line>, k: string)
    ensures Reaches(path, [line] + rest, k) <==>
            !(line.Assignment? && Join(path + [line.key]) == k) &&
            ((line == TableEnd && path != [] && LocalKey(path, k).Some?) || Reaches(Moved(path, line), rest, k))
  {
    assert ([line] + rest)[1..] == rest;
  }
}
