/**
 A saved file can be edited: in the text that the serializer prints, the search for the mission block finds the
 block that Lua reads, so that saving, any run of queue edits and loading compose.
*/
module SavedQueue {
  import opened Options
  import opened LuaText
  import opened LuaPrinting
  import opened SettingsLua
  import opened SettingsRoundTrip
  import opened QueueEdit

  // ---------------------------------------------------------------------------------------------
  // The fields before the block
  // ---------------------------------------------------------------------------------------------

  function Onto(fields: seq<Field>, rest: Option<seq<Field>>): Option<seq<Field>> {
    match rest
    case None => None
    case Some(more) => Some(fields + more)
  }

  lemma OntoTwice(a: seq<Field>, b: seq<Field>, r: Option<seq<Field>>)
    ensures Onto(a, Onto(b, r)) == Onto(a + b, r)
    ensures Onto([], r) == r
  {
    if r.Some? {
      assert a + (b + r.value) == (a + b) + r.value;
      assert [] + r.value == r.value;
    }
  }

  lemma SameUpTo(s: string, i: nat, j: nat, n: nat)
    requires i <= |s| && j <= |s| && n <= |s| && Skip(s, i) == Skip(s, j)
    ensures FieldsUpTo(s, i, n) == FieldsUpTo(s, j, n)
  {
    hide Skip, ReadField;
  }

  lemma FieldThenUpTo(s: string, i: nat, field: Field, end: nat, j: nat, n: nat)
    requires FieldThen(s, i, field, end, j)
    requires Skip(s, i) < n && end < n <= |s|
    ensures FieldsUpTo(s, i, n) == Onto([field], FieldsUpTo(s, j, n))
  {
    hide Skip, ReadField;
    SkipNothing(s, end);
    SameUpTo(s, end + 1, j, n);
  }

  lemma {:induction false} TopLinesUpTo(s: string, i: nat, entries: seq<(string, Json)>, lib: Library, n: nat)
    requires Lies(s, i, TopLines(entries, lib)) && Writable(entries) && TopReadable(entries, lib)
    requires i + |TopLines(entries, lib)| <= n <= |s|
    ensures FieldsUpTo(s, i, n) == Onto(TopFields(entries, lib), FieldsUpTo(s, i + |TopLines(entries, lib)|, n))
    decreases |entries|
  {
    hide Lies, FieldsUpTo, Onto, TopLine, TopField, EntryReadable, PlainKey, IsPrintedApart;
    var last := FieldsUpTo(s, i + |TopLines(entries, lib)|, n);
    if entries == [] {
      OntoTwice([], [], last);
    } else {
      var entry, rest := entries[0], entries[1..];
      var line := TopLine(entry, lib);
      assert TopLines(entries, lib) == line + TopLines(rest, lib);
      LiesSplit(s, i, line, TopLines(rest, lib));
      assert EntryReadable(entry, lib) && TopReadable(rest, lib) && Writable(rest);
      TopLineUpTo(s, i, entry, lib, n);
      TopLinesUpTo(s, i + |line|, rest, lib, n);
      OntoTwice(TopField(entry, lib), TopFields(rest, lib), last);
    }
  }

  lemma TopLineUpTo(s: string, i: nat, entry: (string, Json), lib: Library, n: nat)
    requires Lies(s, i, TopLine(entry, lib)) && EntryReadable(entry, lib)
    requires !IsPrintedApart(entry.0) ==> PlainKey(entry.0)
    requires i + |TopLine(entry, lib)| <= n <= |s|
    ensures FieldsUpTo(s, i, n) == Onto(TopField(entry, lib), FieldsUpTo(s, i + |TopLine(entry, lib)|, n))
  {
    hide FieldsUpTo, TokenLine, TopToken, Known, Readable, Meaning, PlainKey, FieldThen, Onto;
    if IsPrintedApart(entry.0) {
      OntoTwice([], [], FieldsUpTo(s, i, n));
    } else {
      var token := TopToken(entry.0, entry.1, lib);
      TopTokenKnown(entry.0, entry.1, lib);
      var _ := TokenLineParts(s, i, "\t", entry.0, token);
      var next := i + |TopLine(entry, lib)|;
      FieldThenUpTo(s, i, Field(KStr(entry.0), Meaning(token)), next - 3, next, n);
    }
  }

  lemma AdvancedUpTo(s: string, i: nat, entries: seq<(string, Json)>, lib: Library, n: nat)
    requires match Lookup(entries, ADVANCED) case Some(JObject(inner)) => WritableAdvanced(inner, lib) case _ => true
    requires Lies(s, i, AdvancedBlock(entries, lib)) && i + |AdvancedBlock(entries, lib)| <= n <= |s|
    ensures FieldsUpTo(s, i, n) ==
            Onto(AdvancedBlockFields(entries, lib), FieldsUpTo(s, i + |AdvancedBlock(entries, lib)|, n))
  {
    hide Lies, FieldsUpTo, Onto, AdvancedLines, AdvancedFields, Block, WritableAdvanced, Lookup;
    match Lookup(entries, ADVANCED)
    case Some(JObject(inner)) =>
      AdvancedTableUpTo(s, i, inner, lib, n);
    case _ =>
      OntoTwice([], [], FieldsUpTo(s, i, n));
  }

  lemma AdvancedTableUpTo(s: string, i: nat, inner: seq<(string, Json)>, lib: Library, n: nat)
    requires WritableAdvanced(inner, lib)
    requires var block := Block(ADVANCED, AdvancedLines(inner, lib)); Lies(s, i, block) && i + |block| <= n <= |s|
    ensures FieldsUpTo(s, i, n) ==
            Onto([Field(KStr(ADVANCED), LTable(AdvancedFields(inner, lib)))],
                 FieldsUpTo(s, i + |Block(ADVANCED, AdvancedLines(inner, lib))|, n))
  {
    hide Lies, FieldsUpTo, Onto, AdvancedLines, AdvancedFields, Block, BlockStart, WritableAdvanced, ReadFields,
         PlainKey, Prepend;
    var lines := AdvancedLines(inner, lib);
    AdvancedIsPlain();
    BlockHolds(s, i, ADVANCED, lines);
    ReadAdvancedLines(s, i + |BlockStart(ADVANCED)|, inner, lib);
    TableUpTo(s, i, ADVANCED, lines, AdvancedFields(inner, lib), n);
  }

  lemma TableUpTo(s: string, i: nat, key: string, lines: string, fields: seq<Field>, n: nat)
    requires Lies(s, i, Block(key, lines)) && PlainKey(key) && i + |Block(key, lines)| <= n <= |s|
    requires i + |BlockStart(key)| + |lines| <= |s|
    requires ReadFields(s, i + |BlockStart(key)|) == Prepend(fields, ReadFields(s, i + |BlockStart(key)| + |lines|))
    ensures FieldsUpTo(s, i, n) == Onto([Field(KStr(key), LTable(fields))], FieldsUpTo(s, i + |Block(key, lines)|, n))
  {
    hide Lies, FieldsUpTo, Onto, Block, BlockStart, ReadFields, PlainKey, Prepend, FieldThen;
    BlockIsField(s, i, key, lines, fields);
    BlockExtent(s, i, key, lines);
    FieldThenUpTo(s, i, Field(KStr(key), LTable(fields)), i + |BlockStart(key)| + |lines| + 2,
                  i + |Block(key, lines)|, n);
  }

  lemma BlockHolds(s: string, i: nat, key: string, lines: string)
    requires Lies(s, i, Block(key, lines))
    ensures Lies(s, i + |BlockStart(key)|, lines) && i + |BlockStart(key)| + |lines| <= |s|
  {
    hide Lies, BlockStart, BlockEnd;
    assert Block(key, lines) == BlockStart(key) + (lines + BlockEnd(key));
    LiesSplit(s, i, BlockStart(key), lines + BlockEnd(key));
    LiesSplit(s, i + |BlockStart(key)|, lines, BlockEnd(key));
    LiesBounds(s, i + |BlockStart(key)|, lines);
  }

  lemma BlockExtent(s: string, i: nat, key: string, lines: string)
    requires Lies(s, i, Block(key, lines)) && PlainKey(key)
    ensures Skip(s, i) < i + |Block(key, lines)|
    ensures i + |BlockStart(key)| + |lines| + 2 < i + |Block(key, lines)|
  {
    hide Lies, Skip, PlainKey;
    var rest := "\"" + key + "\"] = \r\n\t{\r\n" + lines + BlockEnd(key);
    assert Block(key, lines) == "\t" + ("[" + rest);
    LiesSplit(s, i, "\t", "[" + rest);
    LiesSplit(s, i + 1, "[", rest);
    LiesChar(s, i + 1, '[');
    SkipBlanks(s, i, "\t");
    SkipNothing(s, i + 1);
  }

  // ---------------------------------------------------------------------------------------------
  // No earlier block key
  // ---------------------------------------------------------------------------------------------

  ghost predicate NoKey(s: string, lo: nat, hi: nat) {
    forall j :: lo <= j < hi ==> !OccursAt(s, BLOCK_KEY, j)
  }

  lemma KeyStarts(s: string, j: nat)
    requires OccursAt(s, BLOCK_KEY, j)
    ensures j + 15 <= |s| && s[j] == '[' && s[j + 1] == '"' && s[j + 2] == 'm'
    ensures s[j + 2..j + 13] == MISSION_LIST && s[j + 13] == '"'
  {
    var k := s[j..j + 15];
    assert k == BLOCK_KEY && |BLOCK_KEY| == 15;
    assert s[j] == k[0] && s[j + 1] == k[1] && s[j + 2] == k[2] && s[j + 13] == k[13];
    assert k[2..13] == MISSION_LIST;
    assert s[j + 2..j + 13] == k[2..13];
  }

  lemma NoBracketNoKey(s: string, i: nat, x: string)
    requires Lies(s, i, x) && '[' !in x
    ensures NoKey(s, i, i + |x|)
  {
    hide OccursAt;
    forall j | i <= j < i + |x|
      ensures !OccursAt(s, BLOCK_KEY, j)
    {
      assert s[j] == x[j - i];
      if OccursAt(s, BLOCK_KEY, j) {
        KeyStarts(s, j);
      }
    }
  }

  lemma NoKeyJoin(s: string, lo: nat, mid: nat, hi: nat)
    requires NoKey(s, lo, mid) && NoKey(s, mid, hi)
    ensures NoKey(s, lo, hi)
  {
  }

  // Another key in brackets is not the block key, and none starts inside it.
  lemma OtherKey(s: string, i: nat, key: string)
    requires Lies(s, i, "[\"" + key + "\"]") && PlainKey(key) && key != MISSION_LIST
    ensures NoKey(s, i, i + |key| + 4)
  {
    hide OccursAt, PlainKey;
    var x := "[\"" + key + "\"]";
    forall j | i <= j < i + |key| + 4
      ensures !OccursAt(s, BLOCK_KEY, j)
    {
      if OccursAt(s, BLOCK_KEY, j) {
        KeyStarts(s, j);
        InOtherKey(s, i, key, j);
      }
    }
  }

  lemma InOtherKey(s: string, i: nat, key: string, j: nat)
    requires Lies(s, i, "[\"" + key + "\"]") && PlainKey(key) && i <= j < i + |key| + 4
    requires j + 15 <= |s| && s[j] == '[' && s[j + 1] == '"' && s[j + 2] == 'm'
    requires s[j + 2..j + 13] == MISSION_LIST && s[j + 13] == '"'
    ensures key == MISSION_LIST
  {
    hide Lies;
    assert "[\"" + key + "\"]" == "[\"" + (key + "\"]");
    LiesSplit(s, i, "[\"", key + "\"]");
    LiesSplit(s, i + 2, key, "\"]");
    if j > i {
      InsideKey(s, i, key, j);
    } else {
      KeyEnds(s, i + 2, key);
    }
  }

  lemma InsideKey(s: string, i: nat, key: string, j: nat)
    requires Lies(s, i, "[\"") && Lies(s, i + 2, key) && Lies(s, i + 2 + |key|, "\"]") && PlainKey(key)
    requires i < j < i + |key| + 4 && j + 15 <= |s|
    ensures !(s[j] == '[' && s[j + 1] == '"' && s[j + 2] == 'm')
  {
    assert s[i + 1] == "[\""[1] && s[i + 2 + |key|] == "\"]"[0] && s[i + 3 + |key|] == "\"]"[1];
    if i + 2 <= j && j + 1 < i + 2 + |key| {
      assert s[j + 1] == key[j - i - 1];
    }
  }

  // Two plain texts up to a quote at the same place are the same.
  lemma KeyEnds(s: string, i: nat, key: string)
    requires Lies(s, i, key) && Lies(s, i + |key|, "\"]") && PlainKey(key)
    requires i + 11 < |s| && s[i..i + 11] == MISSION_LIST && s[i + 11] == '"'
    ensures key == MISSION_LIST
  {
    assert s[i + |key|] == "\"]"[0];
    assert |key| >= 11;
    if |key| > 11 {
      NoQuoteInKey(s, i, key, 11);
    } else {
      LiesSlice(s, i, key);
    }
  }

  lemma NoQuoteInKey(s: string, i: nat, key: string, k: nat)
    requires Lies(s, i, key) && PlainKey(key) && k < |key|
    ensures s[i + k] != '"'
  {
    assert s[i + k] == key[k];
  }

  // In an escaped string, every quote has a backslash before it.
  lemma {:induction false} QuotesEscaped(value: string)
    ensures forall k :: 0 <= k < |EscapedChars(value)| && EscapedChars(value)[k] == '"' ==>
              k > 0 && EscapedChars(value)[k - 1] == '\\'
  {
    if value != "" {
      QuotesEscaped(value[1..]);
      var head, tail := EscapeChar(value[0]), EscapedChars(value[1..]);
      assert EscapedChars(value) == head + tail;
      forall k | 0 <= k < |head + tail| && (head + tail)[k] == '"'
        ensures k > 0 && (head + tail)[k - 1] == '\\'
      {
        if k >= |head| {
          assert tail[k - |head|] == '"';
          assert (head + tail)[k - 1] == tail[k - |head| - 1];
        }
      }
    }
  }

  lemma NoKeyInString(s: string, i: nat, value: string)
    requires Lies(s, i, "\"" + EscapeLuaString(value) + "\",")
    ensures NoKey(s, i, i + |EscapeLuaString(value)| + 3)
  {
    hide OccursAt, EscapeLuaString;
    EscapeInOnePass(value);
    QuotesEscaped(Normalized(value));
    var text := EscapeLuaString(value);
    var x := "\"" + text + "\",";
    forall j | i <= j < i + |x|
      ensures !OccursAt(s, BLOCK_KEY, j)
    {
      if OccursAt(s, BLOCK_KEY, j) {
        KeyStarts(s, j);
        NoKeyInText(s, i, text, j);
      }
    }
  }

  lemma NoKeyInText(s: string, i: nat, text: string, j: nat)
    requires Lies(s, i, "\"" + text + "\",") && i <= j < i + |text| + 3
    requires forall k :: 0 <= k < |text| && text[k] == '"' ==> k > 0 && text[k - 1] == '\\'
    requires j + 15 <= |s|
    ensures !(s[j] == '[' && s[j + 1] == '"' && s[j + 2] == 'm')
  {
    var x := "\"" + text + "\",";
    assert forall k :: 0 <= k < |x| ==> s[i + k] == x[k];
    assert forall k :: 0 <= k < |text| ==> x[k + 1] == text[k];
    assert x[0] == '"' && x[|text| + 1] == '"' && x[|text| + 2] == ',';
    var k := j - i;
    if 0 < k < |text| {
      assert s[j] == text[k - 1] && s[j + 1] == text[k];
    }
  }

  lemma NoKeyInToken(s: string, i: nat, token: Token)
    requires Known(token) && Lies(s, i, Print(token) + ",\r\n")
    ensures NoKey(s, i, i + |Print(token)| + 3)
  {
    hide OccursAt, EscapeLuaString, NoKey;
    match token
    case Quoted(value) =>
      assert Print(token) + ",\r\n" == ("\"" + EscapeLuaString(value) + "\",") + "\r\n";
      LiesSplit(s, i, "\"" + EscapeLuaString(value) + "\",", "\r\n");
      NoKeyInString(s, i, value);
      NoBracketNoKey(s, i + |EscapeLuaString(value)| + 3, "\r\n");
      NoKeyJoin(s, i, i + |EscapeLuaString(value)| + 3, i + |Print(token)| + 3);
    case Integer(n) =>
      NoBracketNoKey(s, i, Print(token) + ",\r\n");
    case Word(name) =>
      WordsHaveNoBracket(name);
      NoBracketNoKey(s, i, Print(token) + ",\r\n");
  }

  lemma WordsHaveNoBracket(name: string)
    requires NamedValue(name).Some?
    ensures '[' !in name
  {
  }

  lemma NoKeyInLine(s: string, i: nat, indent: string, key: string, token: Token)
    requires Lies(s, i, TokenLine(indent, key, token)) && (indent == "\t" || indent == "\t\t")
    requires PlainKey(key) && key != MISSION_LIST && Known(token)
    ensures NoKey(s, i, i + |TokenLine(indent, key, token)|)
  {
    hide OccursAt, NoKey, Known, PlainKey, Print, Lies;
    var bracketed, last := "[\"" + key + "\"]", Print(token) + ",\r\n";
    assert TokenLine(indent, key, token) == indent + (bracketed + (" = " + last));
    LiesSplit(s, i, indent, bracketed + (" = " + last));
    LiesSplit(s, i + |indent|, bracketed, " = " + last);
    LiesSplit(s, i + |indent| + |bracketed|, " = ", last);
    var a := i + |indent|;
    var b := a + |bracketed|;
    NoBracketNoKey(s, i, indent);
    OtherKey(s, a, key);
    NoBracketNoKey(s, b, " = ");
    NoKeyInToken(s, b + 3, token);
    NoKeyJoin(s, i, a, b);
    NoKeyJoin(s, i, b, b + 3);
    NoKeyJoin(s, i, b + 3, b + 3 + |last|);
  }

  lemma {:induction false} NoKeyInTop(s: string, i: nat, entries: seq<(string, Json)>, lib: Library)
    requires Lies(s, i, TopLines(entries, lib)) && Writable(entries)
    ensures NoKey(s, i, i + |TopLines(entries, lib)|)
    decreases |entries|
  {
    hide Lies, NoKey, PlainKey, TokenLine, TopToken, Known;
    if entries == [] {
      NoBracketNoKey(s, i, "");
    } else {
      var entry, rest := entries[0], entries[1..];
      var line := TopLine(entry, lib);
      assert TopLines(entries, lib) == line + TopLines(rest, lib);
      LiesSplit(s, i, line, TopLines(rest, lib));
      if IsPrintedApart(entry.0) {
        NoBracketNoKey(s, i, "");
      } else {
        TopTokenKnown(entry.0, entry.1, lib);
        NoKeyInLine(s, i, "\t", entry.0, TopToken(entry.0, entry.1, lib));
      }
      NoKeyInTop(s, i + |line|, rest, lib);
      NoKeyJoin(s, i, i + |line|, i + |TopLines(entries, lib)|);
    }
  }

  // The advanced table has no entry of its own by the name of the mission list.
  predicate OwnKeys(inner: seq<(string, Json)>) {
    forall e <- inner :: e.0 != MISSION_LIST
  }

  lemma {:induction false} NoKeyInAdvanced(s: string, i: nat, inner: seq<(string, Json)>, lib: Library)
    requires Lies(s, i, AdvancedLines(inner, lib)) && WritableAdvanced(inner, lib) && OwnKeys(inner)
    ensures NoKey(s, i, i + |AdvancedLines(inner, lib)|)
    decreases |inner|
  {
    hide Lies, NoKey, PlainKey, TokenLine, AdvancedToken, Known;
    if inner == [] {
      NoBracketNoKey(s, i, "");
    } else {
      var entry, rest := inner[0], inner[1..];
      var line := TokenLine("\t\t", entry.0, AdvancedToken(entry.1, lib));
      assert AdvancedLines(inner, lib) == line + AdvancedLines(rest, lib);
      LiesSplit(s, i, line, AdvancedLines(rest, lib));
      AdvancedTokenKnown(entry.1, lib);
      NoKeyInLine(s, i, "\t\t", entry.0, AdvancedToken(entry.1, lib));
      NoKeyInAdvanced(s, i + |line|, rest, lib);
      NoKeyJoin(s, i, i + |line|, i + |AdvancedLines(inner, lib)|);
    }
  }

  lemma NoKeyInAdvancedBlock(s: string, i: nat, entries: seq<(string, Json)>, lib: Library)
    requires Lies(s, i, AdvancedBlock(entries, lib))
    requires match Lookup(entries, ADVANCED)
             case Some(JObject(inner)) => WritableAdvanced(inner, lib) && OwnKeys(inner) case _ => true
    ensures NoKey(s, i, i + |AdvancedBlock(entries, lib)|)
  {
    hide Lies, NoKey, AdvancedLines, WritableAdvanced, OwnKeys, Lookup, BlockStart, BlockEnd, PlainKey;
    match Lookup(entries, ADVANCED)
    case Some(JObject(inner)) =>
      var lines := AdvancedLines(inner, lib);
      AdvancedIsPlain();
      assert Block(ADVANCED, lines) == BlockStart(ADVANCED) + (lines + BlockEnd(ADVANCED));
      LiesSplit(s, i, BlockStart(ADVANCED), lines + BlockEnd(ADVANCED));
      var a := i + |BlockStart(ADVANCED)|;
      LiesSplit(s, a, lines, BlockEnd(ADVANCED));
      NoKeyInStart(s, i, ADVANCED);
      NoKeyInAdvanced(s, a, inner, lib);
      NoKeyInEnd(s, a + |lines|, ADVANCED);
      NoKeyJoin(s, i, a, a + |lines|);
      NoKeyJoin(s, i, a + |lines|, i + |Block(ADVANCED, lines)|);
    case _ =>
      NoBracketNoKey(s, i, "");
  }

  lemma AdvancedIsPlain()
    ensures PlainKey(ADVANCED) && ADVANCED != MISSION_LIST
  {
  }

  lemma NoKeyInStart(s: string, i: nat, key: string)
    requires Lies(s, i, BlockStart(key)) && PlainKey(key) && key != MISSION_LIST
    ensures NoKey(s, i, i + |BlockStart(key)|)
  {
    hide Lies, NoKey, PlainKey;
    var bracketed := "[\"" + key + "\"]";
    assert BlockStart(key) == "\t" + (bracketed + " = \r\n\t{\r\n");
    LiesSplit(s, i, "\t", bracketed + " = \r\n\t{\r\n");
    LiesSplit(s, i + 1, bracketed, " = \r\n\t{\r\n");
    NoBracketNoKey(s, i, "\t");
    OtherKey(s, i + 1, key);
    NoBracketNoKey(s, i + 1 + |bracketed|, " = \r\n\t{\r\n");
    NoKeyJoin(s, i, i + 1, i + 1 + |bracketed|);
    NoKeyJoin(s, i, i + 1 + |bracketed|, i + |BlockStart(key)|);
  }

  lemma NoKeyInEnd(s: string, i: nat, key: string)
    requires Lies(s, i, BlockEnd(key)) && PlainKey(key) && key != MISSION_LIST
    ensures NoKey(s, i, i + |BlockEnd(key)|)
  {
    hide Lies, NoKey, PlainKey;
    var start, bracketed := "\t}, -- end of ", "[\"" + key + "\"]";
    assert BlockEnd(key) == start + (bracketed + "\r\n");
    LiesSplit(s, i, start, bracketed + "\r\n");
    LiesSplit(s, i + |start|, bracketed, "\r\n");
    NoBracketNoKey(s, i, start);
    OtherKey(s, i + |start|, key);
    NoBracketNoKey(s, i + |start| + |bracketed|, "\r\n");
    NoKeyJoin(s, i, i + |start|, i + |start| + |bracketed|);
    NoKeyJoin(s, i, i + |start| + |bracketed|, i + |BlockEnd(key)|);
  }

  // ---------------------------------------------------------------------------------------------
  // The saved file is ready
  // ---------------------------------------------------------------------------------------------

  // The missions of the payload are these items, and no advanced option is called like the mission list.
  predicate Holds(payload: Json, items: seq<Json>) {
    && Lookup(Entries(payload), MISSION_LIST) == Some(JArray(items))
    && (match Lookup(Entries(payload), ADVANCED) case Some(JObject(inner)) => OwnKeys(inner) case _ => true)
  }

  // Every mission is a clean path; items that are not strings are not printed.
  predicate CleanItems(items: seq<Json>) {
    forall item <- items :: item.JString? ==> CleanPath(item.s)
  }

  lemma {:induction false} LeadingClean(items: seq<Json>)
    requires CleanItems(items)
    ensures CleanQueue(LeadingStrings(items))
  {
    hide CleanPath;
    if items != [] && items[0].JString? {
      assert items[0] in items;
      LeadingClean(items[1..]);
    }
  }

  lemma CleanItemsAre(items: seq<Json>)
    requires CleanItems(items)
    ensures WritableMissions(items) && NoBraces(items)
  {
    hide PlainPath;
  }

  // The printed mission block stands between a tab and a comment.
  lemma BlockOfItems(items: seq<Json>)
    ensures Block(MISSION_LIST, MissionLines(items, 0)) ==
            "\t" + (ItemsBlock(items) + " -- end of [\"missionList\"]\r\n")
  {
    hide MissionLines, StringFieldHead, BlockStart, BlockEnd;
    var lines := MissionLines(items, 0);
    HeadAndEnd();
    var head, last := StringFieldHead("", MISSION_LIST), " -- end of [\"missionList\"]\r\n";
  }

  lemma HeadAndEnd()
    ensures BlockStart(MISSION_LIST) == "\t" + (StringFieldHead("", MISSION_LIST) + "\r\n\t{\r\n")
    ensures BlockEnd(MISSION_LIST) == "\t}," + " -- end of [\"missionList\"]\r\n"
  {
    assert "\t}, -- end of [\"" == "\t}," + " -- end of [\"";
  }

  // Where the block stands in the saved file, and what is around it.
  lemma SavedLayout(payload: Json, lib: Library, items: seq<Json>) returns (a: nat, m: nat, e: nat)
    requires Holds(payload, items)
    ensures var entries, s := Entries(payload), SettingsText(payload, lib);
            && Lies(s, 0, FILE_START)
            && Lies(s, 11, TopLines(entries, lib)) && a == 11 + |TopLines(entries, lib)|
            && Lies(s, a, AdvancedBlock(entries, lib)) && m == a + |AdvancedBlock(entries, lib)|
            && Lies(s, m, "\t") && Lies(s, m + 1, ItemsBlock(items))
            && Lies(s, m + 1 + |ItemsBlock(items)|, " -- end of [\"missionList\"]\r\n")
            && e == m + 1 + |ItemsBlock(items)| + 28
            && Lies(s, e, FILE_END) && e + |FILE_END| == |s|
  {
    hide Lies, TopLines, AdvancedBlock, MissionLines, ItemsBlock, Lookup;
    a, m, e := Layout(payload, lib);
    var s, block, last := SettingsText(payload, lib), ItemsBlock(items), " -- end of [\"missionList\"]\r\n";
    BlockOfItems(items);
    assert MissionBlock(Entries(payload)) == "\t" + (block + last);
    LiesSplit(s, m, "\t", block + last);
    LiesSplit(s, m + 1, block, last);
  }

  lemma SavedBefore(s: string, payload: Json, lib: Library, a: nat, m: nat)
    requires Saveable(payload, lib) && TopReadable(Entries(payload), lib)
    requires Lies(s, 0, FILE_START) && m + 1 < |s|
    requires Lies(s, 11, TopLines(Entries(payload), lib)) && a == 11 + |TopLines(Entries(payload), lib)|
    requires Lies(s, a, AdvancedBlock(Entries(payload), lib)) && m == a + |AdvancedBlock(Entries(payload), lib)|
    requires Lies(s, m, "\t") && At(s, m + 1, '[')
    ensures ReadOpening(s) == Some(9)
    ensures FieldsUpTo(s, 9, m + 1) ==
            Some(TopFields(Entries(payload), lib) + AdvancedBlockFields(Entries(payload), lib))
  {
    hide Lies, FieldsUpTo, TopLines, TopFields, AdvancedBlock, AdvancedBlockFields, Skip, ReadOpening, Writable, Lookup,
         TopReadable;
    var entries := Entries(payload);
    ReadFileStart(s);
    SameUpTo(s, 9, 11, m + 1);
    TopLinesUpTo(s, 11, entries, lib, m + 1);
    AdvancedUpTo(s, a, entries, lib, m + 1);
    SkipBlanks(s, m, "\t");
    SkipNothing(s, m + 1);
    UpToHere(s, m, m + 1);
    assert AdvancedBlockFields(entries, lib) + [] == AdvancedBlockFields(entries, lib);
  }

  lemma UpToHere(s: string, i: nat, n: nat)
    requires i <= |s| && n <= |s| && Skip(s, i) == n
    ensures FieldsUpTo(s, i, n) == Some([])
  {
    hide Skip, ReadField;
  }

  lemma {:induction false} NoMissionsBefore(entries: seq<(string, Json)>, lib: Library)
    ensures NoMissionList(TopFields(entries, lib))
  {
    if entries != [] {
      NoMissionsBefore(entries[1..], lib);
    }
  }

  lemma SavedAfter(s: string, close: nat, e: nat)
    requires At(s, close + 1, ',') && Lies(s, close + 2, " -- end of [\"missionList\"]\r\n") && e == close + 2 + 28
    requires Lies(s, e, FILE_END) && e + |FILE_END| == |s|
    ensures AfterField(s, close + 1) == Some(([], e + 1)) && Skip(s, e + 1) == |s|
  {
    hide Lies, Skip, ReadFields;
    var comment := "end of [\"missionList\"]";
    assert " -- end of [\"missionList\"]\r\n" == " -- " + comment + "\r\n";
    SkipNothing(s, close + 1);
    SkipComment(s, close + 2, comment);
    ReadFileEnd(s, e);
    SameFields(s, close + 2, e);
  }

  lemma FoundInSaved(s: string, payload: Json, lib: Library, items: seq<Json>, a: nat, m: nat)
    requires Saveable(payload, lib) && Holds(payload, items)
    requires Lies(s, 0, FILE_START)
    requires Lies(s, 11, TopLines(Entries(payload), lib)) && a == 11 + |TopLines(Entries(payload), lib)|
    requires Lies(s, a, AdvancedBlock(Entries(payload), lib)) && m == a + |AdvancedBlock(Entries(payload), lib)|
    requires Lies(s, m, "\t") && Lies(s, m + 1, ItemsBlock(items))
    ensures Find(s, BLOCK_KEY, 0) == Some(m + 1)
  {
    hide Lies, TopLines, AdvancedBlock, ItemsBlock, Lookup, Writable, OccursAt, OwnKeys, WritableAdvanced;
    NoBracketNoKey(s, 0, FILE_START);
    NoKeyInTop(s, 11, Entries(payload), lib);
    NoKeyInAdvancedBlock(s, a, Entries(payload), lib);
    NoBracketNoKey(s, m, "\t");
    NoKeyJoin(s, 0, 11, a);
    NoKeyJoin(s, 0, a, m);
    NoKeyJoin(s, 0, m, m + 1);
    ItemsParts(s, m + 1, items);
    KeyAtHead(s, m + 1);
    FindIs(s, BLOCK_KEY, 0, m + 1);
  }

  /** The text of a saved payload whose missions are clean paths is ready for edits; its queue is the missions up to
      the first item that is not a string. */
  lemma SavedIsReady(payload: Json, lib: Library, items: seq<Json>)
    requires Saveable(payload, lib) && TopReadable(Entries(payload), lib)
    requires Holds(payload, items) && CleanItems(items)
    ensures Ready(SettingsText(payload, lib))
    ensures LoadSettings(SettingsText(payload, lib)) == Some(Coerced(payload, lib))
    ensures MissionQueue(Coerced(payload, lib)) == LeadingStrings(items)
  {
    hide LoadSettings, SettingsText, TopReadable, Saveable, CleanPath, Sees, Holds, WellSeparated;
    var s := SettingsText(payload, lib);
    var span, v := SavedIsSeen(payload, lib, items);
    SaveThenLoad(payload, lib);
    SavedMissions(payload, lib, items);
    LeadingClean(items);
    assert ReadyAt(s, span, v);
  }

  lemma SavedMissions(payload: Json, lib: Library, items: seq<Json>)
    requires Holds(payload, items)
    ensures MissionQueue(Coerced(payload, lib)) == LeadingStrings(items)
  {
    hide CoercedTop, CoercedAdvanced, LeadingStrings, Lookup;
  }

  lemma SavedIsSeen(payload: Json, lib: Library, items: seq<Json>) returns (span: Span, v: View)
    requires Saveable(payload, lib) && TopReadable(Entries(payload), lib)
    requires Holds(payload, items) && CleanItems(items)
    ensures Sees(SettingsText(payload, lib), span, v) && WellSeparated(SettingsText(payload, lib), span)
  {
    hide Lies, FieldsUpTo, TopLines, TopFields, AdvancedBlock, AdvancedBlockFields, ItemsBlock, Skip, ReadOpening,
         Writable, Lookup, TopReadable, SettingsText, BlockSpan, Find, AfterField, BlockRead, MissionFields,
         WritableAdvanced, WritableMissions, CleanItems, NoMissionList, Holds, Sees, WellSeparated, At;
    var s := SettingsText(payload, lib);
    var a, m, e := SavedLayout(payload, lib, items);
    FoundInSaved(s, payload, lib, items, a, m);
    var close := BlockSeen(s, m, items, e);
    SavedBefore(s, payload, lib, a, m);
    NoMissionsInFront(payload, lib);
    var before := TopFields(Entries(payload), lib) + AdvancedBlockFields(Entries(payload), lib);
    span := Span(m + 1, m + 1 + BRACE_OFFSET, close, close + 2);
    v := View(9, before, MissionFields(items, 0), [], e + 1);
    AllSeen(s, span, v);
  }

  lemma BlockSeen(s: string, m: nat, items: seq<Json>, e: nat) returns (close: nat)
    requires CleanItems(items) && Lies(s, m + 1, ItemsBlock(items)) && Find(s, BLOCK_KEY, 0) == Some(m + 1)
    requires Lies(s, m + 1 + |ItemsBlock(items)|, " -- end of [\"missionList\"]\r\n")
    requires e == m + 1 + |ItemsBlock(items)| + 28 && Lies(s, e, FILE_END) && e + |FILE_END| == |s|
    ensures BlockSpan(s) == Some(Span(m + 1, m + 1 + BRACE_OFFSET, close, close + 2))
    ensures BlockRead(s, m + 1, m + 1 + BRACE_OFFSET, close, MissionFields(items, 0))
    ensures AfterField(s, close + 1) == Some(([], e + 1)) && Skip(s, e + 1) == |s|
    ensures m + 1 < |s| && At(s, m + 1, '[') && At(s, close + 1, ',')
  {
    hide Lies, ItemsBlock, Skip, BlockSpan, Find, AfterField, BlockRead, MissionFields, CleanPath, MissionLines;
    ItemsParts(s, m + 1, items);
    close := m + 1 + |ItemsBlock(items)| - 2;
    CleanItemsAre(items);
    SpanOfItems(s, m + 1, items);
    ReadItemsBlock(s, m + 1, items);
    BracketAtHead(s, m + 1);
    SavedAfter(s, close, e);
  }

  lemma AllSeen(s: string, span: Span, v: View)
    requires BlockSpan(s) == Some(span) && ReadOpening(s) == Some(v.inside) && v.inside <= span.start
    requires FieldsUpTo(s, v.inside, span.start) == Some(v.before) && NoMissionList(v.before)
    requires BlockRead(s, span.start, span.brace, span.close, v.missions)
    requires AfterField(s, span.close + 1) == Some((v.after, v.end)) && v.after == [] && Skip(s, v.end) == |s|
    requires At(s, span.close + 1, ',')
    ensures Sees(s, span, v) && WellSeparated(s, span)
  {
  }

  lemma NoMissionsInFront(payload: Json, lib: Library)
    requires Saveable(payload, lib)
    ensures var before := TopFields(Entries(payload), lib) + AdvancedBlockFields(Entries(payload), lib);
            NoMissionList(before)
  {
    hide TopFields, AdvancedFields, Lookup;
    NoMissionsBefore(Entries(payload), lib);
    AdvancedIsPlain();
  }

  /** Saving, any run of queue edits and loading: the queue is the list of the missions that Lua reads after the same
      run, and every other setting is the payload's. */
  lemma SaveEditLoad(payload: Json, lib: Library, items: seq<Json>, requests: seq<Request>)
    requires Saveable(payload, lib) && TopReadable(Entries(payload), lib)
    requires Holds(payload, items) && CleanItems(items) && forall r <- requests :: CleanPath(r.file)
    ensures var t := RunFile(SettingsText(payload, lib), requests);
            && t.Some? && LoadSettings(t.value).Some?
            && MissionQueue(LoadSettings(t.value).value) == RunQueue(LeadingStrings(items), requests)
            && LoadSettings(t.value).value.(missions := None) == Coerced(payload, lib).(missions := None)
  {
    hide SettingsText, LoadSettings, Ready, CleanPath, RunFile, RunQueue, MissionQueue, Outside, Coerced, Saveable,
         TopReadable, Holds;
    SavedIsReady(payload, lib, items);
    RunRefinesList(SettingsText(payload, lib), requests);
  }

  // ---------------------------------------------------------------------------------------------
  // Files that fail
  // ---------------------------------------------------------------------------------------------

  // The block, empty, and a semicolon after it.
  const SEMICOLON_FILE := FILE_START + (StringFieldHead("", MISSION_LIST) + ("{" + ("}" + (";" + FILE_END))))

  const SEMICOLON_SPAN := Span(11, 29, 30, 31)

  lemma SemicolonParts()
    ensures var s, head := SEMICOLON_FILE, StringFieldHead("", MISSION_LIST);
            && |FILE_START| == 11 && |head| == HEAD_LENGTH
            && Lies(s, 0, FILE_START) && Lies(s, 11, head) && Lies(s, 29, "{")
            && At(s, 29, '{') && At(s, 30, '}') && At(s, 31, ';')
            && Lies(s, 32, FILE_END) && 32 + |FILE_END| == |s|
  {
    hide Lies;
    var s, head := SEMICOLON_FILE, StringFieldHead("", MISSION_LIST);
    assert s == "" + s + "";
    LiesInside("", s, "");
    LiesSplit(s, 0, FILE_START, head + ("{" + ("}" + (";" + FILE_END))));
    LiesSplit(s, 11, head, "{" + ("}" + (";" + FILE_END)));
    LiesSplit(s, 29, "{", "}" + (";" + FILE_END));
    LiesSplit(s, 30, "}", ";" + FILE_END);
    LiesSplit(s, 31, ";", FILE_END);
    LiesChar(s, 29, '{');
    LiesChar(s, 30, '}');
    LiesChar(s, 31, ';');
  }

  lemma SemicolonFound()
    ensures BlockSpan(SEMICOLON_FILE) == Some(SEMICOLON_SPAN)
  {
    hide Lies, OccursAt, Find;
    var s := SEMICOLON_FILE;
    SemicolonParts();
    hide SEMICOLON_FILE;
    NoBracketNoKey(s, 0, FILE_START);
    KeyAtHead(s, 11);
    FindIs(s, BLOCK_KEY, 0, 11);
    FindChar(s, 11, StringFieldHead("", MISSION_LIST), '{');
    FindChar(s, 29, "{", '}');
  }

  lemma SemicolonSeen()
    ensures SEMICOLON_SPAN.close < |SEMICOLON_FILE| && !WellSeparated(SEMICOLON_FILE, SEMICOLON_SPAN)
    ensures Sees(SEMICOLON_FILE, SEMICOLON_SPAN, View(9, [], [], [], 33))
  {
    hide Lies, ReadFields, ReadFieldHead, ReadOpening, Skip, BlockSpan;
    var s := SEMICOLON_FILE;
    SemicolonParts();
    SemicolonFound();
    hide SEMICOLON_FILE;
    ReadFileStart(s);
    ReadStringFieldHead(s, 11, "", MISSION_LIST);
    SkipNothing(s, 29);
    SkipNothing(s, 30);
    SkipNothing(s, 31);
    ReadClosingBrace(s, 30);
    ReadFileEnd(s, 32);
  }

  /** A file that can be read, with a semicolon after its mission list: once its queue is edited it cannot be
      read any more. */
  lemma SemicolonBreaksFile(queue: seq<string>)
    requires PlainQueue(queue)
    ensures LoadSettings(SEMICOLON_FILE).Some? && BlockSpan(SEMICOLON_FILE) == Some(SEMICOLON_SPAN)
    ensures LoadSettings(Edited(SEMICOLON_FILE, SEMICOLON_SPAN, queue)) == None
  {
    hide LoadSettings, Sees, Edited, PlainQueue, WellSeparated, BlockSpan, SEMICOLON_FILE;
    SemicolonSeen();
    SemicolonFound();
    EditedSettings(SEMICOLON_FILE, SEMICOLON_SPAN, View(9, [], [], [], 33), queue);
  }

  /** A mission whose path holds a closing brace, put into a saved file: Lua reads the queue, but the next search
      takes the brace for the end of the block. */
  lemma BraceEndsBlock(lib: Library) returns (span: Span, v: View)
    ensures var s := SettingsText(JObject([(MISSION_LIST, JArray([]))]), lib);
            && Sees(s, span, v)
            && var t := Edited(s, span, ["}"]);
               && LoadSettings(t).Some? && LoadSettings(t).value.missions == Some(["}"])
               && BlockSpan(t).Some? && BlockSpan(t).value.close < NewClose(span, ["}"])
  {
    hide SettingsText, LoadSettings, Sees, WellSeparated, Edited, BlockSpan, Lookup;
    var payload := JObject([(MISSION_LIST, JArray([]))]);
    var s := SettingsText(payload, lib);
    EmptyQueueSaved(payload, lib);
    span, v := SavedIsSeen(payload, lib, []);
    assert PlainQueue(["}"]);
    assert "}" in ["}"] && '}' in "}";
    EditedSettings(s, span, v, ["}"]);
    EditedSees(s, span, v, ["}"]);
  }

  lemma EmptyQueueSaved(payload: Json, lib: Library)
    requires payload == JObject([(MISSION_LIST, JArray([]))])
    ensures Saveable(payload, lib) && TopReadable(Entries(payload), lib) && Holds(payload, [])
  {
    assert |ADVANCED| < |MISSION_LIST|;
    LookupOne(MISSION_LIST, JArray([]), ADVANCED);
    LookupOne(MISSION_LIST, JArray([]), MISSION_LIST);
    assert JsonPaths([]) == [];
    hide Lookup;
  }
}
