/**
 Saving a payload and loading the file gives the payload's coerced values back.
*/
module SettingsRoundTrip {
  import opened Options
  import opened LuaText
  import opened LuaPrinting
  import opened SettingsLua

  // ---------------------------------------------------------------------------------------------
  // Reading the pieces of a printed line
  // ---------------------------------------------------------------------------------------------

  lemma {:induction false} SkipBlanks(s: string, i: nat, blanks: string)
    requires Lies(s, i, blanks)
    requires forall k :: 0 <= k < |blanks| ==> IsSpace(blanks[k])
    ensures Skip(s, i) == Skip(s, i + |blanks|)
    decreases |blanks|
  {
    if blanks != "" {
      assert s[i] == blanks[0];
      assert blanks == blanks[..1] + blanks[1..];
      LiesSplit(s, i, blanks[..1], blanks[1..]);
      SkipBlanks(s, i + 1, blanks[1..]);
    }
  }

  lemma {:induction false} SkipLineAt(s: string, i: nat, text: string)
    requires Lies(s, i, text)
    requires forall k :: 0 <= k < |text| ==> text[k] != '\n' && text[k] != '\r'
    requires At(s, i + |text|, '\r')
    ensures SkipLine(s, i) == i + |text|
    decreases |text|
  {
    if text != "" {
      assert s[i] == text[0];
      assert text == text[..1] + text[1..];
      LiesSplit(s, i, text[..1], text[1..]);
      SkipLineAt(s, i + 1, text[1..]);
    }
  }

  // A printed comment, up to the end of its line.
  lemma SkipComment(s: string, i: nat, text: string)
    requires Lies(s, i, " -- " + text + "\r\n")
    requires forall k :: 0 <= k < |text| ==> text[k] != '\n' && text[k] != '\r'
    ensures Skip(s, i) == Skip(s, i + |text| + 6)
  {
    assert " -- " + text + "\r\n" == " " + ("--" + (" " + (text + "\r\n")));
    LiesSplit(s, i, " ", "--" + (" " + (text + "\r\n")));
    LiesSplit(s, i + 1, "--", " " + (text + "\r\n"));
    LiesSplit(s, i + 3, " ", text + "\r\n");
    LiesSplit(s, i + 4, text, "\r\n");
    var end := i + 4 + |text|;
    assert s[i + 1] == "--"[0] && s[i + 2] == "--"[1] && s[i + 3] == " "[0];
    assert s[end] == "\r\n"[0];
    SkipBlanks(s, i, " ");
    SkipLineAt(s, i + 4, text);
    assert SkipLine(s, i + 3) == end;
    SkipBlanks(s, end, "\r\n");
  }

  // Nothing is skipped before a character that starts a token.
  predicate StartsToken(c: char) {
    !IsSpace(c) && c != '-'
  }

  lemma SkipNothing(s: string, i: nat)
    requires i < |s|
    requires StartsToken(s[i]) || (s[i] == '-' && !At(s, i + 1, '-'))
    ensures Skip(s, i) == i
  {
  }

  // `"] = ` or `] = ` after a key.
  lemma ReadPrintedAssign(s: string, i: nat)
    requires Lies(s, i, "] = ")
    ensures ReadAssign(s, i) == Some(i + 3)
    ensures i + 4 <= |s|
    ensures Skip(s, i + 3) == Skip(s, i + 4)
  {
    var text := "] = ";
    assert s[i] == text[0] && s[i + 1] == text[1] && s[i + 2] == text[2] && s[i + 3] == text[3];
    SkipNothing(s, i);
    SkipBlanks(s, i + 1, " ");
    SkipNothing(s, i + 2);
  }

  lemma ReadHeadParts(s: string, i: nat, key: LuaKey, afterKey: nat, end: nat)
    requires At(s, i, '[') && ReadKey(s, Skip(s, i + 1)) == Some((key, afterKey))
    requires ReadAssign(s, afterKey) == Some(end)
    ensures ReadFieldHead(s, i) == Some((key, end))
  {
    hide ReadKey, ReadAssign, Skip;
  }

  lemma ReadStringKey(s: string, i: nat, key: string)
    requires PlainKey(key) && At(s, i, '"') && Lies(s, i + 1, key + "\"")
    ensures ReadKey(s, i) == Some((KStr(key), i + |key| + 2))
  {
    hide Lies, ReadString, ReadInt, PlainKey;
    ReadPlainKey(s, i + 1, key);
  }

  // The head of a printed field whose key is a string.
  lemma ReadStringFieldHead(s: string, i: nat, indent: string, key: string)
    requires Lies(s, i, StringFieldHead(indent, key))
    requires forall k :: 0 <= k < |indent| ==> IsSpace(indent[k])
    requires PlainKey(key)
    ensures var start, end := i + |indent|, i + |StringFieldHead(indent, key)|;
            && Skip(s, i) == start && At(s, start, '[')
            && ReadFieldHead(s, start) == Some((KStr(key), end - 1))
            && Skip(s, end - 1) == Skip(s, end)
  {
    hide Lies, ReadAssign, ReadFieldHead, ReadKey, PlainKey, Skip;
    assert StringFieldHead(indent, key) == indent + ("[" + ("\"" + ((key + "\"") + "] = ")));
    var start := i + |indent|;
    LiesSplit(s, i, indent, "[" + ("\"" + ((key + "\"") + "] = ")));
    LiesSplit(s, start, "[", "\"" + ((key + "\"") + "] = "));
    LiesSplit(s, start + 1, "\"", (key + "\"") + "] = ");
    LiesSplit(s, start + 2, key + "\"", "] = ");
    LiesChar(s, start, '[');
    LiesChar(s, start + 1, '"');
    SkipBlanks(s, i, indent);
    SkipNothing(s, start);
    SkipNothing(s, start + 1);
    ReadStringKey(s, start + 1, key);
    ReadPrintedAssign(s, start + 3 + |key|);
    ReadHeadParts(s, start, KStr(key), start + 3 + |key|, start + 6 + |key|);
  }

  // The head of a numbered field.
  lemma ReadNumberFieldHead(s: string, i: nat, number: nat)
    requires Lies(s, i, "\t\t[" + IntText(number) + "] = ")
    ensures var end := i + |"\t\t[" + IntText(number) + "] = "|;
            && Skip(s, i) == i + 2 && At(s, i + 2, '[')
            && ReadFieldHead(s, i + 2) == Some((KInt(number), end - 1))
            && Skip(s, end - 1) == Skip(s, end)
  {
    hide Lies, ReadAssign, ReadFieldHead, ReadInt, IntText, Skip;
    var digits := IntText(number);
    assert "\t\t[" + digits + "] = " == "\t\t" + ("[" + (digits + "] = "));
    LiesSplit(s, i, "\t\t", "[" + (digits + "] = "));
    LiesSplit(s, i + 2, "[", digits + "] = ");
    LiesSplit(s, i + 3, digits, "] = ");
    assert "] = " == "]" + " = ";
    LiesSplit(s, i + 3 + |digits|, "]", " = ");
    LiesChar(s, i + 2, '[');
    LiesChar(s, i + 3 + |digits|, ']');
    SkipBlanks(s, i, "\t\t");
    SkipNothing(s, i + 2);
    ReadIntText(s, i + 3, number);
    NoCommentAtInteger(s, i + 3, number);
    SkipNothing(s, i + 3);
    ReadPrintedAssign(s, i + 3 + |digits|);
    assert ReadKey(s, i + 3) == Some((KInt(number), i + 3 + |digits|));
    ReadHeadParts(s, i + 2, KInt(number), i + 3 + |digits|, i + 6 + |digits|);
  }

  // ---------------------------------------------------------------------------------------------
  // Tokens
  // ---------------------------------------------------------------------------------------------

  predicate Known(token: Token) {
    match token
    case Word(name) => NamedValue(name).Some?
    case Raw(_) => false
    case _ => true
  }

  predicate Readable(token: Token) {
    token.Quoted? ==> !HasLoneCarriageReturn(token.value)
  }

  function Meaning(token: Token): LuaValue
    requires Known(token)
  {
    match token
    case Quoted(value) => LStr(Normalized(value))
    case Integer(n) => LInt(n)
    case Word(name) => NamedValue(name).value
  }

  function Prepend(fields: seq<Field>, r: Read<seq<Field>>): Read<seq<Field>> {
    match r
    case None => None
    case Some((rest, end)) => Some((fields + rest, end))
  }

  lemma PrependTwice(a: seq<Field>, b: seq<Field>, r: Read<seq<Field>>)
    ensures Prepend(a, Prepend(b, r)) == Prepend(a + b, r)
    ensures Prepend([], r) == r
    ensures Prepend(a, None) == None
  {
    if r.Some? {
      assert a + (b + r.value.0) == (a + b) + r.value.0;
      assert [] + r.value.0 == r.value.0;
    }
  }

  lemma {:induction false} NameEndAt(s: string, i: nat, name: string)
    requires Lies(s, i, name)
    requires forall k :: 0 <= k < |name| ==> IsNameChar(name[k])
    requires i + |name| < |s| && !IsNameChar(s[i + |name|])
    ensures NameEnd(s, i) == i + |name|
    decreases |name|
  {
    if name != "" {
      assert s[i] == name[0];
      assert name == name[..1] + name[1..];
      LiesSplit(s, i, name[..1], name[1..]);
      NameEndAt(s, i + 1, name[1..]);
    }
  }

  lemma ReadWord(s: string, i: nat, name: string)
    requires NamedValue(name).Some?
    requires Lies(s, i, name) && At(s, i + |name|, ',')
    ensures ReadValue(s, i) == Some((NamedValue(name).value, i + |name|))
    ensures Skip(s, i) == i
  {
    NameEndAt(s, i, name);
    LiesSlice(s, i, name);
    assert s[i] == name[0];
  }

  lemma ReadQuoted(s: string, i: nat, value: string)
    requires Lies(s, i, "\"" + EscapeLuaString(value) + "\"")
    ensures ReadValue(s, i) ==
            if HasLoneCarriageReturn(value) then None
            else Some((LStr(Normalized(value)), i + |EscapeLuaString(value)| + 2))
    ensures Skip(s, i) == i
  {
    hide Lies, EscapeLuaString, HasLoneCarriageReturn, Normalized, ReadString;
    assert "\"" + EscapeLuaString(value) + "\"" == "\"" + (EscapeLuaString(value) + "\"");
    LiesSplit(s, i, "\"", EscapeLuaString(value) + "\"");
    LiesChar(s, i, '"');
    ReadEscapedString(s, i + 1, value);
  }

  lemma ReadToken(s: string, i: nat, token: Token)
    requires Known(token)
    requires Lies(s, i, Print(token)) && At(s, i + |Print(token)|, ',')
    ensures ReadValue(s, i) == if Readable(token) then Some((Meaning(token), i + |Print(token)|)) else None
    ensures Skip(s, i) == i
  {
    hide EscapeLuaString, NamedValue, IntText;
    match token
    case Quoted(value) =>
      ReadQuoted(s, i, value);
    case Integer(n) =>
      ReadIntText(s, i, n);
      NoCommentAtInteger(s, i, n);
      SkipNothing(s, i);
    case Word(name) =>
      ReadWord(s, i, name);
  }

  lemma NoCommentAtInteger(s: string, i: nat, n: int)
    requires Lies(s, i, IntText(n))
    ensures i < |s| && (IsDigit(s[i]) || (s[i] == '-' && !At(s, i + 1, '-')))
  {
    var text := IntText(n);
    assert s[i] == text[0];
    if n < 0 {
      assert text[1] == NatText(-n)[0];
      assert s[i + 1] == text[1];
    }
  }

  // ---------------------------------------------------------------------------------------------
  // Lines
  // ---------------------------------------------------------------------------------------------

  // One field and its comma, then whatever is read from j on.
  lemma ReadOneField(s: string, i: nat, key: LuaKey, afterHead: nat, value: LuaValue, end: nat, j: nat)
    requires i <= |s| && j <= |s|
    requires At(s, Skip(s, i), '[')
    requires ReadFieldHead(s, Skip(s, i)) == Some((key, afterHead))
    requires ReadValue(s, Skip(s, afterHead)) == Some((value, end))
    requires At(s, end, ',') && Skip(s, end + 1) == Skip(s, j)
    ensures ReadFields(s, i) == Prepend([Field(key, value)], ReadFields(s, j))
  {
    hide ReadField, ReadFields, ReadFieldHead, ReadValue, Skip;
    SkipNothing(s, end);
    SameFields(s, end + 1, j);
    ReadFieldParts(s, Skip(s, i), key, afterHead, value, end);
    ReadFieldsStep(s, i, Field(key, value), end);
  }

  lemma ReadFieldParts(s: string, i: nat, key: LuaKey, afterHead: nat, value: LuaValue, end: nat)
    requires i <= |s| && ReadFieldHead(s, i) == Some((key, afterHead))
    requires ReadValue(s, Skip(s, afterHead)) == Some((value, end))
    ensures ReadField(s, i) == Some((Field(key, value), end))
  {
    hide ReadFieldHead, ReadValue, Skip;
  }

  lemma ReadFieldsStep(s: string, i: nat, field: Field, end: nat)
    requires i <= |s| && At(s, Skip(s, i), '[')
    requires ReadField(s, Skip(s, i)) == Some((field, end))
    requires At(s, Skip(s, end), ',')
    ensures ReadFields(s, i) == Prepend([field], ReadFields(s, Skip(s, end) + 1))
  {
    hide ReadField, Skip;
  }

  lemma ReadNoField(s: string, i: nat, key: LuaKey, afterHead: nat)
    requires i <= |s|
    requires At(s, Skip(s, i), '[')
    requires ReadFieldHead(s, Skip(s, i)) == Some((key, afterHead))
    requires ReadValue(s, Skip(s, afterHead)) == None
    ensures ReadFields(s, i) == None
  {
    hide ReadFieldHead, ReadValue, Skip;
  }

  lemma SameFields(s: string, i: nat, j: nat)
    requires i <= |s| && j <= |s|
    requires Skip(s, i) == Skip(s, j)
    ensures ReadFields(s, i) == ReadFields(s, j)
  {
    hide Skip, ReadField;
  }

  // A field that is read after i, with its comma, so that reading goes on as from j.
  predicate FieldThen(s: string, i: nat, field: Field, end: nat, j: nat) {
    && i <= |s| && j <= |s| && At(s, Skip(s, i), '[')
    && ReadField(s, Skip(s, i)) == Some((field, end))
    && At(s, end, ',') && Skip(s, end + 1) == Skip(s, j)
  }

  lemma FieldThenReads(s: string, i: nat, field: Field, end: nat, j: nat)
    requires FieldThen(s, i, field, end, j)
    ensures ReadFields(s, i) == Prepend([field], ReadFields(s, j))
  {
    hide ReadField, ReadFields, Skip;
    SkipNothing(s, end);
    SameFields(s, end + 1, j);
    ReadFieldsStep(s, i, field, end);
  }

  // The parts of a printed entry.
  lemma TokenLineParts(s: string, i: nat, indent: string, key: string, token: Token) returns (start: nat)
    requires Lies(s, i, TokenLine(indent, key, token))
    requires indent == "\t" || indent == "\t\t"
    requires PlainKey(key) && Known(token)
    ensures var next := i + |TokenLine(indent, key, token)|;
            && start == i + |indent| < next - 3 && next <= |s|
            && Skip(s, i) == start && At(s, start, '[')
            && (Readable(token) ==> FieldThen(s, i, Field(KStr(key), Meaning(token)), next - 3, next))
            && (!Readable(token) ==> ReadFields(s, i) == None)
  {
    hide Lies, StringFieldHead, Print, ReadFieldHead, ReadValue, ReadFields, Known, Readable, Meaning, Skip;
    var head := StringFieldHead(indent, key);
    assert TokenLine(indent, key, token) == head + (Print(token) + ("," + "\r\n"));
    LiesSplit(s, i, head, Print(token) + ("," + "\r\n"));
    LiesSplit(s, i + |head|, Print(token), "," + "\r\n");
    var comma := i + |head| + |Print(token)|;
    LiesSplit(s, comma, ",", "\r\n");
    LiesChar(s, comma, ',');
    LiesBounds(s, comma + 1, "\r\n");
    SkipBlanks(s, comma + 1, "\r\n");
    ReadStringFieldHead(s, i, indent, key);
    SkipIndent(s, i, indent, key);
    start := i + |indent|;
    ReadToken(s, i + |head|, token);
    if Readable(token) {
      ReadFieldParts(s, Skip(s, i), KStr(key), i + |head| - 1, Meaning(token), comma);
    } else {
      ReadNoField(s, i, KStr(key), i + |head| - 1);
    }
  }

  lemma SkipIndent(s: string, i: nat, indent: string, key: string)
    requires Lies(s, i, StringFieldHead(indent, key)) && (indent == "\t" || indent == "\t\t")
    ensures Skip(s, i) == i + |indent| && |indent| < |StringFieldHead(indent, key)|
  {
    assert StringFieldHead(indent, key) == indent + ("[" + ("\"" + key + "\"] = "));
    LiesSplit(s, i, indent, "[" + ("\"" + key + "\"] = "));
    LiesSplit(s, i + |indent|, "[", "\"" + key + "\"] = ");
    LiesChar(s, i + |indent|, '[');
    SkipBlanks(s, i, indent);
    SkipNothing(s, i + |indent|);
  }

  lemma ReadTokenLine(s: string, i: nat, indent: string, key: string, token: Token)
    requires Lies(s, i, TokenLine(indent, key, token))
    requires indent == "\t" || indent == "\t\t"
    requires PlainKey(key) && Known(token)
    ensures var next := i + |TokenLine(indent, key, token)|;
            ReadFields(s, i) ==
            if Readable(token) then Prepend([Field(KStr(key), Meaning(token))], ReadFields(s, next)) else None
  {
    hide Lies, TokenLine, ReadFields, Known, Readable, Meaning, FieldThen;
    var _ := TokenLineParts(s, i, indent, key, token);
    var next := i + |TokenLine(indent, key, token)|;
    if Readable(token) {
      FieldThenReads(s, i, Field(KStr(key), Meaning(token)), next - 3, next);
    }
  }

  lemma ReadPathValue(s: string, i: nat, path: string)
    requires PlainPath(path) && At(s, i, '"') && Lies(s, i + 1, EscapePath(path) + "\"")
    ensures ReadValue(s, i) == Some((LStr(path), i + |EscapePath(path)| + 2))
  {
    hide Lies, ReadString, PlainPath, EscapePath;
    ReadEscapedPath(s, i + 1, path);
  }

  lemma ReadMissionLine(s: string, i: nat, number: nat, path: string)
    requires Lies(s, i, MissionLine(number, path))
    requires PlainPath(path)
    ensures ReadFields(s, i) ==
            Prepend([Field(KInt(number), LStr(path))], ReadFields(s, i + |MissionLine(number, path)|))
  {
    hide Lies, ReadFieldHead, ReadFields, ReadValue, PlainPath, Skip, IntText, EscapePath;
    var head := "\t\t[" + IntText(number) + "] = ";
    assert MissionLine(number, path) == head + ("\"" + ((EscapePath(path) + "\"") + ("," + "\r\n")));
    LiesSplit(s, i, head, "\"" + ((EscapePath(path) + "\"") + ("," + "\r\n")));
    var quote := i + |head|;
    LiesSplit(s, quote, "\"", (EscapePath(path) + "\"") + ("," + "\r\n"));
    LiesSplit(s, quote + 1, EscapePath(path) + "\"", "," + "\r\n");
    var comma := quote + |EscapePath(path)| + 2;
    LiesSplit(s, comma, ",", "\r\n");
    LiesChar(s, quote, '"');
    LiesChar(s, comma, ',');
    SkipBlanks(s, comma + 1, "\r\n");
    ReadNumberFieldHead(s, i, number);
    SkipNothing(s, quote);
    ReadPathValue(s, quote, path);
    ReadOneField(s, i, KInt(number), quote - 1, LStr(path), comma, comma + 3);
  }

  // ---------------------------------------------------------------------------------------------
  // Sequences of lines
  // ---------------------------------------------------------------------------------------------

  predicate Writable(entries: seq<(string, Json)>) {
    forall e <- entries :: !IsPrintedApart(e.0) ==> PlainKey(e.0)
  }

  lemma TopTokenKnown(key: string, value: Json, lib: Library)
    ensures Known(TopToken(key, value, lib))
  {
  }

  function TopField(entry: (string, Json), lib: Library): seq<Field> {
    TopTokenKnown(entry.0, entry.1, lib);
    if IsPrintedApart(entry.0) then []
    else [Field(KStr(entry.0), Meaning(TopToken(entry.0, entry.1, lib)))]
  }

  function TopFields(entries: seq<(string, Json)>, lib: Library): seq<Field> {
    if entries == [] then [] else TopField(entries[0], lib) + TopFields(entries[1..], lib)
  }

  predicate EntryReadable(entry: (string, Json), lib: Library) {
    IsPrintedApart(entry.0) || Readable(TopToken(entry.0, entry.1, lib))
  }

  // No printed string of a payload holds a lone carriage return.
  predicate TopReadable(entries: seq<(string, Json)>, lib: Library) {
    forall e <- entries :: EntryReadable(e, lib)
  }

  lemma ReadTopLine(s: string, i: nat, entry: (string, Json), lib: Library)
    requires Lies(s, i, TopLine(entry, lib))
    requires !IsPrintedApart(entry.0) ==> PlainKey(entry.0)
    ensures ReadFields(s, i) ==
            if EntryReadable(entry, lib)
            then Prepend(TopField(entry, lib), ReadFields(s, i + |TopLine(entry, lib)|)) else None
  {
    hide ReadFields, TokenLine, TopToken, Known, Readable, Meaning, PlainKey, Prepend;
    if IsPrintedApart(entry.0) {
      PrependTwice([], [], ReadFields(s, i));
    } else {
      TopTokenKnown(entry.0, entry.1, lib);
      ReadTokenLine(s, i, "\t", entry.0, TopToken(entry.0, entry.1, lib));
    }
  }

  lemma {:induction false} ReadTopLines(s: string, i: nat, entries: seq<(string, Json)>, lib: Library)
    requires Lies(s, i, TopLines(entries, lib))
    requires Writable(entries)
    ensures ReadFields(s, i) ==
            if TopReadable(entries, lib)
            then Prepend(TopFields(entries, lib), ReadFields(s, i + |TopLines(entries, lib)|)) else None
    decreases |entries|
  {
    hide Lies, ReadFields, Prepend, TopLine, TopField, EntryReadable, PlainKey, IsPrintedApart;
    LiesBounds(s, i, TopLines(entries, lib));
    var after := ReadFields(s, i + |TopLines(entries, lib)|);
    if entries == [] {
      PrependTwice([], [], after);
    } else {
      var entry, rest := entries[0], entries[1..];
      var line := TopLine(entry, lib);
      assert TopLines(entries, lib) == line + TopLines(rest, lib);
      LiesSplit(s, i, line, TopLines(rest, lib));
      ReadTopLine(s, i, entry, lib);
      ReadTopLines(s, i + |line|, rest, lib);
      assert TopReadable(entries, lib) <==> EntryReadable(entry, lib) && TopReadable(rest, lib);
      PrependTwice(TopField(entry, lib), TopFields(rest, lib), after);
    }
  }

  // An advanced value that is not printed as raw text.
  predicate WritableAdvanced(entries: seq<(string, Json)>, lib: Library) {
    forall e <- entries :: PlainKey(e.0) && !AdvancedToken(e.1, lib).Raw?
  }

  lemma AdvancedTokenKnown(value: Json, lib: Library)
    requires !AdvancedToken(value, lib).Raw?
    ensures Known(AdvancedToken(value, lib)) && Readable(AdvancedToken(value, lib))
  {
  }

  function AdvancedFields(entries: seq<(string, Json)>, lib: Library): seq<Field>
    requires WritableAdvanced(entries, lib)
  {
    if entries == [] then []
    else
      var (key, value) := entries[0];
      AdvancedTokenKnown(value, lib);
      [Field(KStr(key), Meaning(AdvancedToken(value, lib)))] + AdvancedFields(entries[1..], lib)
  }

  lemma {:induction false} ReadAdvancedLines(s: string, i: nat, entries: seq<(string, Json)>, lib: Library)
    requires WritableAdvanced(entries, lib)
    requires Lies(s, i, AdvancedLines(entries, lib))
    ensures ReadFields(s, i) ==
            Prepend(AdvancedFields(entries, lib), ReadFields(s, i + |AdvancedLines(entries, lib)|))
    decreases |entries|
  {
    hide Lies, ReadFields, Prepend, TokenLine, AdvancedToken, Known, Readable, Meaning, PlainKey;
    LiesBounds(s, i, AdvancedLines(entries, lib));
    if entries != [] {
      var (key, value) := entries[0];
      var rest := entries[1..];
      var line := TokenLine("\t\t", key, AdvancedToken(value, lib));
      assert AdvancedLines(entries, lib) == line + AdvancedLines(rest, lib);
      LiesSplit(s, i, line, AdvancedLines(rest, lib));
      ReadAdvancedLines(s, i + |line|, rest, lib);
      AdvancedTokenKnown(value, lib);
      ReadTokenLine(s, i, "\t\t", key, AdvancedToken(value, lib));
      PrependTwice([Field(KStr(key), Meaning(AdvancedToken(value, lib)))], AdvancedFields(rest, lib),
                   ReadFields(s, i + |AdvancedLines(entries, lib)|));
    } else {
      PrependTwice([], [], ReadFields(s, i));
    }
  }

  predicate WritableMissions(items: seq<Json>) {
    forall item <- items :: item.JString? ==> PlainPath(item.s)
  }

  function ItemField(number: nat, item: Json): seq<Field> {
    if item.JString? then [Field(KInt(number), LStr(item.s))] else []
  }

  function MissionFields(items: seq<Json>, before: nat): seq<Field> {
    if items == [] then [] else ItemField(before + 1, items[0]) + MissionFields(items[1..], before + 1)
  }

  lemma ReadItemLine(s: string, i: nat, number: nat, item: Json)
    requires Lies(s, i, ItemLine(number, item))
    requires item.JString? ==> PlainPath(item.s)
    ensures ReadFields(s, i) == Prepend(ItemField(number, item), ReadFields(s, i + |ItemLine(number, item)|))
  {
    hide Prepend, ReadFields, PlainPath, MissionLine;
    if item.JString? {
      ReadMissionLine(s, i, number, item.s);
    } else {
      PrependTwice([], [], ReadFields(s, i));
    }
  }

  lemma {:induction false} ReadMissionLines(s: string, i: nat, items: seq<Json>, before: nat)
    requires Lies(s, i, MissionLines(items, before))
    requires WritableMissions(items)
    ensures ReadFields(s, i) ==
            Prepend(MissionFields(items, before), ReadFields(s, i + |MissionLines(items, before)|))
    decreases |items|
  {
    hide Lies, ReadFields, Prepend, ItemLine, ItemField, PlainPath;
    LiesBounds(s, i, MissionLines(items, before));
    var after := ReadFields(s, i + |MissionLines(items, before)|);
    if items == [] {
      PrependTwice([], [], after);
    } else {
      var item, rest := items[0], items[1..];
      var line := ItemLine(before + 1, item);
      assert MissionLines(items, before) == line + MissionLines(rest, before + 1);
      LiesSplit(s, i, line, MissionLines(rest, before + 1));
      ReadItemLine(s, i, before + 1, item);
      ReadMissionLines(s, i + |line|, rest, before + 1);
      PrependTwice(ItemField(before + 1, item), MissionFields(rest, before + 1), after);
    }
  }

  // ---------------------------------------------------------------------------------------------
  // Blocks and the whole file
  // ---------------------------------------------------------------------------------------------

  lemma ReadClosingBrace(s: string, i: nat)
    requires i <= |s| && At(s, Skip(s, i), '}')
    ensures ReadFields(s, i) == Some(([], Skip(s, i) + 1))
  {
    hide Skip, ReadField;
  }

  lemma ReadTableValue(s: string, i: nat, fields: seq<Field>, end: nat)
    requires At(s, i, '{') && ReadFields(s, i + 1) == Some((fields, end))
    ensures ReadValue(s, i) == Some((LTable(fields), end))
  {
    hide ReadFields;
  }

  // A printed block: a table field, its comma, and a comment naming the key.
  lemma BlockIsField(s: string, i: nat, key: string, lines: string, fields: seq<Field>)
    requires Lies(s, i, Block(key, lines))
    requires PlainKey(key)
    requires i + |BlockStart(key)| + |lines| <= |s|
    requires ReadFields(s, i + |BlockStart(key)|) == Prepend(fields, ReadFields(s, i + |BlockStart(key)| + |lines|))
    ensures var close := i + |BlockStart(key)| + |lines|;
            FieldThen(s, i, Field(KStr(key), LTable(fields)), close + 2, i + |Block(key, lines)|)
  {
    hide Lies, ReadFields, ReadFieldHead, ReadValue, Skip;
    var body := i + |BlockStart(key)|;
    var close := body + |lines|;
    ReadBlockEnd(s, i, key, lines);
    ReadBlockStart(s, i, key, lines);
    var brace := body - 3;
    SameFields(s, brace + 1, body);
    ReadClosingBrace(s, close);
    assert fields + [] == fields;
    ReadTableValue(s, brace, fields, close + 2);
    ReadFieldParts(s, Skip(s, i), KStr(key), brace - 4, LTable(fields), close + 2);
  }

  lemma ReadBlock(s: string, i: nat, key: string, lines: string, fields: seq<Field>)
    requires Lies(s, i, Block(key, lines))
    requires PlainKey(key)
    requires i + |BlockStart(key)| + |lines| <= |s|
    requires ReadFields(s, i + |BlockStart(key)|) == Prepend(fields, ReadFields(s, i + |BlockStart(key)| + |lines|))
    ensures ReadFields(s, i) ==
            Prepend([Field(KStr(key), LTable(fields))], ReadFields(s, i + |Block(key, lines)|))
  {
    hide Lies, ReadFields, BlockStart, Block, FieldThen;
    BlockIsField(s, i, key, lines, fields);
    var close := i + |BlockStart(key)| + |lines|;
    FieldThenReads(s, i, Field(KStr(key), LTable(fields)), close + 2, i + |Block(key, lines)|);
  }

  lemma ReadBlockStart(s: string, i: nat, key: string, lines: string)
    requires Lies(s, i, Block(key, lines))
    requires PlainKey(key)
    ensures var brace := i + |BlockStart(key)| - 3;
            && i <= brace - 4 && At(s, Skip(s, i), '[')
            && ReadFieldHead(s, Skip(s, i)) == Some((KStr(key), brace - 4))
            && Skip(s, brace - 4) == brace && At(s, brace, '{')
            && Skip(s, brace + 1) == Skip(s, brace + 3)
  {
    hide Lies, ReadFieldHead, PlainKey, Skip;
    var head := StringFieldHead("\t", key);
    var rest := lines + BlockEnd(key);
    assert Block(key, lines) == head + ("\r\n\t" + ("{" + ("\r\n" + rest)));
    LiesSplit(s, i, head, "\r\n\t" + ("{" + ("\r\n" + rest)));
    LiesSplit(s, i + |head|, "\r\n\t", "{" + ("\r\n" + rest));
    LiesSplit(s, i + |head| + 3, "{", "\r\n" + rest);
    LiesSplit(s, i + |head| + 4, "\r\n", rest);
    LiesChar(s, i + |head| + 3, '{');
    ReadStringFieldHead(s, i, "\t", key);
    SkipBlanks(s, i + |head|, "\r\n\t");
    SkipNothing(s, i + |head| + 3);
    SkipBlanks(s, i + |head| + 4, "\r\n");
  }

  lemma ReadBlockEnd(s: string, i: nat, key: string, lines: string)
    requires Lies(s, i, Block(key, lines))
    requires PlainKey(key)
    ensures var close := i + |BlockStart(key)| + |lines|;
            && Skip(s, close) == close + 1 && At(s, close + 1, '}')
            && At(s, close + 2, ',') && i + |Block(key, lines)| <= |s|
            && Skip(s, close + 3) == Skip(s, i + |Block(key, lines)|)
  {
    hide Lies, Skip;
    var start := BlockStart(key) + lines;
    var comment := "end of [\"" + key + "\"]";
    assert Block(key, lines) == start + ("\t" + ("}" + ("," + (" -- " + comment + "\r\n"))));
    LiesSplit(s, i, start, "\t" + ("}" + ("," + (" -- " + comment + "\r\n"))));
    var close := i + |start|;
    LiesSplit(s, close, "\t", "}" + ("," + (" -- " + comment + "\r\n")));
    LiesSplit(s, close + 1, "}", "," + (" -- " + comment + "\r\n"));
    LiesSplit(s, close + 2, ",", " -- " + comment + "\r\n");
    LiesChar(s, close + 1, '}');
    LiesChar(s, close + 2, ',');
    SkipBlanks(s, close, "\t");
    SkipNothing(s, close + 1);
    SkipComment(s, close + 3, comment);
    assert |Block(key, lines)| == |start| + 3 + |comment| + 6;
  }

  // ---------------------------------------------------------------------------------------------
  // What the payload means
  // ---------------------------------------------------------------------------------------------

  // The value a saved entry is meant to have when it is read back; None when nothing is.
  function CoerceNumber(number: Number): Option<Scalar> {
    match number
    case Whole(n) => Some(SInt(n))
    case NotANumber => None
  }

  function CoerceTop(key: string, value: Json, lib: Library): Option<Scalar> {
    if key in STRING_KEYS then Some(SString(Normalized(JsString(value, lib))))
    else if key in NUMBER_KEYS then CoerceNumber(ToNumber(value, lib))
    else if key in BOOL_KEYS then Some(SBool(ToBool(value)))
    else match value
      case JBool(b) => Some(SBool(b))
      case JNumber(n) => Some(SInt(n))
      case _ => Some(SString(Normalized(JsString(value, lib))))
  }

  function CoerceAdvanced(value: Json, lib: Library): Option<Scalar> {
    match value
    case JBool(b) => Some(SBool(b))
    case JNumber(n) => Some(SInt(n))
    case JString(s) =>
      if s == "true" then Some(SBool(true))
      else if s == "false" then Some(SBool(false))
      else (match lib.parseNumber(s) case Some(number) => CoerceNumber(number) case None => None)
    case _ => None
  }

  function Put(table: map<LuaKey, Scalar>, key: LuaKey, value: Option<Scalar>): map<LuaKey, Scalar> {
    match value
    case Some(scalar) => table[key := scalar]
    case None => table - {key}
  }

  function CoercedTop(acc: map<LuaKey, Scalar>, entries: seq<(string, Json)>, lib: Library): map<LuaKey, Scalar>
    decreases |entries|
  {
    if entries == [] then acc
    else
      var (key, value) := entries[0];
      var next := if IsPrintedApart(key) then acc else Put(acc, KStr(key), CoerceTop(key, value, lib));
      CoercedTop(next, entries[1..], lib)
  }

  function CoercedAdvanced(acc: map<LuaKey, Scalar>, entries: seq<(string, Json)>, lib: Library): map<LuaKey, Scalar>
    decreases |entries|
  {
    if entries == [] then acc
    else CoercedAdvanced(Put(acc, KStr(entries[0].0), CoerceAdvanced(entries[0].1, lib)), entries[1..], lib)
  }

  // The strings that stand before the first item that is not a string.
  function LeadingStrings(items: seq<Json>): seq<string> {
    if items == [] || !items[0].JString? then [] else [items[0].s] + LeadingStrings(items[1..])
  }

  function Coerced(payload: Json, lib: Library): Settings {
    var entries := Entries(payload);
    Settings(
      CoercedTop(map[], entries, lib),
      match Lookup(entries, ADVANCED)
        case Some(JObject(inner)) => Some(CoercedAdvanced(map[], inner, lib))
        case _ => None,
      match Lookup(entries, MISSION_LIST)
        case Some(JArray(items)) => Some(LeadingStrings(items))
        case _ => None)
  }

  // ---------------------------------------------------------------------------------------------
  // From fields to settings
  // ---------------------------------------------------------------------------------------------

  lemma TopFieldMeaning(entry: (string, Json), lib: Library)
    requires !IsPrintedApart(entry.0)
    ensures TopField(entry, lib) == [Field(KStr(entry.0), Meaning(TopToken(entry.0, entry.1, lib)))]
    ensures var value := TopField(entry, lib)[0].value;
            ScalarOf(value) == CoerceTop(entry.0, entry.1, lib) && (value == LNil <==> ScalarOf(value).None?)
  {
    hide Normalized, IntText;
  }

  lemma AdvancedMeaning(value: Json, lib: Library)
    requires !AdvancedToken(value, lib).Raw?
    ensures Known(AdvancedToken(value, lib))
    ensures var meaning := Meaning(AdvancedToken(value, lib));
            ScalarOf(meaning) == CoerceAdvanced(value, lib) && (meaning == LNil <==> ScalarOf(meaning).None?)
  {
    hide Normalized, IntText;
  }

  lemma PutScalar(table: map<LuaKey, LuaValue>, field: Field)
    requires field.value == LNil <==> ScalarOf(field.value).None?
    ensures ScalarsOf(Assign(table, field)) == Put(ScalarsOf(table), field.key, ScalarOf(field.value))
  {
  }

  lemma {:induction false} AssignedTop(table: map<LuaKey, LuaValue>, entries: seq<(string, Json)>, lib: Library)
    ensures var r := Assigned(table, TopFields(entries, lib));
            && ScalarsOf(r) == CoercedTop(ScalarsOf(table), entries, lib)
            && (forall key :: IsPrintedApart(key) ==> (KStr(key) in r <==> KStr(key) in table))
    decreases |entries|
  {
    hide ScalarsOf, CoerceTop, Put, TopToken, Meaning, ScalarOf;
    if entries != [] {
      var entry, rest := entries[0], entries[1..];
      if IsPrintedApart(entry.0) {
        assert TopField(entry, lib) == [];
        assert TopFields(entries, lib) == TopFields(rest, lib);
        AssignedTop(table, rest, lib);
      } else {
        TopFieldMeaning(entry, lib);
        var field := TopField(entry, lib)[0];
        assert TopFields(entries, lib)[1..] == TopFields(rest, lib);
        PutScalar(table, field);
        AssignedTop(Assign(table, field), rest, lib);
      }
    }
  }

  lemma {:induction false} AssignedAdvanced(table: map<LuaKey, LuaValue>, entries: seq<(string, Json)>, lib: Library)
    requires WritableAdvanced(entries, lib)
    ensures ScalarsOf(Assigned(table, AdvancedFields(entries, lib))) ==
            CoercedAdvanced(ScalarsOf(table), entries, lib)
    decreases |entries|
  {
    hide ScalarsOf, CoerceAdvanced, Put, AdvancedToken, Meaning, ScalarOf, Assign, PlainKey, Known;
    if entries != [] {
      var rest := entries[1..];
      AdvancedMeaning(entries[0].1, lib);
      var field := Field(KStr(entries[0].0), Meaning(AdvancedToken(entries[0].1, lib)));
      assert AdvancedFields(entries, lib) == [field] + AdvancedFields(rest, lib);
      PutScalar(table, field);
      AssignedAdvanced(Assign(table, field), rest, lib);
    }
  }

  lemma AssignedFirst(table: map<LuaKey, LuaValue>, field: Field, rest: seq<Field>)
    ensures Assigned(table, [field] + rest) == Assigned(Assign(table, field), rest)
  {
    assert ([field] + rest)[1..] == rest;
  }

  function Get(table: map<LuaKey, LuaValue>, key: LuaKey): Option<LuaValue> {
    if key in table then Some(table[key]) else None
  }

  function MissionNumbered(items: seq<Json>, i: int): Option<LuaValue> {
    if 0 <= i < |items| && items[i].JString? then Some(LStr(items[i].s)) else None
  }

  // The entry with number n is the string at that place, or else that of the table.
  lemma {:induction false} AssignedMission(table: map<LuaKey, LuaValue>, items: seq<Json>, before: nat, n: int)
    ensures var mission := MissionNumbered(items, n - before - 1);
            Get(Assigned(table, MissionFields(items, before)), KInt(n)) ==
            if mission.Some? then mission else Get(table, KInt(n))
    decreases |items|
  {
    assert Assigned(table, []) == table;
    hide Get, Assign, Assigned;
    if items != [] {
      var rest := items[1..];
      if items[0].JString? {
        var field := Field(KInt(before + 1), LStr(items[0].s));
        assert MissionFields(items, before) == [field] + MissionFields(rest, before + 1);
        AssignedFirst(table, field, MissionFields(rest, before + 1));
        AssignedMission(Assign(table, field), rest, before + 1, n);
      } else {
        assert MissionFields(items, before) == MissionFields(rest, before + 1);
        AssignedMission(table, rest, before + 1, n);
      }
    }
  }

  lemma {:induction false} SequenceOfMissions(table: map<LuaKey, LuaValue>, items: seq<Json>, done: nat)
    requires done <= |items|
    requires forall n: int :: done < n <= |items| + 1 ==>
               (KInt(n) in table <==> n <= |items| && items[n - 1].JString?)
    requires forall n: int :: done < n <= |items| && items[n - 1].JString? ==>
               table[KInt(n)] == LStr(items[n - 1].s)
    ensures SequenceOf(table, done + 1) == LeadingStrings(items[done..])
    decreases |items| - done
  {
    if done < |items| && items[done].JString? {
      assert KInt(done + 1) in table;
      SequenceOfMissions(table - {KInt(done + 1)}, items, done + 1);
      assert items[done..][1..] == items[done + 1..];
    } else {
      assert KInt(done + 1) !in table;
    }
  }

  lemma MissionsRead(items: seq<Json>)
    ensures MissionsOf(LTable(MissionFields(items, 0))) == LeadingStrings(items)
  {
    var table := TableOf(MissionFields(items, 0));
    forall n: int
      ensures Get(table, KInt(n)) == MissionNumbered(items, n - 1)
    {
      AssignedMission(map[], items, 0, n);
    }
    assert forall n: int {:trigger KInt(n)} :: Get(table, KInt(n)) == MissionNumbered(items, n - 1);
    SequenceOfMissions(TableOf(MissionFields(items, 0)), items, 0);
    assert items[0..] == items;
  }

  lemma {:induction false} AssignedAppend(table: map<LuaKey, LuaValue>, a: seq<Field>, b: seq<Field>)
    ensures Assigned(table, a + b) == Assigned(Assigned(table, a), b)
    decreases |a|
  {
    if a == [] {
      assert a + b == b;
    } else {
      assert (a + b)[1..] == a[1..] + b;
      AssignedAppend(Assign(table, a[0]), a[1..], b);
    }
  }

  // ---------------------------------------------------------------------------------------------
  // The whole file
  // ---------------------------------------------------------------------------------------------

  // Plain keys everywhere, plain mission paths, and no advanced value that is printed as raw text.
  predicate Saveable(payload: Json, lib: Library) {
    var entries := Entries(payload);
    && Writable(entries)
    && (match Lookup(entries, ADVANCED) case Some(JObject(inner)) => WritableAdvanced(inner, lib) case _ => true)
    && (match Lookup(entries, MISSION_LIST) case Some(JArray(items)) => WritableMissions(items) case _ => true)
  }

  function AdvancedBlockFields(entries: seq<(string, Json)>, lib: Library): seq<Field>
    requires match Lookup(entries, ADVANCED) case Some(JObject(inner)) => WritableAdvanced(inner, lib) case _ => true
  {
    match Lookup(entries, ADVANCED)
    case Some(JObject(inner)) => [Field(KStr(ADVANCED), LTable(AdvancedFields(inner, lib)))]
    case _ => []
  }

  function MissionBlockFields(entries: seq<(string, Json)>): seq<Field> {
    match Lookup(entries, MISSION_LIST)
    case Some(JArray(items)) => [Field(KStr(MISSION_LIST), LTable(MissionFields(items, 0)))]
    case _ => []
  }

  lemma ReadAdvancedBlock(s: string, i: nat, entries: seq<(string, Json)>, lib: Library)
    requires match Lookup(entries, ADVANCED) case Some(JObject(inner)) => WritableAdvanced(inner, lib) case _ => true
    requires Lies(s, i, AdvancedBlock(entries, lib))
    ensures ReadFields(s, i) ==
            Prepend(AdvancedBlockFields(entries, lib), ReadFields(s, i + |AdvancedBlock(entries, lib)|))
  {
    hide Lies, ReadFields, Prepend, AdvancedLines, AdvancedFields, BlockStart, BlockEnd, WritableAdvanced, Lookup;
    LiesBounds(s, i, AdvancedBlock(entries, lib));
    match Lookup(entries, ADVANCED)
    case Some(JObject(inner)) =>
      var lines := AdvancedLines(inner, lib);
      assert Block(ADVANCED, lines) == BlockStart(ADVANCED) + (lines + BlockEnd(ADVANCED));
      LiesSplit(s, i, BlockStart(ADVANCED), lines + BlockEnd(ADVANCED));
      LiesSplit(s, i + |BlockStart(ADVANCED)|, lines, BlockEnd(ADVANCED));
      ReadAdvancedLines(s, i + |BlockStart(ADVANCED)|, inner, lib);
      ReadBlock(s, i, ADVANCED, lines, AdvancedFields(inner, lib));
    case _ =>
      PrependTwice([], [], ReadFields(s, i));
  }

  lemma ReadMissionBlock(s: string, i: nat, entries: seq<(string, Json)>)
    requires match Lookup(entries, MISSION_LIST) case Some(JArray(items)) => WritableMissions(items) case _ => true
    requires Lies(s, i, MissionBlock(entries))
    ensures ReadFields(s, i) ==
            Prepend(MissionBlockFields(entries), ReadFields(s, i + |MissionBlock(entries)|))
  {
    hide Lies, ReadFields, Prepend, MissionLines, MissionFields, BlockStart, BlockEnd, WritableMissions, Lookup;
    LiesBounds(s, i, MissionBlock(entries));
    match Lookup(entries, MISSION_LIST)
    case Some(JArray(items)) =>
      var lines := MissionLines(items, 0);
      assert Block(MISSION_LIST, lines) == BlockStart(MISSION_LIST) + (lines + BlockEnd(MISSION_LIST));
      LiesSplit(s, i, BlockStart(MISSION_LIST), lines + BlockEnd(MISSION_LIST));
      LiesSplit(s, i + |BlockStart(MISSION_LIST)|, lines, BlockEnd(MISSION_LIST));
      ReadMissionLines(s, i + |BlockStart(MISSION_LIST)|, items, 0);
      ReadBlock(s, i, MISSION_LIST, lines, MissionFields(items, 0));
    case _ =>
      PrependTwice([], [], ReadFields(s, i));
  }

  lemma ReadFileStart(s: string)
    requires Lies(s, 0, FILE_START)
    ensures ReadOpening(s) == Some(9) && |FILE_START| == 11
    ensures 11 <= |s| && Skip(s, 9) == Skip(s, 11)
  {
    hide Lies, Skip, ReadOpening;
    assert FILE_START == "cfg" + (" " + ("=" + (" \r\n" + ("{" + "\r\n"))));
    LiesSplit(s, 0, "cfg", " " + ("=" + (" \r\n" + ("{" + "\r\n"))));
    LiesSplit(s, 3, " ", "=" + (" \r\n" + ("{" + "\r\n")));
    LiesSplit(s, 4, "=", " \r\n" + ("{" + "\r\n"));
    LiesSplit(s, 5, " \r\n", "{" + "\r\n");
    LiesSplit(s, 8, "{", "\r\n");
    LiesBounds(s, 9, "\r\n");
    ReadCfg(s);
    ReadEquals(s);
    LiesChar(s, 4, '=');
    LiesChar(s, 8, '{');
    SkipNothing(s, 4);
    SkipNothing(s, 8);
    SkipBlanks(s, 3, " ");
    SkipBlanks(s, 5, " \r\n");
    SkipBlanks(s, 9, "\r\n");
    OpeningParts(s);
  }

  lemma ReadCfg(s: string)
    requires Lies(s, 0, "cfg") && Lies(s, 3, " ")
    ensures Skip(s, 0) == 0 && NameEnd(s, 0) == 3 && s[0..3] == "cfg"
  {
    assert s[0] == "cfg"[0];
    LiesChar(s, 3, ' ');
    NameEndAt(s, 0, "cfg");
    LiesSlice(s, 0, "cfg");
  }

  lemma ReadEquals(s: string)
    requires Lies(s, 5, " \r\n")
    ensures !At(s, 5, '=')
  {
    assert s[5] == " \r\n"[0];
  }

  lemma OpeningParts(s: string)
    requires 9 <= |s| && Skip(s, 0) == 0 && NameEnd(s, 0) == 3 && s[0..3] == "cfg"
    requires Skip(s, 3) == 4 && At(s, 4, '=') && !At(s, 5, '=')
    requires Skip(s, 5) == 8 && At(s, 8, '{')
    ensures ReadOpening(s) == Some(9)
  {
    hide Skip, NameEnd;
  }

  lemma ReadFileEnd(s: string, i: nat)
    requires Lies(s, i, FILE_END) && i + |FILE_END| == |s|
    ensures ReadFields(s, i) == Some(([], i + 1)) && Skip(s, i + 1) == |s|
  {
    hide ReadFields, Skip;
    assert FILE_END == "}" + (" -- " + "end of cfg" + "\r\n");
    LiesSplit(s, i, "}", " -- " + "end of cfg" + "\r\n");
    LiesChar(s, i, '}');
    SkipNothing(s, i);
    ReadClosingBrace(s, i);
    SkipComment(s, i + 1, "end of cfg");
    SkipAtEnd(s);
  }

  lemma SkipAtEnd(s: string)
    ensures Skip(s, |s|) == |s|
  {
  }

  function PayloadFields(payload: Json, lib: Library): seq<Field>
    requires Saveable(payload, lib)
  {
    TopFields(Entries(payload), lib)
    + (AdvancedBlockFields(Entries(payload), lib) + (MissionBlockFields(Entries(payload)) + []))
  }

  lemma ReadSettingsText(payload: Json, lib: Library)
    requires Saveable(payload, lib)
    ensures ReadFile(SettingsText(payload, lib)) ==
            if TopReadable(Entries(payload), lib) then Some(PayloadFields(payload, lib)) else None
  {
    hide Lies, ReadFields, Skip, Prepend, TopLines, TopFields, AdvancedBlock, AdvancedBlockFields, MissionBlock,
         MissionBlockFields, Writable, Lookup, TopReadable, ReadOpening, SettingsText;
    var entries := Entries(payload);
    var s := SettingsText(payload, lib);
    var a, m, e := Layout(payload, lib);
    ReadFileStart(s);
    SameFields(s, 9, 11);
    ReadTopLines(s, 11, entries, lib);
    ReadAdvancedBlock(s, a, entries, lib);
    ReadMissionBlock(s, m, entries);
    ReadFileEnd(s, e);
    ReadFields3(s, 11, a, m, e, TopReadable(entries, lib), TopFields(entries, lib),
                AdvancedBlockFields(entries, lib), MissionBlockFields(entries));
  }

  // Where the parts of the file stand.
  lemma Layout(payload: Json, lib: Library) returns (a: nat, m: nat, e: nat)
    ensures var entries, s := Entries(payload), SettingsText(payload, lib);
            && Lies(s, 0, FILE_START)
            && Lies(s, 11, TopLines(entries, lib)) && a == 11 + |TopLines(entries, lib)|
            && Lies(s, a, AdvancedBlock(entries, lib)) && m == a + |AdvancedBlock(entries, lib)|
            && Lies(s, m, MissionBlock(entries)) && e == m + |MissionBlock(entries)|
            && Lies(s, e, FILE_END) && e + |FILE_END| == |s|
  {
    hide Lies, TopLines, AdvancedBlock, MissionBlock, Lookup;
    var entries := Entries(payload);
    var top, advanced, missions := TopLines(entries, lib), AdvancedBlock(entries, lib), MissionBlock(entries);
    assert |FILE_START| == 11;
    a := 11 + |top|;
    m := a + |advanced|;
    e := m + |missions|;
    LiesInOrder(SettingsText(payload, lib), FILE_START, top, advanced, missions, FILE_END);
  }

  lemma ReadFields3(s: string, i: nat, j: nat, k: nat, e: nat, good: bool,
                    a: seq<Field>, b: seq<Field>, c: seq<Field>)
    requires i <= |s| && j <= |s| && k <= |s| && e <= |s|
    requires ReadFields(s, i) == if good then Prepend(a, ReadFields(s, j)) else None
    requires ReadFields(s, j) == Prepend(b, ReadFields(s, k))
    requires ReadFields(s, k) == Prepend(c, ReadFields(s, e))
    requires ReadFields(s, e) == Some(([], e + 1))
    ensures ReadFields(s, i) == if good then Some((a + (b + (c + [])), e + 1)) else None
  {
    hide ReadFields;
  }

  lemma SettingsOfPayload(payload: Json, lib: Library)
    requires Saveable(payload, lib)
    ensures SettingsOf(PayloadFields(payload, lib)) == Coerced(payload, lib)
  {
    hide TopFields, CoercedTop, ScalarsOf, AdvancedFields, CoercedAdvanced, MissionFields, Writable, WritableAdvanced,
         MissionsOf, LeadingStrings, Lookup, Assigned;
    var entries := Entries(payload);
    var top, advanced, missions :=
      TopFields(entries, lib), AdvancedBlockFields(entries, lib), MissionBlockFields(entries);
    var base := TableOf(top);
    AssignedTop(map[], entries, lib);
    AssignedAppend(map[], top, advanced + (missions + []));
    AssignedAppend(base, advanced, missions + []);
    assert missions + [] == missions;
    AssignedAtMostOne(base, advanced);
    AssignedAtMostOne(Assigned(base, advanced), missions);
    ScalarsOfNothing();
    assert KStr(ADVANCED) !in base && KStr(MISSION_LIST) !in base;
    var table := TableOf(PayloadFields(payload, lib));
    assert table - {KStr(ADVANCED), KStr(MISSION_LIST)} == base;
    match Lookup(entries, ADVANCED) {
      case Some(JObject(inner)) =>
        AssignedAdvanced(map[], inner, lib);
      case _ =>
    }
    match Lookup(entries, MISSION_LIST) {
      case Some(JArray(items)) =>
        MissionsRead(items);
      case _ =>
    }
  }

  lemma AssignedAtMostOne(table: map<LuaKey, LuaValue>, fields: seq<Field>)
    requires |fields| <= 1
    ensures Assigned(table, fields) == if fields == [] then table else Assign(table, fields[0])
  {
  }

  lemma ScalarsOfNothing()
    ensures ScalarsOf(map[]) == map[]
  {
  }

  /** Saving and loading: a saved file can be read exactly when no string of the payload holds a lone
      carriage return, and then it gives the coerced payload. */
  lemma SaveThenLoad(payload: Json, lib: Library)
    requires Saveable(payload, lib)
    ensures LoadSettings(SettingsText(payload, lib)) ==
            if TopReadable(Entries(payload), lib) then Some(Coerced(payload, lib)) else None
  {
    hide SettingsText, ReadFile, SettingsOf, Coerced, Saveable, TopReadable, PayloadFields;
    ReadSettingsText(payload, lib);
    SettingsOfPayload(payload, lib);
  }

  function AllStrings(items: seq<Json>): seq<string> {
    if items == [] then [] else (if items[0].JString? then [items[0].s] else []) + AllStrings(items[1..])
  }

  /** The numbering leaves a gap for an item that is not a string, and Lua stops at the gap: the missions
      come back complete exactly when no string follows such an item. */
  lemma {:induction false} MissionsComplete(items: seq<Json>)
    ensures LeadingStrings(items) == AllStrings(items) <==>
            forall i, j :: 0 <= i < j < |items| && items[j].JString? ==> items[i].JString?
  {
    if items != [] {
      var rest := items[1..];
      MissionsComplete(rest);
      if items[0].JString? {
        assert LeadingStrings(items)[1..] == LeadingStrings(rest);
        assert AllStrings(items)[1..] == AllStrings(rest);
        assert (forall i, j :: 0 <= i < j < |rest| && rest[j].JString? ==> rest[i].JString?) <==>
               forall i, j :: 0 <= i < j < |items| && items[j].JString? ==> items[i].JString? by {
          if forall i, j :: 0 <= i < j < |items| && items[j].JString? ==> items[i].JString? {
            forall i, j | 0 <= i < j < |rest| && rest[j].JString? ensures rest[i].JString? {
              assert items[j + 1].JString? ==> items[i + 1].JString?;
            }
          }
          if forall i, j :: 0 <= i < j < |rest| && rest[j].JString? ==> rest[i].JString? {
            forall i, j | 0 <= i < j < |items| && items[j].JString? ensures items[i].JString? {
              if i > 0 {
                assert rest[j - 1].JString? ==> rest[i - 1].JString?;
              }
            }
          }
        }
      } else {
        NoStrings(rest);
        assert (exists j :: 0 <= j < |rest| && rest[j].JString?) <==>
               !forall i, j :: 0 <= i < j < |items| && items[j].JString? ==> items[i].JString? by {
          if j :| 0 <= j < |rest| && rest[j].JString? {
            assert items[j + 1].JString?;
          }
          if i, j :| 0 <= i < j < |items| && items[j].JString? && !items[i].JString? {
            assert rest[j - 1].JString?;
          }
        }
      }
    }
  }

  lemma {:induction false} NoStrings(items: seq<Json>)
    ensures AllStrings(items) == [] <==> !exists j :: 0 <= j < |items| && items[j].JString?
  {
    if items != [] {
      NoStrings(items[1..]);
      if j :| 0 <= j < |items| && items[j].JString? && j > 0 {
        assert items[1..][j - 1].JString?;
      }
      if j :| 0 <= j < |items[1..]| && items[1..][j].JString? {
        assert items[j + 1].JString?;
      }
    }
  }

  /** A carriage return alone, in the server's name: the saved file cannot be read. */
  lemma LoneReturnIsUnreadable(lib: Library)
    ensures var payload := JObject([("name", JString("\r"))]);
            Saveable(payload, lib) && LoadSettings(SettingsText(payload, lib)) == None
  {
    hide LoadSettings, SettingsText, Coerced;
    var payload := JObject([("name", JString("\r"))]);
    assert !EntryReadable(Entries(payload)[0], lib);
    SaveThenLoad(payload, lib);
  }

  /** A mission after an item that is not a string: it is saved, and does not come back. */
  lemma MissionsAfterGap(path: string, lib: Library)
    requires PlainPath(path)
    ensures var payload := JObject([(MISSION_LIST, JArray([JNull, JString(path)]))]);
            var settings := LoadSettings(SettingsText(payload, lib));
            settings.Some? && settings.value.missions == Some([])
  {
    hide LoadSettings, SettingsText, PlainPath;
    var items := [JNull, JString(path)];
    var payload := JObject([(MISSION_LIST, JArray(items))]);
    assert |ADVANCED| < |MISSION_LIST|;
    LookupOne(MISSION_LIST, JArray(items), ADVANCED);
    LookupOne(MISSION_LIST, JArray(items), MISSION_LIST);
    hide Lookup;
    SaveThenLoad(payload, lib);
  }

  lemma LookupOne(key: string, value: Json, other: string)
    ensures Lookup([(key, value)], other) == if key == other then Some(value) else None
  {
    assert [(key, value)][1..] == [];
  }
}
