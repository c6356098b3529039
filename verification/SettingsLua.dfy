/**
 `serverSettings.lua`: the printer that saves a JSON payload, and the settings Lua reads back from it.
*/
module SettingsLua {
  import opened Options
  import opened LuaText
  import opened LuaPrinting

  // Numbers are whole; `NotANumber` is what parsing "nan" yields.
  datatype Number = Whole(n: int) | NotANumber

  datatype Json =
    | JNull
    | JBool(b: bool)
    | JNumber(n: int)
    | JString(s: string)
    | JArray(items: seq<Json>)
    | JObject(entries: seq<(string, Json)>)

  // The library calls the printer makes: the JSON text of a value, and the number a trimmed text denotes.
  datatype Library = Library(jsonText: Json -> string, parseNumber: string -> Option<Number>)

  const STRING_KEYS := ["name", "description", "password", "bind_address"]
  const NUMBER_KEYS := ["port", "mode", "listStartIndex", "maxPlayers"]
  const BOOL_KEYS := ["require_pure_textures", "require_pure_scripts", "require_pure_clients",
                      "require_pure_models", "listShuffle", "listLoop", "isPublic"]

  const ADVANCED := "advanced"
  const MISSION_LIST := "missionList"

  // ---------------------------------------------------------------------------------------------
  // Tokens
  // ---------------------------------------------------------------------------------------------

  // A printed value: a quoted string, a number, a word, or text that goes into the file as it is.
  datatype Token = Quoted(value: string) | Integer(n: int) | Word(name: string) | Raw(text: string)

  function Print(token: Token): string {
    match token
    case Quoted(value) => "\"" + EscapeLuaString(value) + "\""
    case Integer(n) => IntText(n)
    case Word(name) => name
    case Raw(text) => text
  }

  function BoolWord(b: bool): Token {
    Word(if b then "true" else "false")
  }

  function NumberToken(number: Number): Token {
    match number
    case Whole(n) => Integer(n)
    case NotANumber => Word("NaN")
  }

  function JsString(value: Json, lib: Library): string {
    match value
    case JString(s) => s
    case JNumber(n) => IntText(n)
    case JBool(b) => if b then "true" else "false"
    case JNull => "null"
    case _ => lib.jsonText(value)
  }

  function ToNumber(value: Json, lib: Library): Number {
    match value
    case JNumber(n) => Whole(n)
    case JString(s) => (match lib.parseNumber(s) case Some(number) => number case None => NotANumber)
    case JBool(b) => Whole(if b then 1 else 0)
    case _ => NotANumber
  }

  predicate ToBool(value: Json) {
    value == JBool(true) || value == JString("true")
  }

  function TopToken(key: string, value: Json, lib: Library): Token {
    if key in STRING_KEYS then Quoted(JsString(value, lib))
    else if key in NUMBER_KEYS then NumberToken(ToNumber(value, lib))
    else if key in BOOL_KEYS then BoolWord(ToBool(value))
    else match value
      case JString(s) => Quoted(s)
      case JBool(b) => BoolWord(b)
      case JNumber(n) => Integer(n)
      case _ => Quoted(JsString(value, lib))
  }

  function AdvancedToken(value: Json, lib: Library): Token {
    match value
    case JBool(b) => BoolWord(b)
    case JNumber(n) => Integer(n)
    case JString(s) =>
      if s == "true" then Word("true")
      else if s == "false" then Word("false")
      else (match lib.parseNumber(s) case Some(number) => NumberToken(number) case None => Raw(s))
    case JNull => Word("null")
    case _ => Raw(lib.jsonText(value))
  }

  // ---------------------------------------------------------------------------------------------
  // The printed file
  // ---------------------------------------------------------------------------------------------

  function StringFieldHead(indent: string, key: string): string {
    indent + "[\"" + key + "\"] = "
  }

  function TokenLine(indent: string, key: string, token: Token): string {
    StringFieldHead(indent, key) + Print(token) + ",\r\n"
  }

  predicate IsPrintedApart(key: string) {
    key == ADVANCED || key == MISSION_LIST
  }

  function TopLine(entry: (string, Json), lib: Library): string {
    if IsPrintedApart(entry.0) then "" else TokenLine("\t", entry.0, TopToken(entry.0, entry.1, lib))
  }

  function TopLines(entries: seq<(string, Json)>, lib: Library): string {
    if entries == [] then "" else TopLine(entries[0], lib) + TopLines(entries[1..], lib)
  }

  function AdvancedLines(entries: seq<(string, Json)>, lib: Library): string {
    if entries == [] then ""
    else TokenLine("\t\t", entries[0].0, AdvancedToken(entries[0].1, lib)) + AdvancedLines(entries[1..], lib)
  }

  function MissionLine(number: nat, path: string): string {
    "\t\t[" + IntText(number) + "] = \"" + EscapePath(path) + "\",\r\n"
  }

  // An item is numbered by its place in the list, and left out when it is not a string.
  function ItemLine(number: nat, item: Json): string {
    if item.JString? then MissionLine(number, item.s) else ""
  }

  function MissionLines(items: seq<Json>, before: nat): string {
    if items == [] then "" else ItemLine(before + 1, items[0]) + MissionLines(items[1..], before + 1)
  }

  function BlockStart(key: string): string {
    "\t[\"" + key + "\"] = \r\n\t{\r\n"
  }

  function BlockEnd(key: string): string {
    "\t}, -- end of [\"" + key + "\"]\r\n"
  }

  function Block(key: string, lines: string): string {
    BlockStart(key) + lines + BlockEnd(key)
  }

  function Lookup(entries: seq<(string, Json)>, key: string): Option<Json> {
    if entries == [] then None
    else if entries[0].0 == key then Some(entries[0].1)
    else Lookup(entries[1..], key)
  }

  function AdvancedBlock(entries: seq<(string, Json)>, lib: Library): string {
    match Lookup(entries, ADVANCED)
    case Some(JObject(inner)) => Block(ADVANCED, AdvancedLines(inner, lib))
    case _ => ""
  }

  function MissionBlock(entries: seq<(string, Json)>): string {
    match Lookup(entries, MISSION_LIST)
    case Some(JArray(items)) => Block(MISSION_LIST, MissionLines(items, 0))
    case _ => ""
  }

  const FILE_START := "cfg = \r\n{\r\n"
  const FILE_END := "} -- end of cfg\r\n"

  function Entries(payload: Json): seq<(string, Json)> {
    if payload.JObject? then payload.entries else []
  }

  function SettingsText(payload: Json, lib: Library): string {
    var entries := Entries(payload);
    FILE_START + TopLines(entries, lib) + AdvancedBlock(entries, lib) + MissionBlock(entries) + FILE_END
  }

  // The text of one more entry comes last.
  lemma {:induction false} TopLinesPush(a: seq<(string, Json)>, e: (string, Json), lib: Library)
    ensures TopLines(a + [e], lib) == TopLines(a, lib) + TopLine(e, lib)
  {
    hide TopLine;
    if a == [] {
      assert [e][1..] == [];
    } else {
      assert (a + [e])[1..] == a[1..] + [e];
      TopLinesPush(a[1..], e, lib);
    }
  }

  lemma {:induction false} AdvancedLinesPush(a: seq<(string, Json)>, e: (string, Json), lib: Library)
    ensures AdvancedLines(a + [e], lib) ==
            AdvancedLines(a, lib) + TokenLine("\t\t", e.0, AdvancedToken(e.1, lib))
  {
    hide TokenLine, AdvancedToken;
    if a == [] {
      assert [e][1..] == [];
    } else {
      assert (a + [e])[1..] == a[1..] + [e];
      AdvancedLinesPush(a[1..], e, lib);
    }
  }

  lemma {:induction false} MissionLinesPush(a: seq<Json>, item: Json, before: nat)
    ensures MissionLines(a + [item], before) == MissionLines(a, before) + ItemLine(before + |a| + 1, item)
  {
    hide ItemLine;
    if a == [] {
      assert [item][1..] == [];
    } else {
      assert (a + [item])[1..] == a[1..] + [item];
      MissionLinesPush(a[1..], item, before + 1);
    }
  }

  /** The serializer: pushes the text of every entry, then the two blocks. */
  method SerializeSettings(payload: Json, lib: Library) returns (out: string)
    ensures out == SettingsText(payload, lib)
  {
    hide TokenLine, TopToken, IsPrintedApart, AdvancedLines, MissionLines, Block;
    out := FILE_START;
    if payload.JObject? {
      var map_ := payload.entries;
      var lines := PrintTopLevel(map_, lib);
      out := out + lines;
      var advancedBlock := PrintAdvancedBlock(map_, lib);
      out := out + advancedBlock;
      var missionBlock := PrintMissionBlock(map_);
      out := out + missionBlock;
    }
    out := out + FILE_END;
  }

  method PrintTopLevel(entries: seq<(string, Json)>, lib: Library) returns (out: string)
    ensures out == TopLines(entries, lib)
  {
    hide TokenLine, TopToken, IsPrintedApart;
    out := "";
    for i := 0 to |entries|
      invariant out == TopLines(entries[..i], lib)
    {
      var (key, value) := entries[i];
      TopLinesPush(entries[..i], entries[i], lib);
      assert entries[..i + 1] == entries[..i] + [entries[i]];
      if IsPrintedApart(key) {
        continue;
      }
      out := out + TokenLine("\t", key, TopToken(key, value, lib));
    }
    assert entries[..|entries|] == entries;
  }

  method PrintAdvancedBlock(entries: seq<(string, Json)>, lib: Library) returns (out: string)
    ensures out == AdvancedBlock(entries, lib)
  {
    hide TokenLine, AdvancedToken, BlockStart, BlockEnd;
    match Lookup(entries, ADVANCED) {
      case Some(JObject(advanced)) =>
        out := BlockStart(ADVANCED);
        var lines := PrintAdvanced(advanced, lib);
        out := out + lines + BlockEnd(ADVANCED);
      case _ =>
        out := "";
    }
  }

  method PrintMissionBlock(entries: seq<(string, Json)>) returns (out: string)
    ensures out == MissionBlock(entries)
  {
    hide BlockStart, BlockEnd;
    match Lookup(entries, MISSION_LIST) {
      case Some(JArray(list)) =>
        out := BlockStart(MISSION_LIST);
        var lines := PrintMissions(list);
        out := out + lines + BlockEnd(MISSION_LIST);
      case _ =>
        out := "";
    }
  }

  method PrintAdvanced(advanced: seq<(string, Json)>, lib: Library) returns (lines: string)
    ensures lines == AdvancedLines(advanced, lib)
  {
    hide TokenLine, AdvancedToken;
    lines := "";
    for i := 0 to |advanced|
      invariant lines == AdvancedLines(advanced[..i], lib)
    {
      AdvancedLinesPush(advanced[..i], advanced[i], lib);
      assert advanced[..i + 1] == advanced[..i] + [advanced[i]];
      lines := lines + TokenLine("\t\t", advanced[i].0, AdvancedToken(advanced[i].1, lib));
    }
    assert advanced[..|advanced|] == advanced;
  }

  method PrintMissions(list: seq<Json>) returns (lines: string)
    ensures lines == MissionLines(list, 0)
  {
    hide MissionLine;
    lines := "";
    for index := 0 to |list|
      invariant lines == MissionLines(list[..index], 0)
    {
      MissionLinesPush(list[..index], list[index], 0);
      assert list[..index + 1] == list[..index] + [list[index]];
      if list[index].JString? {
        lines := lines + MissionLine(index + 1, list[index].s);
      }
    }
    assert list[..|list|] == list;
  }

  // ---------------------------------------------------------------------------------------------
  // The settings a file denotes
  // ---------------------------------------------------------------------------------------------

  datatype Scalar = SBool(b: bool) | SInt(n: int) | SString(text: string)

  datatype Settings = Settings(
    scalars: map<LuaKey, Scalar>,
    advanced: Option<map<LuaKey, Scalar>>,
    missions: Option<seq<string>>)

  // Assigning nil removes the key.
  function Assign(table: map<LuaKey, LuaValue>, field: Field): map<LuaKey, LuaValue> {
    if field.value == LNil then table - {field.key} else table[field.key := field.value]
  }

  function Assigned(table: map<LuaKey, LuaValue>, fields: seq<Field>): map<LuaKey, LuaValue>
    decreases |fields|
  {
    if fields == [] then table else Assigned(Assign(table, fields[0]), fields[1..])
  }

  function TableOf(fields: seq<Field>): map<LuaKey, LuaValue> {
    Assigned(map[], fields)
  }

  function ScalarOf(value: LuaValue): Option<Scalar> {
    match value
    case LBool(b) => Some(SBool(b))
    case LInt(n) => Some(SInt(n))
    case LStr(text) => Some(SString(text))
    case _ => None
  }

  function ScalarsOf(table: map<LuaKey, LuaValue>): map<LuaKey, Scalar> {
    map key | key in table && ScalarOf(table[key]).Some? :: ScalarOf(table[key]).value
  }

  function AdvancedOf(value: LuaValue): map<LuaKey, Scalar> {
    if value.LTable? then ScalarsOf(TableOf(value.fields)) else map[]
  }

  // The values at 1, 2, ... up to the first missing one; those that are not strings are left out.
  function SequenceOf(table: map<LuaKey, LuaValue>, i: int): seq<string>
    decreases |table|
  {
    if KInt(i) !in table then []
    else
      var rest := table - {KInt(i)};
      assert rest.Keys == table.Keys - {KInt(i)};
      assert |rest.Keys| == |table.Keys| - 1;
      (if table[KInt(i)].LStr? then [table[KInt(i)].text] else []) + SequenceOf(rest, i + 1)
  }

  function MissionsOf(value: LuaValue): seq<string> {
    if value.LTable? then SequenceOf(TableOf(value.fields), 1) else []
  }

  function SettingsOf(fields: seq<Field>): Settings {
    var table := TableOf(fields);
    Settings(
      ScalarsOf(table - {KStr(ADVANCED), KStr(MISSION_LIST)}),
      if KStr(ADVANCED) in table then Some(AdvancedOf(table[KStr(ADVANCED)])) else None,
      if KStr(MISSION_LIST) in table then Some(MissionsOf(table[KStr(MISSION_LIST)])) else None)
  }

  function LoadSettings(content: string): Option<Settings> {
    var fields :- ReadFile(content);
    Some(SettingsOf(fields))
  }
}
