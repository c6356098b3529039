/**
 What a saved payload loads as, key by key, in JSON values and loaded scalars alone.
*/
module SavedSettings {
  import opened Options
  import opened LuaText
  import opened LuaPrinting
  import opened SettingsLua
  import opened SettingsRoundTrip

  predicate DistinctKeys(entries: seq<(string, Json)>) {
    forall i, j :: 0 <= i < j < |entries| ==> entries[i].0 != entries[j].0
  }

  // A payload that is printed and read back.
  predicate Loadable(payload: Json, lib: Library) {
    Saveable(payload, lib) && TopReadable(Entries(payload), lib) && DistinctKeys(Entries(payload))
  }

  function At<T>(table: map<LuaKey, T>, key: string): Option<T> {
    if KStr(key) in table then Some(table[KStr(key)]) else None
  }

  function Loaded(payload: Json, lib: Library): Option<Settings> {
    LoadSettings(SettingsText(payload, lib))
  }

  // The scalar that the loaded settings hold under a key.
  function Held(payload: Json, lib: Library, key: string): Option<Scalar> {
    match Loaded(payload, lib)
    case Some(settings) => At(settings.scalars, key)
    case None => None
  }

  // ---------------------------------------------------------------------------------------------
  // One key
  // ---------------------------------------------------------------------------------------------

  lemma {:induction false} CoercedTopKeeps(acc: map<LuaKey, Scalar>, entries: seq<(string, Json)>, lib: Library,
                                           key: string)
    requires forall e <- entries :: e.0 != key
    ensures At(CoercedTop(acc, entries, lib), key) == At(acc, key)
    decreases |entries|
  {
    if entries != [] {
      hide CoerceTop;
      assert entries[0] in entries;
      var (k, value) := entries[0];
      CoercedTopKeeps(if IsPrintedApart(k) then acc else Put(acc, KStr(k), CoerceTop(k, value, lib)), entries[1..],
                      lib, key);
    }
  }

  lemma {:induction false} CoercedTopAt(acc: map<LuaKey, Scalar>, entries: seq<(string, Json)>, lib: Library, i: nat)
    requires i < |entries| && DistinctKeys(entries) && !IsPrintedApart(entries[i].0)
    ensures At(CoercedTop(acc, entries, lib), entries[i].0) == CoerceTop(entries[i].0, entries[i].1, lib)
    decreases |entries|
  {
    hide CoerceTop, CoercedTop;
    var (k, value) := entries[0];
    var next := if IsPrintedApart(k) then acc else Put(acc, KStr(k), CoerceTop(k, value, lib));
    CoercedTopFirst(acc, entries, lib);
    if i == 0 {
      forall e | e in entries[1..]
        ensures e.0 != k
      {
        var j :| 0 <= j < |entries[1..]| && entries[1..][j] == e;
        assert entries[j + 1] == e;
      }
      CoercedTopKeeps(next, entries[1..], lib, k);
    } else {
      CoercedTopAt(next, entries[1..], lib, i - 1);
    }
  }

  lemma CoercedTopFirst(acc: map<LuaKey, Scalar>, entries: seq<(string, Json)>, lib: Library)
    requires entries != []
    ensures var (k, value) := entries[0];
            CoercedTop(acc, entries, lib) ==
            CoercedTop(if IsPrintedApart(k) then acc else Put(acc, KStr(k), CoerceTop(k, value, lib)), entries[1..],
                       lib)
  {
    hide CoerceTop;
  }

  lemma HeldIs(payload: Json, lib: Library, key: string, value: Json)
    requires Loadable(payload, lib) && (key, value) in Entries(payload) && !IsPrintedApart(key)
    ensures Loaded(payload, lib).Some? && Held(payload, lib, key) == CoerceTop(key, value, lib)
  {
    hide LoadSettings, SettingsText, Saveable, TopReadable, CoercedTop, CoerceTop, CoercedAdvanced, LeadingStrings;
    SaveThenLoad(payload, lib);
    var i :| 0 <= i < |Entries(payload)| && Entries(payload)[i] == (key, value);
    CoercedTopAt(map[], Entries(payload), lib, i);
  }

  // ---------------------------------------------------------------------------------------------
  // The kinds of keys
  // ---------------------------------------------------------------------------------------------

  predicate IsSwitch(key: string) {
    key in ["require_pure_textures", "require_pure_scripts", "require_pure_clients", "require_pure_models",
            "listShuffle", "listLoop", "isPublic"]
  }

  predicate IsCount(key: string) {
    key in ["port", "mode", "listStartIndex", "maxPlayers"]
  }

  predicate IsText(key: string) {
    key in ["name", "description", "password", "bind_address"]
  }

  // A length and a first letter tell the kinds apart.
  function Kind(key: string): nat {
    if key == "" then 0
    else if |key| >= 19 || (|key| == 11 && key[0] == 'l') || (|key| == 8 && (key[0] == 'l' || key[0] == 'i')) then 1
    else if |key| == 14 || |key| == 10 || (|key| == 4 && (key[0] == 'p' || key[0] == 'm')) then 2
    else if |key| == 12 || (|key| == 11 && key[0] == 'd') || (|key| == 8 && key[0] == 'p')
            || (|key| == 4 && key[0] == 'n')
    then 3
    else 4
  }

  lemma KindOfSwitch(key: string)
    requires IsSwitch(key)
    ensures Kind(key) == 1 && key in BOOL_KEYS
  {
  }

  lemma KindOfCount(key: string)
    requires IsCount(key)
    ensures Kind(key) == 2 && key in NUMBER_KEYS
  {
  }

  lemma KindOfText(key: string)
    requires IsText(key)
    ensures Kind(key) == 3 && key in STRING_KEYS
  {
  }

  lemma KindsApart(key: string)
    ensures key in BOOL_KEYS ==> Kind(key) == 1
    ensures key in NUMBER_KEYS ==> Kind(key) == 2
    ensures key in STRING_KEYS ==> Kind(key) == 3
    ensures IsPrintedApart(key) ==> Kind(key) == 4
  {
  }

  /** The seven switches hold true exactly for true and for the text of it, and false for anything else. */
  lemma SavedSwitch(payload: Json, lib: Library, key: string, value: Json)
    requires Loadable(payload, lib) && (key, value) in Entries(payload) && IsSwitch(key)
    ensures Held(payload, lib, key) == Some(SBool(value == JBool(true) || value == JString("true")))
  {
    KindOfSwitch(key);
    KindsApart(key);
    hide Loadable, Held, IsSwitch, Kind, IsPrintedApart, BOOL_KEYS, NUMBER_KEYS, STRING_KEYS;
    HeldIs(payload, lib, key, value);
  }

  /** The four counts hold the number, 1 or 0 for a truth value, the number that a text stands for if it is a whole
      one, and nothing for anything else. */
  lemma SavedCount(payload: Json, lib: Library, key: string, value: Json)
    requires Loadable(payload, lib) && (key, value) in Entries(payload) && IsCount(key)
    ensures Held(payload, lib, key) ==
            match value
            case JNumber(n) => Some(SInt(n))
            case JBool(b) => Some(SInt(if b then 1 else 0))
            case JString(text) =>
              (match lib.parseNumber(text) case Some(Whole(n)) => Some(SInt(n)) case _ => None)
            case _ => None
  {
    KindOfCount(key);
    KindsApart(key);
    hide Loadable, Held, IsCount, Kind, IsPrintedApart, BOOL_KEYS, NUMBER_KEYS, STRING_KEYS;
    HeldIs(payload, lib, key, value);
  }

  // The text of a value, and what is left of it: each carriage return before a newline goes.
  function TextOf(value: Json, lib: Library): string {
    match value
    case JString(text) => text
    case JNumber(n) => IntText(n)
    case JBool(true) => "true"
    case JBool(false) => "false"
    case JNull => "null"
    case JArray(_) => lib.jsonText(value)
    case JObject(_) => lib.jsonText(value)
  }

  predicate SameText(held: Option<Scalar>, text: string) {
    && held.Some? && held.value.SString?
    && ('\r' !in text ==> held.value.text == text)
    && held.value.text == Normalized(text)
  }

  lemma {:induction false} NothingDropped(text: string)
    requires '\r' !in text
    ensures Normalized(text) == text
  {
    if text != "" {
      assert text == [text[0]] + text[1..];
      NothingDropped(text[1..]);
    }
  }

  /** What reading a text back drops: the carriage returns before newlines and nothing else. */
  lemma {:induction false} ReturnsDropped(before: string, after: string)
    ensures Normalized(before + "\r\n" + after) == Normalized(before) + "\n" + Normalized(after)
  {
    var s := before + "\r\n" + after;
    if before == "" {
      assert s[2..] == after;
    } else if |before| >= 2 && before[0] == '\r' && before[1] == '\n' {
      assert s[2..] == before[2..] + "\r\n" + after;
      ReturnsDropped(before[2..], after);
    } else {
      assert s[1..] == before[1..] + "\r\n" + after;
      ReturnsDropped(before[1..], after);
      assert s[0] == before[0] && (|before| >= 2 ==> s[1] == before[1]) && (|before| == 1 ==> s[1] == '\r');
    }
  }

  /** The four texts hold the text of the value, and so does any other key with a text, null, a list or an object. */
  lemma SavedText(payload: Json, lib: Library, key: string, value: Json)
    requires Loadable(payload, lib) && (key, value) in Entries(payload) && IsText(key)
    ensures SameText(Held(payload, lib, key), TextOf(value, lib))
  {
    KindOfText(key);
    KindsApart(key);
    hide Loadable, Held, IsText, Kind, IsPrintedApart, BOOL_KEYS, NUMBER_KEYS, STRING_KEYS, Normalized;
    HeldIs(payload, lib, key, value);
    if '\r' !in TextOf(value, lib) {
      NothingDropped(TextOf(value, lib));
    }
  }

  /** Any other key holds the truth value or the number it was given, and else the text of the value. */
  lemma SavedOther(payload: Json, lib: Library, key: string, value: Json)
    requires Loadable(payload, lib) && (key, value) in Entries(payload)
    requires !IsSwitch(key) && !IsCount(key) && !IsText(key) && key != "advanced" && key != "missionList"
    ensures match value
            case JBool(b) => Held(payload, lib, key) == Some(SBool(b))
            case JNumber(n) => Held(payload, lib, key) == Some(SInt(n))
            case _ => SameText(Held(payload, lib, key), TextOf(value, lib))
  {
    assert key !in BOOL_KEYS && key !in NUMBER_KEYS && key !in STRING_KEYS && !IsPrintedApart(key);
    hide Loadable, Held, IsText, IsSwitch, IsCount, IsPrintedApart, BOOL_KEYS, NUMBER_KEYS, STRING_KEYS, Normalized;
    HeldIs(payload, lib, key, value);
    if '\r' !in TextOf(value, lib) {
      NothingDropped(TextOf(value, lib));
    }
  }

  /** A key that the payload does not have is not there. */
  lemma NotSaved(payload: Json, lib: Library, key: string)
    requires Loadable(payload, lib) && forall e <- Entries(payload) :: e.0 != key
    ensures Loaded(payload, lib).Some? && Held(payload, lib, key) == None
  {
    hide LoadSettings, SettingsText, Saveable, TopReadable, CoercedTop, CoercedAdvanced, LeadingStrings;
    SaveThenLoad(payload, lib);
    CoercedTopKeeps(map[], Entries(payload), lib, key);
  }

  // ---------------------------------------------------------------------------------------------
  // The advanced options
  // ---------------------------------------------------------------------------------------------

  lemma {:induction false} CoercedAdvancedKeeps(acc: map<LuaKey, Scalar>, entries: seq<(string, Json)>, lib: Library,
                                                key: string)
    requires forall e <- entries :: e.0 != key
    ensures At(CoercedAdvanced(acc, entries, lib), key) == At(acc, key)
    decreases |entries|
  {
    if entries != [] {
      hide CoerceAdvanced;
      assert entries[0] in entries;
      CoercedAdvancedKeeps(Put(acc, KStr(entries[0].0), CoerceAdvanced(entries[0].1, lib)), entries[1..], lib, key);
    }
  }

  lemma {:induction false} CoercedAdvancedAt(acc: map<LuaKey, Scalar>, entries: seq<(string, Json)>, lib: Library,
                                             i: nat)
    requires i < |entries| && DistinctKeys(entries)
    ensures At(CoercedAdvanced(acc, entries, lib), entries[i].0) == CoerceAdvanced(entries[i].1, lib)
    decreases |entries|
  {
    hide CoerceAdvanced;
    var (k, value) := entries[0];
    var next := Put(acc, KStr(k), CoerceAdvanced(value, lib));
    if i == 0 {
      forall e | e in entries[1..]
        ensures e.0 != k
      {
        var j :| 0 <= j < |entries[1..]| && entries[1..][j] == e;
        assert entries[j + 1] == e;
      }
      CoercedAdvancedKeeps(next, entries[1..], lib, k);
    } else {
      CoercedAdvancedAt(next, entries[1..], lib, i - 1);
    }
  }

  // The option that the loaded settings hold under a key.
  function HeldOption(payload: Json, lib: Library, key: string): Option<Scalar> {
    match Loaded(payload, lib)
    case Some(Settings(_, Some(advanced), _)) => At(advanced, key)
    case _ => None
  }

  /** An advanced option holds its truth value or number, or the one its text stands for; null is no option. */
  lemma SavedOption(payload: Json, lib: Library, inner: seq<(string, Json)>, key: string, value: Json)
    requires Loadable(payload, lib) && ("advanced", JObject(inner)) in Entries(payload)
    requires DistinctKeys(inner) && (key, value) in inner
    ensures HeldOption(payload, lib, key) ==
            match value
            case JBool(b) => Some(SBool(b))
            case JNumber(n) => Some(SInt(n))
            case JString(text) =>
              if text == "true" then Some(SBool(true))
              else if text == "false" then Some(SBool(false))
              else (match lib.parseNumber(text) case Some(Whole(n)) => Some(SInt(n)) case _ => None)
            case _ => None
  {
    LookupDistinct(Entries(payload), "advanced", JObject(inner));
    AdvancedMeans(lib, value);
    hide LoadSettings, SettingsText, Saveable, TopReadable, CoercedTop, CoercedAdvanced, LeadingStrings, DistinctKeys,
         Lookup, CoerceAdvanced;
    SaveThenLoad(payload, lib);
    var i :| 0 <= i < |inner| && inner[i] == (key, value);
    CoercedAdvancedAt(map[], inner, lib, i);
  }

  lemma AdvancedMeans(lib: Library, value: Json)
    ensures CoerceAdvanced(value, lib) ==
            match value
            case JBool(b) => Some(SBool(b))
            case JNumber(n) => Some(SInt(n))
            case JString(text) =>
              if text == "true" then Some(SBool(true))
              else if text == "false" then Some(SBool(false))
              else (match lib.parseNumber(text) case Some(Whole(n)) => Some(SInt(n)) case _ => None)
            case _ => None
  {
  }

  /** An option that the payload does not have is not there. */
  lemma NoOption(payload: Json, lib: Library, inner: seq<(string, Json)>, key: string)
    requires Loadable(payload, lib) && ("advanced", JObject(inner)) in Entries(payload)
    requires forall e <- inner :: e.0 != key
    ensures Loaded(payload, lib).Some? && HeldOption(payload, lib, key) == None
  {
    LookupDistinct(Entries(payload), "advanced", JObject(inner));
    hide LoadSettings, SettingsText, Saveable, TopReadable, CoercedTop, CoercedAdvanced, LeadingStrings, DistinctKeys,
         Lookup;
    SaveThenLoad(payload, lib);
    CoercedAdvancedKeeps(map[], inner, lib, key);
  }

  lemma {:induction false} LookupDistinct(entries: seq<(string, Json)>, key: string, value: Json)
    requires DistinctKeys(entries) && (key, value) in entries
    ensures Lookup(entries, key) == Some(value)
  {
    var i :| 0 <= i < |entries| && entries[i] == (key, value);
    if i > 0 {
      assert entries[1..][i - 1] == (key, value);
      LookupDistinct(entries[1..], key, value);
    }
  }

  /** The loaded missions are the strings that stand before the first item that is not one, in order. */
  lemma SavedMissions(payload: Json, lib: Library, items: seq<Json>, n: nat)
    requires Loadable(payload, lib) && ("missionList", JArray(items)) in Entries(payload)
    requires n <= |items| && (forall i :: 0 <= i < n ==> items[i].JString?)
    requires n < |items| ==> !items[n].JString?
    ensures Loaded(payload, lib).Some? && Loaded(payload, lib).value.missions.Some?
    ensures var missions := Loaded(payload, lib).value.missions.value;
            |missions| == n && forall i :: 0 <= i < n ==> items[i] == JString(missions[i])
  {
    LookupDistinct(Entries(payload), "missionList", JArray(items));
    hide LoadSettings, SettingsText, Saveable, TopReadable, CoercedTop, CoercedAdvanced, DistinctKeys, Lookup;
    SaveThenLoad(payload, lib);
    LeadingAre(items, n);
  }

  lemma {:induction false} LeadingAre(items: seq<Json>, n: nat)
    requires n <= |items| && (forall i :: 0 <= i < n ==> items[i].JString?)
    requires n < |items| ==> !items[n].JString?
    ensures |LeadingStrings(items)| == n
    ensures forall i :: 0 <= i < n ==> items[i] == JString(LeadingStrings(items)[i])
  {
    if n > 0 {
      assert forall i :: 0 <= i < n - 1 ==> items[1..][i] == items[i + 1];
      LeadingAre(items[1..], n - 1);
      assert forall i :: 1 <= i < n ==> items[i] == items[1..][i - 1];
    }
  }

  // ---------------------------------------------------------------------------------------------
  // One file, to the letter
  // ---------------------------------------------------------------------------------------------

  lemma ExampleTokens(lib: Library)
    ensures Print(TopToken("name", JString("A"), lib)) == "\"A\""
    ensures Print(TopToken("port", JNumber(7), lib)) == "7"
    ensures Print(TopToken("isPublic", JBool(true), lib)) == "true"
  {
    assert "A"[1..] == "";
    assert EscapeLuaString("A") == "A" by {
      assert ReplaceChar("A", '\\', "\\\\") == "A" && ReplaceChar("A", '"', "\\\"") == "A";
    }
    KindOfText("name");
    KindOfCount("port");
    KindOfSwitch("isPublic");
    KindsApart("name");
    KindsApart("port");
    KindsApart("isPublic");
  }

  lemma TopFirst(entries: seq<(string, Json)>, lib: Library)
    requires entries != []
    ensures TopLines(entries, lib) == TopLine(entries[0], lib) + TopLines(entries[1..], lib)
  {
    hide TopLine;
  }

  lemma FiveLines(entries: seq<(string, Json)>, lib: Library)
    requires |entries| == 5
    ensures TopLines(entries, lib) ==
            TopLine(entries[0], lib) + (TopLine(entries[1], lib) + (TopLine(entries[2], lib) +
            (TopLine(entries[3], lib) + (TopLine(entries[4], lib) + ""))))
  {
    hide TopLine, TopLines;
    TopFirst(entries, lib);
    TopFirst(entries[1..], lib);
    TopFirst(entries[2..], lib);
    TopFirst(entries[3..], lib);
    TopFirst(entries[4..], lib);
    assert entries[1..][1..] == entries[2..] && entries[2..][1..] == entries[3..];
    assert entries[3..][1..] == entries[4..] && entries[4..][1..] == [];
    NoTopLines(lib);
  }

  lemma ExampleLines(lib: Library)
    ensures TopLine(("name", JString("A")), lib) == "\t[\"name\"] = \"A\",\r\n"
    ensures TopLine(("port", JNumber(7)), lib) == "\t[\"port\"] = 7,\r\n"
    ensures TopLine(("isPublic", JBool(true)), lib) == "\t[\"isPublic\"] = true,\r\n"
  {
    hide TopToken, Print, Kind, BOOL_KEYS, NUMBER_KEYS, STRING_KEYS, IsText, IsSwitch, IsCount, IsPrintedApart,
         TokenLine;
    ExampleTokens(lib);
    assert IsText("name") && IsCount("port") && IsSwitch("isPublic") by {
      ExampleKinds();
    }
    KindOfText("name");
    KindOfCount("port");
    KindOfSwitch("isPublic");
    KindsApart("name");
    KindsApart("port");
    KindsApart("isPublic");
    LineText("name", TopToken("name", JString("A"), lib), "\"A\"");
    LineText("port", TopToken("port", JNumber(7), lib), "7");
    LineText("isPublic", TopToken("isPublic", JBool(true), lib), "true");
    ExampleLineTexts();
  }

  lemma ExampleKinds()
    ensures IsText("name") && IsCount("port") && IsSwitch("isPublic")
  {
  }

  lemma LineText(key: string, token: Token, text: string)
    requires Print(token) == text
    ensures TokenLine("\t", key, token) == "\t[\"" + key + "\"] = " + text + ",\r\n"
  {
    assert "\t" + "[\"" == "\t[\"";
  }

  lemma ExampleLineTexts()
    ensures "\t[\"" + "name" + "\"] = " + "\"A\"" + ",\r\n" == "\t[\"name\"] = \"A\",\r\n"
    ensures "\t[\"" + "port" + "\"] = " + "7" + ",\r\n" == "\t[\"port\"] = 7,\r\n"
    ensures "\t[\"" + "isPublic" + "\"] = " + "true" + ",\r\n" == "\t[\"isPublic\"] = true,\r\n"
  {
  }

  lemma NotPrinted(entry: (string, Json), lib: Library)
    requires entry.0 == "advanced" || entry.0 == "missionList"
    ensures TopLine(entry, lib) == ""
  {
    hide TopToken, TokenLine;
  }

  lemma NoTopLines(lib: Library)
    ensures TopLines([], lib) == ""
  {
  }

  lemma ExampleFrames()
    ensures BlockStart("advanced") == "\t[\"advanced\"] = \r\n\t{\r\n"
    ensures BlockEnd("advanced") == "\t}, -- end of [\"advanced\"]\r\n"
  {
  }

  lemma ExampleMissionFrames()
    ensures BlockStart("missionList") == "\t[\"missionList\"] = \r\n\t{\r\n"
    ensures BlockEnd("missionList") == "\t}, -- end of [\"missionList\"]\r\n"
  {
  }

  lemma ExampleAdvanced(lib: Library)
    ensures AdvancedLines([("pause", JBool(false))], lib) == "\t\t[\"pause\"] = false,\r\n"
  {
    var entries := [("pause", JBool(false))];
    assert entries[1..] == [] && AdvancedLines([], lib) == "";
    var line := TokenLine("\t\t", "pause", AdvancedToken(JBool(false), lib));
    assert line == "\t\t[\"pause\"] = false,\r\n";
    assert AdvancedLines(entries, lib) == line + "" == line;
  }

  lemma ExampleMissions()
    ensures MissionLines([JString("m")], 0) == "\t\t[1] = \"m\",\r\n"
  {
    assert [JString("m")][1..] == [] && "m"[1..] == "";
    assert EscapePath("m") == "m" && IntText(1) == "1";
  }

  lemma ExampleLookup(entries: seq<(string, Json)>)
    requires |entries| == 5 && entries[0].0 == "name" && entries[1].0 == "port" && entries[2].0 == "isPublic"
    requires entries[3].0 == "advanced" && entries[4].0 == "missionList"
    ensures Lookup(entries, "advanced") == Some(entries[3].1)
    ensures Lookup(entries, "missionList") == Some(entries[4].1)
  {
    KindsApart("name");
    LookupPast(entries, "advanced", 3);
    LookupPast(entries, "missionList", 4);
  }

  lemma {:induction false} LookupPast(entries: seq<(string, Json)>, key: string, i: nat)
    requires i < |entries| && entries[i].0 == key && forall j :: 0 <= j < i ==> entries[j].0 != key
    ensures Lookup(entries, key) == Some(entries[i].1)
  {
    if i > 0 {
      LookupPast(entries[1..], key, i - 1);
    }
  }

  // The text in five parts.
  lemma ExampleParts(entries: seq<(string, Json)>, lib: Library, top: string, advanced: string, missions: string)
    requires TopLines(entries, lib) == top && AdvancedBlock(entries, lib) == advanced
    requires MissionBlock(entries) == missions
    ensures SettingsText(JObject(entries), lib) ==
            "cfg = \r\n{\r\n" + top + advanced + missions + "} -- end of cfg\r\n"
  {
    hide TopLines, AdvancedBlock, MissionBlock;
  }

  /** The saved text of one payload, to the letter. */
  lemma ExampleText(lib: Library)
    ensures SettingsText(
              JObject([("name", JString("A")), ("port", JNumber(7)), ("isPublic", JBool(true)),
                       ("advanced", JObject([("pause", JBool(false))])), ("missionList", JArray([JString("m")]))]),
              lib) ==
            "cfg = \r\n{\r\n" +
            ("\t[\"name\"] = \"A\",\r\n" + ("\t[\"port\"] = 7,\r\n" + "\t[\"isPublic\"] = true,\r\n")) +
            ("\t[\"advanced\"] = \r\n\t{\r\n" + "\t\t[\"pause\"] = false,\r\n" +
             "\t}, -- end of [\"advanced\"]\r\n") +
            ("\t[\"missionList\"] = \r\n\t{\r\n" + "\t\t[1] = \"m\",\r\n" +
             "\t}, -- end of [\"missionList\"]\r\n") +
            "} -- end of cfg\r\n"
  {
    var entries := [("name", JString("A")), ("port", JNumber(7)), ("isPublic", JBool(true)),
                    ("advanced", JObject([("pause", JBool(false))])), ("missionList", JArray([JString("m")]))];
    hide TopLines, Lookup, TopLine, AdvancedLines, MissionLines, BlockStart, BlockEnd, SettingsText;
    FiveLines(entries, lib);
    ExampleLines(lib);
    NotPrinted(entries[3], lib);
    NotPrinted(entries[4], lib);
    Emptied(TopLine(entries[2], lib));
    ExampleLookup(entries);
    ExampleAdvanced(lib);
    ExampleMissions();
    ExampleFrames();
    ExampleMissionFrames();
    ExampleParts(entries, lib, TopLines(entries, lib), AdvancedBlock(entries, lib), MissionBlock(entries));
  }

  lemma Emptied(x: string)
    ensures x + ("" + ("" + "")) == x
  {
  }
}
