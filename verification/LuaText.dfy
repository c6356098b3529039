/**
 A reader for the part of Lua 5.1 that `serverSettings.lua` is written in: blanks and `--` comments,
 quoted strings (Lua 5.1 Reference Manual, section 2.1), integers, `true`, `false`, `nil`, the unbound
 globals that the printer can emit, and table constructors whose fields are all `[key] = value`
 (section 2.5.7).

 Every reader takes the whole text and a position and returns the position after what it read.
 `None` means a syntax error or a construct outside this subset; `Some` is what Lua itself would read.
*/
module LuaText {
  import opened Options

  datatype LuaKey = KStr(name: string) | KInt(index: int)

  datatype LuaValue =
    | LNil
    | LBool(b: bool)
    | LInt(n: int)
    | LStr(text: string)
    | LTable(fields: seq<Field>)

  datatype Field = Field(key: LuaKey, value: LuaValue)

  type Read<T> = Option<(T, nat)>

  // ---------------------------------------------------------------------------------------------
  // Characters and blanks
  // ---------------------------------------------------------------------------------------------

  predicate IsSpace(c: char) {
    c == ' ' || '\t' <= c <= '\r'
  }

  predicate IsDigit(c: char) {
    '0' <= c <= '9'
  }

  predicate IsNameChar(c: char) {
    c == '_' || IsDigit(c) || 'a' <= c <= 'z' || 'A' <= c <= 'Z'
  }

  predicate At(s: string, i: nat, c: char) {
    i < |s| && s[i] == c
  }

  function SkipLine(s: string, i: nat): (j: nat)
    requires i <= |s|
    ensures i <= j <= |s|
    decreases |s| - i
  {
    if i == |s| || s[i] == '\n' || s[i] == '\r' then i else SkipLine(s, i + 1)
  }

  // A long comment `--[[ ... ]]` is outside the subset, so `--[` is never skipped.
  predicate StartsComment(s: string, i: nat) {
    At(s, i, '-') && At(s, i + 1, '-') && !At(s, i + 2, '[')
  }

  function Skip(s: string, i: nat): (j: nat)
    requires i <= |s|
    ensures i <= j <= |s|
    decreases |s| - i
  {
    if i == |s| then i
    else if IsSpace(s[i]) then Skip(s, i + 1)
    else if StartsComment(s, i) then Skip(s, SkipLine(s, i + 2))
    else i
  }

  // ---------------------------------------------------------------------------------------------
  // Tokens
  // ---------------------------------------------------------------------------------------------

  function DigitsEnd(s: string, i: nat): (j: nat)
    requires i <= |s|
    ensures i <= j <= |s|
    decreases |s| - i
  {
    if i < |s| && IsDigit(s[i]) then DigitsEnd(s, i + 1) else i
  }

  function DecimalValue(digits: string): int {
    if digits == "" then 0
    else DecimalValue(digits[..|digits| - 1]) * 10 + (digits[|digits| - 1] as int - '0' as int)
  }

  // The character named by an escape whose backslash stands before position i.
  function ReadEscape(s: string, i: nat): (r: Read<char>)
    requires i <= |s|
    ensures r.Some? ==> i < r.value.1 <= |s|
  {
    if i == |s| then None
    else
      var c := s[i];
      if c == '\n' then Some(('\n', if At(s, i + 1, '\r') then i + 2 else i + 1))
      else if c == '\r' then Some(('\n', if At(s, i + 1, '\n') then i + 2 else i + 1))
      else if IsDigit(c) then
        var end := DigitsEnd(s, i);
        var stop := if end > i + 3 then i + 3 else end;
        var code := DecimalValue(s[i..stop]);
        // Bytes above 127 are only parts of a UTF-8 character and are outside the subset.
        if 0 <= code < 128 then Some((code as char, stop)) else None
      else if c == 'a' then Some((7 as char, i + 1))
      else if c == 'b' then Some((8 as char, i + 1))
      else if c == 'f' then Some((12 as char, i + 1))
      else if c == 'n' then Some(('\n', i + 1))
      else if c == 'r' then Some(('\r', i + 1))
      else if c == 't' then Some(('\t', i + 1))
      else if c == 'v' then Some((11 as char, i + 1))
      else Some((c, i + 1))
  }

  // The string whose opening quote stands before position i.
  function ReadString(s: string, i: nat, quote: char): (r: Read<string>)
    requires i <= |s|
    ensures r.Some? ==> i < r.value.1 <= |s|
    decreases |s| - i
  {
    if i == |s| || s[i] == '\n' || s[i] == '\r' then None
    else if s[i] == quote then Some(("", i + 1))
    else if s[i] == '\\' then
      var (c, next) :- ReadEscape(s, i + 1);
      var (text, end) :- ReadString(s, next, quote);
      Some(([c] + text, end))
    else
      var (text, end) :- ReadString(s, i + 1, quote);
      Some(([s[i]] + text, end))
  }

  // A decimal integer, not followed by anything that would continue the number.
  function ReadInt(s: string, i: nat): (r: Read<int>)
    requires i <= |s|
    ensures r.Some? ==> i < r.value.1 <= |s|
  {
    var start := if At(s, i, '-') then i + 1 else i;
    var end := DigitsEnd(s, start);
    if end == start || (end < |s| && (s[end] == '.' || IsNameChar(s[end]))) then None
    else
      var magnitude := DecimalValue(s[start..end]);
      Some((if At(s, i, '-') then -magnitude else magnitude, end))
  }

  function NameEnd(s: string, i: nat): (j: nat)
    requires i <= |s|
    ensures i <= j <= |s|
    decreases |s| - i
  {
    if i < |s| && IsNameChar(s[i]) then NameEnd(s, i + 1) else i
  }

  // `null` and `NaN` are globals nobody defines, so Lua reads them as nil.
  function NamedValue(name: string): Option<LuaValue> {
    if name == "true" then Some(LBool(true))
    else if name == "false" then Some(LBool(false))
    else if name == "nil" || name == "null" || name == "NaN" then Some(LNil)
    else None
  }

  // ---------------------------------------------------------------------------------------------
  // Tables
  // ---------------------------------------------------------------------------------------------

  function ReadKey(s: string, i: nat): (r: Read<LuaKey>)
    requires i <= |s|
    ensures r.Some? ==> i < r.value.1 <= |s|
  {
    if i == |s| then None
    else if s[i] == '"' || s[i] == '\'' then
      var (name, end) :- ReadString(s, i + 1, s[i]);
      Some((KStr(name), end))
    else
      var (index, end) :- ReadInt(s, i);
      Some((KInt(index), end))
  }

  // The rest of `[key] =` once the key is read.
  function ReadAssign(s: string, i: nat): (r: Option<nat>)
    requires i <= |s|
    ensures r.Some? ==> i < r.value <= |s|
  {
    var close := Skip(s, i);
    if !At(s, close, ']') then None
    else
      var equals := Skip(s, close + 1);
      if At(s, equals, '=') && !At(s, equals + 1, '=') then Some(equals + 1) else None
  }

  // `[key] =` up to and including the equals sign; `==` is not an assignment.
  function ReadFieldHead(s: string, i: nat): (r: Read<LuaKey>)
    requires i <= |s|
    ensures r.Some? ==> i < r.value.1 <= |s|
  {
    if !At(s, i, '[') then None
    else
      var (key, afterKey) :- ReadKey(s, Skip(s, i + 1));
      var end :- ReadAssign(s, afterKey);
      Some((key, end))
  }

  function ReadValue(s: string, i: nat): (r: Read<LuaValue>)
    requires i <= |s|
    ensures r.Some? ==> i < r.value.1 <= |s|
    decreases |s| - i, 0
  {
    if i == |s| then None
    else if s[i] == '{' then
      var (fields, end) :- ReadFields(s, i + 1);
      Some((LTable(fields), end))
    else if s[i] == '"' || s[i] == '\'' then
      var (text, end) :- ReadString(s, i + 1, s[i]);
      Some((LStr(text), end))
    else if s[i] == '-' || IsDigit(s[i]) then
      var (n, end) :- ReadInt(s, i);
      Some((LInt(n), end))
    else
      var end := NameEnd(s, i);
      var value :- NamedValue(s[i..end]);
      if end == i then None else Some((value, end))
  }

  function ReadField(s: string, i: nat): (r: Read<Field>)
    requires i <= |s|
    ensures r.Some? ==> i < r.value.1 <= |s|
    decreases |s| - i, 1
  {
    var (key, afterHead) :- ReadFieldHead(s, i);
    var (value, end) :- ReadValue(s, Skip(s, afterHead));
    Some((Field(key, value), end))
  }

  // The fields of a table whose opening brace stands before position i.
  function ReadFields(s: string, i: nat): (r: Read<seq<Field>>)
    requires i <= |s|
    ensures r.Some? ==> i < r.value.1 <= |s|
    decreases |s| - i, 2
  {
    var start := Skip(s, i);
    if At(s, start, '}') then Some(([], start + 1))
    else
      var (field, afterField) :- ReadField(s, start);
      var next := Skip(s, afterField);
      if At(s, next, ',') || At(s, next, ';') then
        var (rest, end) :- ReadFields(s, next + 1);
        Some(([field] + rest, end))
      else if At(s, next, '}') then Some(([field], next + 1))
      else None
  }

  // The position just inside the table of `cfg = { ... }`.
  function ReadOpening(s: string): (r: Option<nat>)
    ensures r.Some? ==> r.value <= |s|
  {
    var name := Skip(s, 0);
    var nameEnd := NameEnd(s, name);
    if s[name..nameEnd] != "cfg" then None
    else
      var equals := Skip(s, nameEnd);
      if !At(s, equals, '=') || At(s, equals + 1, '=') then None
      else
        var brace := Skip(s, equals + 1);
        if At(s, brace, '{') then Some(brace + 1) else None
  }

  // The fields of the one statement `cfg = { ... }` that makes up the file.
  function ReadFile(s: string): Option<seq<Field>> {
    var inside :- ReadOpening(s);
    var (fields, end) :- ReadFields(s, inside);
    if Skip(s, end) == |s| then Some(fields) else None
  }
}
