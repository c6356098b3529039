/**
 How the dashboard prints Lua strings and numbers, and what the reader makes of the result.
*/
module LuaPrinting {
  import opened Options
  import opened LuaText

  // ---------------------------------------------------------------------------------------------
  // Text standing at a position
  // ---------------------------------------------------------------------------------------------

  ghost predicate Lies(s: string, i: nat, x: string) {
    i + |x| <= |s| && forall k {:trigger x[k]} :: 0 <= k < |x| ==> s[i + k] == x[k]
  }

  lemma LiesSplit(s: string, i: nat, x: string, y: string)
    requires Lies(s, i, x + y)
    ensures Lies(s, i, x)
    ensures Lies(s, i + |x|, y)
  {
    forall k | 0 <= k < |x|
      ensures s[i + k] == x[k]
    {
      assert (x + y)[k] == x[k];
    }
    forall k | 0 <= k < |y|
      ensures s[i + |x| + k] == y[k]
    {
      assert (x + y)[|x| + k] == y[k];
    }
  }

  lemma LiesBounds(s: string, i: nat, x: string)
    requires Lies(s, i, x)
    ensures i + |x| <= |s|
  {
  }

  lemma LiesChar(s: string, i: nat, c: char)
    requires Lies(s, i, [c])
    ensures At(s, i, c)
  {
    assert s[i] == [c][0];
  }

  lemma LiesSlice(s: string, i: nat, x: string)
    requires Lies(s, i, x)
    ensures s[i..i + |x|] == x
  {
    forall k | 0 <= k < |x|
      ensures s[i..i + |x|][k] == x[k]
    {
    }
  }

  lemma LiesInside(before: string, x: string, after: string)
    ensures Lies(before + x + after, |before|, x)
  {
  }

  // The five parts of a text stand one after the other.
  lemma LiesInOrder(s: string, a: string, b: string, c: string, d: string, e: string)
    requires s == a + b + c + d + e
    ensures Lies(s, 0, a)
    ensures Lies(s, |a|, b)
    ensures Lies(s, |a| + |b|, c)
    ensures Lies(s, |a| + |b| + |c|, d)
    ensures Lies(s, |a| + |b| + |c| + |d|, e)
  {
    hide Lies;
    assert s == "" + s + "";
    LiesInside("", s, "");
    LiesSplit(s, 0, a + b + c + d, e);
    LiesSplit(s, 0, a + b + c, d);
    LiesSplit(s, 0, a + b, c);
    LiesSplit(s, 0, a, b);
  }

  // ---------------------------------------------------------------------------------------------
  // Numbers
  // ---------------------------------------------------------------------------------------------

  function Digit(d: nat): char
    requires d < 10
  {
    '0' + d as char
  }

  function NatText(n: nat): (text: string)
    ensures |text| > 0
    ensures forall k :: 0 <= k < |text| ==> IsDigit(text[k])
  {
    if n < 10 then [Digit(n)] else NatText(n / 10) + [Digit(n % 10)]
  }

  function IntText(n: int): string {
    if n < 0 then "-" + NatText(-n) else NatText(n)
  }

  lemma {:induction false} DecimalValueOfNatText(n: nat)
    ensures DecimalValue(NatText(n)) == n
  {
    if n < 10 {
      assert [Digit(n)][..0] == "";
    } else {
      DecimalValueOfNatText(n / 10);
      var text := NatText(n);
      assert text[..|text| - 1] == NatText(n / 10);
    }
  }

  lemma {:induction false} DigitsEndAt(s: string, i: nat, x: string)
    requires Lies(s, i, x)
    requires forall k :: 0 <= k < |x| ==> IsDigit(x[k])
    requires i + |x| < |s| ==> !IsDigit(s[i + |x|])
    ensures DigitsEnd(s, i) == i + |x|
    decreases |x|
  {
    if x != "" {
      assert x == x[..1] + x[1..];
      LiesSplit(s, i, x[..1], x[1..]);
      assert s[i] == x[0];
      DigitsEndAt(s, i + 1, x[1..]);
    }
  }

  // A printed integer is read back, whatever follows it that is no part of a number.
  lemma ReadIntText(s: string, i: nat, n: int)
    requires Lies(s, i, IntText(n))
    requires var end := i + |IntText(n)|; end < |s| && s[end] != '.' && !IsNameChar(s[end])
    ensures ReadInt(s, i) == Some((n, i + |IntText(n)|))
    ensures s[i] == '-' || IsDigit(s[i])
  {
    hide DecimalValue, DigitsEnd, NatText;
    var magnitude := if n < 0 then -n else n;
    var digits := NatText(magnitude);
    assert IntText(n)[0] == s[i];
    if n < 0 {
      LiesSplit(s, i, "-", digits);
    } else {
      assert digits[0] == s[i];
    }
    var start := if n < 0 then i + 1 else i;
    DigitsEndAt(s, start, digits);
    LiesSlice(s, start, digits);
    DecimalValueOfNatText(magnitude);
  }

  // ---------------------------------------------------------------------------------------------
  // Strings
  // ---------------------------------------------------------------------------------------------

  function ReplaceChar(s: string, c: char, with: string): string {
    if s == "" then ""
    else (if s[0] == c then with else [s[0]]) + ReplaceChar(s[1..], c, with)
  }

  // Every carriage return that stands before a newline is dropped.
  function Normalized(s: string): string {
    if s == "" then ""
    else if |s| >= 2 && s[0] == '\r' && s[1] == '\n' then ['\n'] + Normalized(s[2..])
    else [s[0]] + Normalized(s[1..])
  }

  // The four replacements, in the order the code applies them.
  function EscapeLuaString(value: string): string {
    var escaped := ReplaceChar(ReplaceChar(value, '\\', "\\\\"), '"', "\\\"");
    ReplaceChar(Normalized(escaped), '\n', "\\\r\n")
  }

  function EscapeChar(c: char): string {
    if c == '\\' then "\\\\"
    else if c == '"' then "\\\""
    else if c == '\n' then "\\\r\n"
    else [c]
  }

  // The same text in one pass over the normalised value.
  function EscapedChars(s: string): string {
    if s == "" then "" else EscapeChar(s[0]) + EscapedChars(s[1..])
  }

  lemma ReplaceFirst(x: char, rest: string, c: char, with: string)
    ensures ReplaceChar([x] + rest, c, with) == (if x == c then with else [x]) + ReplaceChar(rest, c, with)
  {
    assert ([x] + rest)[1..] == rest;
  }

  lemma {:induction false} ReplaceCharAppend(s: string, t: string, c: char, with: string)
    ensures ReplaceChar(s + t, c, with) == ReplaceChar(s, c, with) + ReplaceChar(t, c, with)
  {
    if s == "" {
      assert s + t == t;
    } else {
      assert (s + t)[1..] == s[1..] + t;
      ReplaceCharAppend(s[1..], t, c, with);
    }
  }

  lemma {:induction false} EscapeInOnePass(value: string)
    ensures EscapeLuaString(value) == EscapedChars(Normalized(value))
  {
    var once := ReplaceChar(value, '\\', "\\\\");
    var twice := ReplaceChar(once, '"', "\\\"");
    if value == "" {
    } else if |value| >= 2 && value[0] == '\r' && value[1] == '\n' {
      var rest := value[2..];
      EscapeInOnePass(rest);
      assert value == "\r\n" + rest;
      ReplaceCharAppend("\r\n", rest, '\\', "\\\\");
      assert ReplaceChar("\r\n", '\\', "\\\\") == "\r\n";
      var tail := ReplaceChar(rest, '\\', "\\\\");
      ReplaceCharAppend("\r\n", tail, '"', "\\\"");
      assert ReplaceChar("\r\n", '"', "\\\"") == "\r\n";
      assert twice == "\r\n" + ReplaceChar(tail, '"', "\\\"");
      assert twice[2..] == ReplaceChar(tail, '"', "\\\"");
      var normalized := Normalized(twice);
      assert normalized[1..] == Normalized(twice[2..]);
      var plain := Normalized(value);
      assert plain[1..] == Normalized(rest);
    } else {
      var rest := value[1..];
      EscapeInOnePass(rest);
      var c := value[0];
      var tail := ReplaceChar(rest, '\\', "\\\\");
      var tailTwice := ReplaceChar(tail, '"', "\\\"");
      var head := if c == '\\' then "\\\\" else if c == '"' then "\\\"" else [c];
      EscapeFirst(c, rest);
      assert twice == head + tailTwice;
      NormalizedFirst(head, c, rest, tailTwice);
      ReplaceCharAppend(head, Normalized(tailTwice), '\n', "\\\r\n");
      ReplaceHead(c, head);
      var plain := Normalized(value);
      assert plain[1..] == Normalized(rest);
    }
  }

  // The first two replacements act on each character by itself.
  lemma EscapeFirst(c: char, rest: string)
    ensures var tail := ReplaceChar(ReplaceChar(rest, '\\', "\\\\"), '"', "\\\"");
            var head := if c == '\\' then "\\\\" else if c == '"' then "\\\"" else [c];
            ReplaceChar(ReplaceChar([c] + rest, '\\', "\\\\"), '"', "\\\"") == head + tail
  {
    hide ReplaceChar;
    var tail := ReplaceChar(rest, '\\', "\\\\");
    ReplaceFirst(c, rest, '\\', "\\\\");
    if c == '\\' {
      assert "\\\\" + tail == ['\\'] + (['\\'] + tail);
      ReplaceFirst('\\', ['\\'] + tail, '"', "\\\"");
      ReplaceFirst('\\', tail, '"', "\\\"");
    } else {
      ReplaceFirst(c, tail, '"', "\\\"");
    }
  }

  lemma ReplaceHead(c: char, head: string)
    requires head == if c == '\\' then "\\\\" else if c == '"' then "\\\"" else [c]
    ensures ReplaceChar(head, '\n', "\\\r\n") == EscapeChar(c)
  {
    ReplaceFirst(head[0], head[1..], '\n', "\\\r\n");
    if |head| == 2 {
      ReplaceFirst(head[1], "", '\n', "\\\r\n");
      assert head[1..] == [head[1]] + "";
    }
    assert head == [head[0]] + head[1..];
  }

  lemma EscapedStart(rest: string)
    ensures var tail := ReplaceChar(ReplaceChar(rest, '\\', "\\\\"), '"', "\\\"");
            tail != "" && tail[0] == '\n' ==> rest != "" && rest[0] == '\n'
  {
    if rest == "" {
    } else {
      hide ReplaceChar;
      assert rest == [rest[0]] + rest[1..];
      EscapeFirst(rest[0], rest[1..]);
    }
  }

  // Escaping neither makes nor breaks a carriage return before a newline.
  lemma NormalizedFirst(head: string, c: char, rest: string, tail: string)
    requires head == if c == '\\' then "\\\\" else if c == '"' then "\\\"" else [c]
    requires tail == ReplaceChar(ReplaceChar(rest, '\\', "\\\\"), '"', "\\\"")
    requires !(c == '\r' && rest != "" && rest[0] == '\n')
    ensures Normalized(head + tail) == head + Normalized(tail)
  {
    EscapedStart(rest);
    hide ReplaceChar;
    if |head| == 2 {
      NormalizedStep(head[0], [head[1]] + tail);
      NormalizedStep(head[1], tail);
      assert head + tail == [head[0]] + ([head[1]] + tail);
    } else {
      NormalizedStep(c, tail);
    }
  }

  lemma NormalizedStep(c: char, rest: string)
    requires !(c == '\r' && rest != "" && rest[0] == '\n')
    ensures Normalized([c] + rest) == [c] + Normalized(rest)
  {
    assert ([c] + rest)[1..] == rest;
  }

  // What Lua makes of one escaped character.
  lemma ReadEscapeChar(s: string, i: nat, c: char)
    requires Lies(s, i, EscapeChar(c))
    ensures var next := i + |EscapeChar(c)|;
            ReadString(s, i, '"') ==
            if c == '\r' then None
            else match ReadString(s, next, '"')
                 case None => None
                 case Some((text, end)) => Some(([c] + text, end))
  {
    hide DecimalValue, DigitsEnd;
    assert s[i] == EscapeChar(c)[0];
    if |EscapeChar(c)| > 1 {
      assert s[i + 1] == EscapeChar(c)[1];
    }
    if |EscapeChar(c)| > 2 {
      assert s[i + 2] == EscapeChar(c)[2];
    }
  }

  lemma ReadClosingQuote(s: string, i: nat)
    requires Lies(s, i, "\"")
    ensures ReadString(s, i, '"') == Some(("", i + 1))
  {
    assert s[i] == "\""[0];
  }

  // What Lua makes of escaped characters and their closing quote: it stops at a carriage return.
  lemma {:induction false} ReadEscapedChars(s: string, i: nat, value: string)
    requires Lies(s, i, EscapedChars(value) + "\"")
    ensures '\r' in value ==> ReadString(s, i, '"') == None
    ensures '\r' !in value ==> ReadString(s, i, '"') == Some((value, i + |EscapedChars(value)| + 1))
    decreases |value|
  {
    hide ReadString, Lies, EscapeChar;
    if value == "" {
      assert EscapedChars(value) + "\"" == "\"";
      ReadClosingQuote(s, i);
    } else {
      var c, rest := value[0], value[1..];
      assert value == [c] + rest;
      assert EscapedChars(value) + "\"" == EscapeChar(c) + (EscapedChars(rest) + "\"");
      LiesSplit(s, i, EscapeChar(c), EscapedChars(rest) + "\"");
      ReadEscapeChar(s, i, c);
      ReadEscapedChars(s, i + |EscapeChar(c)|, rest);
    }
  }

  // Some carriage return stands before no newline.
  predicate HasLoneCarriageReturn(s: string) {
    if s == "" then false
    else if |s| >= 2 && s[0] == '\r' && s[1] == '\n' then HasLoneCarriageReturn(s[2..])
    else s[0] == '\r' || HasLoneCarriageReturn(s[1..])
  }

  lemma {:induction false} NormalizedKeepsLoneReturns(s: string)
    ensures '\r' in Normalized(s) <==> HasLoneCarriageReturn(s)
  {
    if s != "" {
      NormalizedKeepsLoneReturns(s[if |s| >= 2 && s[0] == '\r' && s[1] == '\n' then 2 else 1..]);
    }
  }

  /** A printed string is readable exactly when it holds no lone carriage return, and then its value
      comes back with CRLF normalised to LF. */
  lemma ReadEscapedString(s: string, i: nat, value: string)
    requires Lies(s, i, EscapeLuaString(value) + "\"")
    ensures HasLoneCarriageReturn(value) ==> ReadString(s, i, '"') == None
    ensures !HasLoneCarriageReturn(value) ==>
              ReadString(s, i, '"') == Some((Normalized(value), i + |EscapeLuaString(value)| + 1))
  {
    hide EscapeLuaString, EscapedChars, Normalized, HasLoneCarriageReturn, ReadString;
    EscapeInOnePass(value);
    NormalizedKeepsLoneReturns(value);
    ReadEscapedChars(s, i, Normalized(value));
  }

  // ---------------------------------------------------------------------------------------------
  // Mission paths and keys
  // ---------------------------------------------------------------------------------------------

  // In a mission path only the backslash is escaped.
  function EscapePath(path: string): string {
    ReplaceChar(path, '\\', "\\\\")
  }

  predicate Plain(c: char) {
    c != '"' && c != '\n' && c != '\r'
  }

  predicate PlainPath(path: string) {
    forall k :: 0 <= k < |path| ==> Plain(path[k])
  }

  /** A printed path is read back exactly when it holds no quote and no line break. */
  lemma {:induction false} ReadEscapedPath(s: string, i: nat, path: string)
    requires Lies(s, i, EscapePath(path) + "\"")
    ensures PlainPath(path) ==> ReadString(s, i, '"') == Some((path, i + |EscapePath(path)| + 1))
    ensures !PlainPath(path) ==>
              ReadString(s, i, '"').None? || |ReadString(s, i, '"').value.0| < |path|
    decreases |path|
  {
    var text := EscapePath(path) + "\"";
    assert s[i] == text[0];
    if path != "" {
      var c, rest := path[0], path[1..];
      var head := if c == '\\' then "\\\\" else [c];
      assert path == [c] + rest;
      assert text == head + (EscapePath(rest) + "\"");
      LiesSplit(s, i, head, EscapePath(rest) + "\"");
      ReadEscapedPath(s, i + |head|, rest);
      assert head[0] == s[i];
      if c == '\\' {
        assert head[1] == s[i + 1];
      }
      assert PlainPath(path) <==> Plain(c) && PlainPath(rest);
    }
  }

  // A key is printed as it is, so it must not hold a backslash either.
  predicate PlainKey(key: string) {
    forall k :: 0 <= k < |key| ==> Plain(key[k]) && key[k] != '\\'
  }

  lemma {:induction false} ReadPlainKey(s: string, i: nat, key: string)
    requires PlainKey(key)
    requires Lies(s, i, key + "\"")
    ensures ReadString(s, i, '"') == Some((key, i + |key| + 1))
    decreases |key|
  {
    assert s[i] == (key + "\"")[0];
    if key != "" {
      assert key + "\"" == key[..1] + (key[1..] + "\"");
      LiesSplit(s, i, key[..1], key[1..] + "\"");
      ReadPlainKey(s, i + 1, key[1..]);
      assert key == [key[0]] + key[1..];
    }
  }
}
