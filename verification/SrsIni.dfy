/**
 The SRS configuration: reading an INI file into sections, and writing new values into it line by line.
*/
module SrsIni {
  import opened Options

  // ---------------------------------------------------------------------------------------------
  // Text
  // ---------------------------------------------------------------------------------------------

  // Unicode White_Space, which trimming removes.
  predicate IsSpace(c: char) {
    var n := c as int;
    || 9 <= n <= 13 || n == 0x20 || n == 0x85 || n == 0xA0 || n == 0x1680 || 0x2000 <= n <= 0x200A
    || n == 0x2028 || n == 0x2029 || n == 0x202F || n == 0x205F || n == 0x3000
  }

  function TrimStart(s: string): string {
    if s != "" && IsSpace(s[0]) then TrimStart(s[1..]) else s
  }

  function TrimEnd(s: string): string {
    if s != "" && IsSpace(s[|s| - 1]) then TrimEnd(s[..|s| - 1]) else s
  }

  function Trim(s: string): string {
    TrimEnd(TrimStart(s))
  }

  predicate Trimmed(s: string) {
    s != "" ==> !IsSpace(s[0]) && !IsSpace(s[|s| - 1])
  }

  // The text before and after the first `=`.
  function SplitAtEquals(s: string): Option<(string, string)> {
    if s == "" then None
    else if s[0] == '=' then Some(("", s[1..]))
    else
      var (key, value) :- SplitAtEquals(s[1..]);
      Some(([s[0]] + key, value))
  }

  // The lines of a text: cut at newlines, without the carriage return before one; an empty last piece
  // is no line.
  function Lines(s: string): seq<string> {
    LinesFrom(s, "")
  }

  function LinesFrom(s: string, line: string): seq<string>
    decreases |s|
  {
    if s == "" then (if line == "" then [] else [line])
    else if s[0] == '\n' then [DropReturn(line)] + LinesFrom(s[1..], "")
    else LinesFrom(s[1..], line + [s[0]])
  }

  function DropReturn(line: string): string {
    if line != "" && line[|line| - 1] == '\r' then line[..|line| - 1] else line
  }

  function JoinCrLf(lines: seq<string>): string {
    if lines == [] then ""
    else if |lines| == 1 then lines[0]
    else lines[0] + "\r\n" + JoinCrLf(lines[1..])
  }

  // ---------------------------------------------------------------------------------------------
  // Reading
  // ---------------------------------------------------------------------------------------------

  const GENERAL := "General Settings"

  // What a trimmed line is: nothing to read, a section header, a key with its value, or anything else.
  datatype Kind = Skipped | Header(section: string) | Entry(key: string, value: string) | Unread

  function KindOf(line: string): Kind {
    var trimmed := Trim(line);
    if trimmed == "" || trimmed[0] == ';' || trimmed[0] == '#' then Skipped
    else if IsHeader(trimmed) then Header(Trim(trimmed[1..|trimmed| - 1]))
    else match SplitAtEquals(trimmed)
      case Some((key, value)) => Entry(Trim(key), Trim(value))
      case None => Unread
  }

  // `[` at the start and `]` at the end; a lone bracket is neither both.
  predicate IsHeader(trimmed: string) {
    |trimmed| >= 2 && trimmed[0] == '[' && trimmed[|trimmed| - 1] == ']'
  }

  type Sections = map<string, map<string, string>>

  // The settings by section and key, each value as its trimmed text. What JSON value a text stands for
  // depends on the text alone.
  datatype Reading = Reading(section: string, sections: Sections)

  function Section(sections: Sections, name: string): map<string, string> {
    if name in sections then sections[name] else map[]
  }

  function ReadLine(r: Reading, line: string): Reading {
    match KindOf(line)
    case Header(name) => Reading(name, r.sections[name := Section(r.sections, name)])
    case Entry(key, value) => r.(sections := r.sections[r.section := Section(r.sections, r.section)[key := value]])
    case _ => r
  }

  function ReadLines(r: Reading, lines: seq<string>): Reading
    decreases |lines|
  {
    if lines == [] then r else ReadLines(ReadLine(r, lines[0]), lines[1..])
  }

  const START := Reading(GENERAL, map[])

  function GetSettings(content: string): Sections {
    ReadLines(START, Lines(content)).sections
  }

  // ---------------------------------------------------------------------------------------------
  // Writing
  // ---------------------------------------------------------------------------------------------

  // The new values as texts, by section and key.
  type Updates = map<string, map<string, string>>

  function NewText(updates: Updates, section: string, key: string): Option<string> {
    if section in updates && key in updates[section] then Some(updates[section][key]) else None
  }

  function PostLine(section: string, line: string, updates: Updates): string {
    match KindOf(line)
    case Entry(key, _) =>
      (match NewText(updates, section, key) case Some(text) => key + "=" + text case None => line)
    case _ => line
  }

  function SectionAfter(section: string, line: string): string {
    match KindOf(line)
    case Header(name) => name
    case _ => section
  }

  function PostLines(section: string, lines: seq<string>, updates: Updates): seq<string>
    decreases |lines|
  {
    if lines == [] then []
    else [PostLine(section, lines[0], updates)] + PostLines(SectionAfter(section, lines[0]), lines[1..], updates)
  }

  function PostSettings(content: string, updates: Updates): string {
    JoinCrLf(PostLines(GENERAL, Lines(content), updates))
  }

  // ---------------------------------------------------------------------------------------------
  // The two handlers
  // ---------------------------------------------------------------------------------------------

  lemma ReadLinesStep(r: Reading, lines: seq<string>, i: nat)
    requires i < |lines|
    ensures ReadLines(r, lines[i..]) == ReadLines(ReadLine(r, lines[i]), lines[i + 1..])
  {
    assert lines[i..][1..] == lines[i + 1..];
  }

  /** The reading handler's loop. */
  method ReadSettings(content: string) returns (sections: Sections)
    ensures sections == GetSettings(content)
  {
    hide Lines, Trim, SplitAtEquals, ReadLines;
    sections := map[];
    var currentSection := GENERAL;
    var lines := Lines(content);
    assert lines[0..] == lines;
    for i := 0 to |lines|
      invariant ReadLines(Reading(currentSection, sections), lines[i..]) == ReadLines(START, lines)
    {
      ReadLinesStep(Reading(currentSection, sections), lines, i);
      var line := Trim(lines[i]);
      if line == "" || line[0] == ';' || line[0] == '#' {
        continue;
      }
      if IsHeader(line) {
        currentSection := Trim(line[1..|line| - 1]);
        if currentSection !in sections {
          sections := sections[currentSection := map[]];
        }
        assert sections[currentSection := Section(sections, currentSection)] == sections;
        continue;
      }
      var split := SplitAtEquals(line);
      if split.Some? {
        var key, value := Trim(split.value.0), Trim(split.value.1);
        sections := sections[currentSection := Section(sections, currentSection)[key := value]];
      }
    }
    NothingLeft(Reading(currentSection, sections), lines);
  }

  lemma NothingLeft(r: Reading, lines: seq<string>)
    ensures ReadLines(r, lines[|lines|..]) == r
  {
  }

  lemma PostLinesStep(section: string, lines: seq<string>, updates: Updates, i: nat)
    requires i < |lines|
    ensures PostLines(section, lines[i..], updates) ==
            [PostLine(section, lines[i], updates)] + PostLines(SectionAfter(section, lines[i]), lines[i + 1..], updates)
  {
    assert lines[i..][1..] == lines[i + 1..];
  }

  /** The writing handler's loop. */
  method WriteSettings(content: string, updates: Updates) returns (text: string)
    ensures text == PostSettings(content, updates)
  {
    hide Lines, Trim, SplitAtEquals, PostLines, JoinCrLf;
    var newLines: seq<string> := [];
    var currentSection := GENERAL;
    var lines := Lines(content);
    assert lines[0..] == lines;
    for i := 0 to |lines|
      invariant newLines + PostLines(currentSection, lines[i..], updates) == PostLines(GENERAL, lines, updates)
    {
      PostLinesStep(currentSection, lines, updates, i);
      var line := lines[i];
      var trimmed := Trim(line);
      var newLine := line;
      ghost var section := currentSection;
      if IsHeader(trimmed) {
        currentSection := Trim(trimmed[1..|trimmed| - 1]);
      } else if trimmed == "" || trimmed[0] == ';' || trimmed[0] == '#' {
      } else {
        var split := SplitAtEquals(trimmed);
        if split.Some? {
          var key := Trim(split.value.0);
          if currentSection in updates && key in updates[currentSection] {
            newLine := key + "=" + updates[currentSection][key];
          }
        }
      }
      assert newLine == PostLine(section, line, updates) && currentSection == SectionAfter(section, line);
      newLines := newLines + [newLine];
    }
    NoLinesLeft(currentSection, lines, updates);
    assert newLines + [] == newLines;
    text := JoinCrLf(newLines);
  }

  lemma NoLinesLeft(section: string, lines: seq<string>, updates: Updates)
    ensures PostLines(section, lines[|lines|..], updates) == []
  {
  }

  // ---------------------------------------------------------------------------------------------
  // Trimming
  // ---------------------------------------------------------------------------------------------

  lemma {:induction false} TrimEndFirst(c: char, rest: string)
    ensures TrimEnd([c] + rest) ==
            if TrimEnd(rest) == "" then (if IsSpace(c) then "" else [c]) else [c] + TrimEnd(rest)
    decreases |rest|
  {
    var s := [c] + rest;
    if rest == "" {
      assert s == [c] && s[..0] == "";
    } else if IsSpace(rest[|rest| - 1]) {
      assert s[..|s| - 1] == [c] + rest[..|rest| - 1];
      TrimEndFirst(c, rest[..|rest| - 1]);
    } else {
      assert s[|s| - 1] == rest[|rest| - 1];
    }
  }

  lemma {:induction false} TrimEndAfter(before: string, c: char, text: string)
    requires !IsSpace(c)
    ensures TrimEnd(before + [c] + text) == before + [c] + TrimEnd(text)
    decreases |text|
  {
    var s := before + [c] + text;
    if text == "" {
      assert s == before + [c];
    } else if IsSpace(text[|text| - 1]) {
      assert s[..|s| - 1] == before + [c] + text[..|text| - 1];
      TrimEndAfter(before, c, text[..|text| - 1]);
    }
  }

  lemma {:induction false} TrimCommutes(s: string)
    ensures TrimStart(TrimEnd(s)) == Trim(s)
  {
    if s != "" {
      assert s == [s[0]] + s[1..];
      TrimEndFirst(s[0], s[1..]);
      if IsSpace(s[0]) {
        TrimCommutes(s[1..]);
        if TrimEnd(s[1..]) != "" {
          assert ([s[0]] + TrimEnd(s[1..]))[1..] == TrimEnd(s[1..]);
        }
      }
    }
  }

  lemma {:induction false} TrimEndTwice(s: string)
    ensures TrimEnd(TrimEnd(s)) == TrimEnd(s)
    ensures TrimEnd(s) != "" ==> !IsSpace(TrimEnd(s)[|TrimEnd(s)| - 1])
    decreases |s|
  {
    if s != "" && IsSpace(s[|s| - 1]) {
      TrimEndTwice(s[..|s| - 1]);
    }
  }

  lemma TrimOfTrimEnd(s: string)
    ensures Trim(TrimEnd(s)) == Trim(s)
  {
    TrimEndTwice(s);
    TrimCommutes(TrimEnd(s));
    TrimCommutes(s);
  }

  lemma {:induction false} TrimStartStart(s: string)
    ensures TrimStart(s) != "" ==> !IsSpace(TrimStart(s)[0])
  {
    if s != "" && IsSpace(s[0]) {
      TrimStartStart(s[1..]);
    }
  }

  lemma TrimIsTrimmed(s: string)
    ensures Trimmed(Trim(s)) && Trim(Trim(s)) == Trim(s)
  {
    TrimEndTwice(TrimStart(s));
    TrimStartStart(s);
    TrimEndPrefix(TrimStart(s));
  }

  lemma {:induction false} TrimEndPrefix(s: string)
    ensures TrimEnd(s) <= s
    decreases |s|
  {
    if s != "" && IsSpace(s[|s| - 1]) {
      TrimEndPrefix(s[..|s| - 1]);
    }
  }

  // ---------------------------------------------------------------------------------------------
  // A rewritten line
  // ---------------------------------------------------------------------------------------------

  // What the text before an equals sign can be.
  predicate IsKey(key: string) {
    Trimmed(key) && '=' !in key && (key != "" ==> key[0] != ';' && key[0] != '#')
  }

  lemma {:induction false} SplitParts(s: string)
    ensures match SplitAtEquals(s)
            case Some((key, value)) => '=' !in key && s == key + "=" + value
            case None => '=' !in s
  {
    if s != "" && s[0] != '=' {
      SplitParts(s[1..]);
      assert s == [s[0]] + s[1..];
    }
  }

  lemma {:induction false} SplitOf(key: string, value: string)
    requires '=' !in key
    ensures SplitAtEquals(key + "=" + value) == Some((key, value))
  {
    var s := key + "=" + value;
    if key == "" {
      assert s[1..] == value;
    } else {
      assert s[1..] == key[1..] + "=" + value;
      SplitOf(key[1..], value);
      assert key == [key[0]] + key[1..];
    }
  }

  lemma {:induction false} TrimKeepsOut(c: char, s: string)
    requires c !in s
    ensures c !in Trim(s)
  {
    TrimStartSuffix(s);
    TrimEndPrefix(TrimStart(s));
    assert Trim(s) == TrimStart(s)[..|Trim(s)|];
  }

  lemma {:induction false} TrimStartSuffix(s: string)
    ensures |TrimStart(s)| <= |s| && TrimStart(s) == s[|s| - |TrimStart(s)|..]
  {
    if s != "" && IsSpace(s[0]) {
      TrimStartSuffix(s[1..]);
    }
  }

  lemma EntryKeyIsKey(line: string)
    requires KindOf(line).Entry?
    ensures IsKey(KindOf(line).key)
  {
    hide TrimStart, TrimEnd;
    var trimmed := Trim(line);
    SplitParts(trimmed);
    var key := SplitAtEquals(trimmed).value.0;
    TrimIsTrimmed(line);
    TrimIsTrimmed(key);
    TrimKeepsOut('=', key);
    TrimFirst(key);
    if key != "" {
      assert key[0] == trimmed[0];
    }
  }

  lemma TrimFirst(s: string)
    requires s != "" ==> !IsSpace(s[0])
    ensures Trim(s) != "" ==> s != "" && Trim(s)[0] == s[0]
  {
    TrimEndPrefix(s);
  }

  // The new line would be taken for a section header.
  predicate LooksLikeHeader(key: string, text: string) {
    var end := TrimEnd(text);
    key != "" && key[0] == '[' && end != "" && end[|end| - 1] == ']'
  }

  /** A rewritten line reads as its key with the trimmed new text, exactly when it is not mistaken for a
      section header. */
  lemma RewrittenLine(key: string, text: string)
    requires IsKey(key)
    ensures KindOf(key + "=" + text) == Entry(key, Trim(text)) <==> !LooksLikeHeader(key, text)
  {
    hide SplitAtEquals, TrimEnd;
    var line := key + "=" + text;
    assert line == key + ['='] + text;
    TrimEndAfter(key, '=', text);
    var trimmed := key + "=" + TrimEnd(text);
    assert TrimStart(line) == line by {
      assert line[0] == if key == "" then '=' else key[0];
    }
    assert Trim(line) == trimmed;
    assert trimmed[0] == if key == "" then '=' else key[0];
    assert IsHeader(trimmed) <==> LooksLikeHeader(key, text) by {
      if TrimEnd(text) == "" {
        assert trimmed[|trimmed| - 1] == '=';
      } else {
        assert trimmed[|trimmed| - 1] == TrimEnd(text)[|TrimEnd(text)| - 1];
      }
    }
    SplitOf(key, TrimEnd(text));
    TrimOfTrimEnd(text);
    TrimOfKey(key);
  }

  lemma TrimOfKey(key: string)
    requires Trimmed(key)
    ensures Trim(key) == key
  {
  }

  // ---------------------------------------------------------------------------------------------
  // Lines and their joined text
  // ---------------------------------------------------------------------------------------------

  lemma {:induction false} LinesHoldNoNewline(s: string, line: string)
    requires '\n' !in line
    ensures forall l <- LinesFrom(s, line) :: '\n' !in l
    decreases |s|
  {
    if s == "" {
    } else if s[0] == '\n' {
      LinesHoldNoNewline(s[1..], "");
    } else {
      LinesHoldNoNewline(s[1..], line + [s[0]]);
    }
  }

  // A final empty line is not seen when the text is read again.
  function DropLastEmpty(lines: seq<string>): seq<string> {
    if lines != [] && lines[|lines| - 1] == "" then lines[..|lines| - 1] else lines
  }

  lemma {:induction false} LinesFromPiece(piece: string, rest: string, line: string)
    requires '\n' !in piece
    ensures LinesFrom(piece + rest, line) == LinesFrom(rest, line + piece)
    decreases |piece|
  {
    if piece == "" {
      assert piece + rest == rest && line + piece == line;
    } else {
      assert (piece + rest)[1..] == piece[1..] + rest;
      LinesFromPiece(piece[1..], rest, line + [piece[0]]);
      assert line + [piece[0]] + piece[1..] == line + piece;
    }
  }

  lemma {:induction false} LinesOfJoined(lines: seq<string>)
    requires forall l <- lines :: '\n' !in l
    ensures Lines(JoinCrLf(lines)) == DropLastEmpty(lines)
    decreases |lines|
  {
    if lines == [] {
    } else if |lines| == 1 {
      assert lines[0] in lines;
      assert lines[0] + "" == lines[0] && "" + lines[0] == lines[0];
      LinesFromPiece(lines[0], "", "");
      assert lines == [lines[0]];
    } else {
      var rest := lines[1..];
      assert lines[0] in lines;
      var piece := lines[0] + "\r";
      assert JoinCrLf(lines) == piece + ("\n" + JoinCrLf(rest));
      LinesFromPiece(piece, "\n" + JoinCrLf(rest), "");
      assert "" + piece == piece;
      assert ("\n" + JoinCrLf(rest))[1..] == JoinCrLf(rest);
      assert piece[..|piece| - 1] == lines[0];
      LinesOfJoined(rest);
      assert lines == [lines[0]] + rest;
      assert DropLastEmpty(lines) == [lines[0]] + DropLastEmpty(rest);
    }
  }

  // ---------------------------------------------------------------------------------------------
  // The put/get law
  // ---------------------------------------------------------------------------------------------

  predicate SingleLine(updates: Updates) {
    forall s, k :: s in updates && k in updates[s] ==> '\n' !in updates[s][k]
  }

  // No line that gets a new value would then be taken for a section header.
  predicate Harmless(section: string, lines: seq<string>, updates: Updates)
    decreases |lines|
  {
    lines != [] ==>
      && (match KindOf(lines[0])
          case Entry(key, _) =>
            (match NewText(updates, section, key) case Some(text) => !LooksLikeHeader(key, text) case None => true)
          case _ => true)
      && Harmless(SectionAfter(section, lines[0]), lines[1..], updates)
  }

  // The new text of a key, or else its old value.
  function NewValue(updates: Updates, s: string, k: string, value: string): string {
    match NewText(updates, s, k) case Some(text) => Trim(text) case None => value
  }

  function OverriddenKeys(section: map<string, string>, updates: Updates, s: string): map<string, string> {
    map k | k in section :: NewValue(updates, s, k, section[k])
  }

  // The old settings with the new text for every key that is both in the file and in the updates.
  function Overridden(sections: Sections, updates: Updates): Sections {
    map s | s in sections :: OverriddenKeys(sections[s], updates, s)
  }

  lemma OverriddenEntry(sections: Sections, updates: Updates, s: string, k: string, value: string)
    ensures Overridden(sections[s := Section(sections, s)[k := value]], updates) ==
            var before := Overridden(sections, updates);
            before[s := Section(before, s)[k := NewValue(updates, s, k, value)]]
  {
    hide NewValue;
    OverriddenKey(Section(sections, s), updates, s, k, value);
    OverriddenNone(updates, s);
    hide OverriddenKeys;
  }

  lemma OverriddenNone(updates: Updates, s: string)
    ensures OverriddenKeys(map[], updates, s) == map[]
  {
  }

  lemma OverriddenKey(section: map<string, string>, updates: Updates, s: string, k: string, value: string)
    ensures OverriddenKeys(section[k := value], updates, s) ==
            OverriddenKeys(section, updates, s)[k := NewValue(updates, s, k, value)]
  {
    hide NewValue;
  }

  lemma OverriddenSection(sections: Sections, updates: Updates, s: string)
    ensures Overridden(sections[s := Section(sections, s)], updates) ==
            var before := Overridden(sections, updates); before[s := Section(before, s)]
  {
    OverriddenNone(updates, s);
    hide OverriddenKeys;
  }

  lemma PostedLine(r: Reading, line: string, updates: Updates)
    requires Harmless(r.section, [line], updates)
    ensures SectionAfter(r.section, PostLine(r.section, line, updates)) == SectionAfter(r.section, line)
    ensures ReadLine(Reading(r.section, Overridden(r.sections, updates)), PostLine(r.section, line, updates)) ==
            Reading(ReadLine(r, line).section, Overridden(ReadLine(r, line).sections, updates))
    ensures PostLine(r.section, PostLine(r.section, line, updates), updates) == PostLine(r.section, line, updates)
  {
    hide KindOf, Overridden, LooksLikeHeader, Trim, IsKey, Section;
    match KindOf(line)
    case Header(name) =>
      OverriddenSection(r.sections, updates, name);
    case Entry(key, value) =>
      EntryKeyIsKey(line);
      OverriddenEntry(r.sections, updates, r.section, key, value);
      match NewText(updates, r.section, key) {
        case Some(text) =>
          RewrittenLine(key, text);
        case None =>
      }
    case _ =>
  }

  lemma {:induction false} PostedLines(r: Reading, lines: seq<string>, updates: Updates)
    requires Harmless(r.section, lines, updates)
    ensures var posted := PostLines(r.section, lines, updates);
            && ReadLines(Reading(r.section, Overridden(r.sections, updates)), posted).sections ==
               Overridden(ReadLines(r, lines).sections, updates)
            && PostLines(r.section, posted, updates) == posted
    decreases |lines|
  {
    hide PostLine, ReadLine, Overridden, SectionAfter;
    if lines != [] {
      var line, rest := lines[0], lines[1..];
      PostedLine(r, line, updates);
      SectionsAgree(r, line);
      PostedLines(ReadLine(r, line), rest, updates);
      assert PostLines(r.section, lines, updates)[1..] == PostLines(SectionAfter(r.section, line), rest, updates);
    }
  }

  lemma SectionsAgree(r: Reading, line: string)
    ensures ReadLine(r, line).section == SectionAfter(r.section, line)
  {
    hide KindOf;
  }

  lemma {:induction false} PostedSingleLines(section: string, lines: seq<string>, updates: Updates)
    requires SingleLine(updates) && forall l <- lines :: '\n' !in l
    ensures forall l <- PostLines(section, lines, updates) :: '\n' !in l
    ensures |PostLines(section, lines, updates)| == |lines|
    ensures lines != [] ==>
              (PostLines(section, lines, updates)[|lines| - 1] == "" <==> lines[|lines| - 1] == "")
    decreases |lines|
  {
    if lines != [] {
      var line := lines[0];
      assert line in lines;
      PostedSingle(section, line, updates);
      PostedSingleLines(SectionAfter(section, line), lines[1..], updates);
    }
  }

  lemma PostedSingle(section: string, line: string, updates: Updates)
    requires SingleLine(updates) && '\n' !in line
    ensures '\n' !in PostLine(section, line, updates)
    ensures PostLine(section, line, updates) == "" <==> line == ""
  {
    hide TrimStart, TrimEnd;
    var trimmed := Trim(line);
    TrimKeepsOut('\n', line);
    SplitParts(trimmed);
    match SplitAtEquals(trimmed)
    case Some((key, _)) =>
      TrimKeepsOut('\n', key);
      EmptyTrims();
    case None =>
  }

  lemma EmptyTrims()
    ensures Trim("") == ""
  {
  }

  lemma {:induction false} ReadLinesAppend(r: Reading, a: seq<string>, b: seq<string>)
    ensures ReadLines(r, a + b) == ReadLines(ReadLines(r, a), b)
    decreases |a|
  {
    hide ReadLine;
    if a == [] {
      assert a + b == b;
    } else {
      assert (a + b)[1..] == a[1..] + b;
      ReadLinesAppend(ReadLine(r, a[0]), a[1..], b);
    }
  }

  lemma DroppedLineIsNotRead(r: Reading, lines: seq<string>)
    ensures ReadLines(r, DropLastEmpty(lines)) == ReadLines(r, lines)
  {
    if lines != [] && lines[|lines| - 1] == "" {
      assert lines == DropLastEmpty(lines) + [""];
      ReadLinesAppend(r, DropLastEmpty(lines), [""]);
      assert [""][1..] == [];
    }
  }

  // ---------------------------------------------------------------------------------------------
  // Settings that no file holds
  // ---------------------------------------------------------------------------------------------

  // A line that sets such a key to such a value would be a section header.
  predicate Bracketed(key: string, value: string) {
    key != "" && key[0] == '[' && value != "" && value[|value| - 1] == ']'
  }

  predicate NoneBracketed(sections: Sections) {
    forall s, k :: s in sections && k in sections[s] ==> !Bracketed(k, sections[s][k])
  }

  lemma EntryNotBracketed(line: string)
    requires KindOf(line).Entry?
    ensures !Bracketed(KindOf(line).key, KindOf(line).value)
  {
    hide TrimStart, TrimEnd;
    var trimmed := Trim(line);
    TrimIsTrimmed(line);
    SplitParts(trimmed);
    var (key, value) := SplitAtEquals(trimmed).value;
    TrimFirst(key);
    TrimLast(value);
    EndsOfEntry(key, value);
  }

  lemma EndsOfEntry(key: string, value: string)
    ensures var t := key + "=" + value;
            (key != "" ==> t[0] == key[0]) && (value != "" ==> t[|t| - 1] == value[|value| - 1])
  {
  }

  lemma TrimLast(s: string)
    requires s != "" ==> !IsSpace(s[|s| - 1])
    ensures Trim(s) != "" ==> s != "" && Trim(s)[|Trim(s)| - 1] == s[|s| - 1]
  {
    TrimStartSuffix(s);
    TrimEndFixed(TrimStart(s));
  }

  lemma TrimEndFixed(s: string)
    requires s != "" ==> !IsSpace(s[|s| - 1])
    ensures TrimEnd(s) == s
  {
  }

  lemma {:induction false} ReadNotBracketed(r: Reading, lines: seq<string>)
    requires NoneBracketed(r.sections)
    ensures NoneBracketed(ReadLines(r, lines).sections)
    decreases |lines|
  {
    if lines != [] {
      hide KindOf, NoneBracketed, Bracketed;
      LineNotBracketed(r, lines[0]);
      ReadNotBracketed(ReadLine(r, lines[0]), lines[1..]);
    }
  }

  lemma LineNotBracketed(r: Reading, line: string)
    requires NoneBracketed(r.sections)
    ensures NoneBracketed(ReadLine(r, line).sections)
  {
    hide KindOf, Bracketed;
    if KindOf(line).Entry? {
      EntryNotBracketed(line);
    }
  }

  predicate Holds(sections: Sections, s: string, k: string) {
    s in sections && k in sections[s]
  }

  lemma {:induction false} KeysStay(r: Reading, lines: seq<string>, s: string, k: string)
    requires Holds(r.sections, s, k)
    ensures Holds(ReadLines(r, lines).sections, s, k)
    decreases |lines|
  {
    if lines != [] {
      hide KindOf;
      KeysStay(ReadLine(r, lines[0]), lines[1..], s, k);
    }
  }

  // A harmful update asks for a setting of that kind.
  lemma {:induction false} HarmIsAsked(r: Reading, lines: seq<string>, updates: Updates) returns (s: string, k: string)
    requires !Harmless(r.section, lines, updates)
    ensures Holds(ReadLines(r, lines).sections, s, k)
    ensures NewText(updates, s, k).Some? && LooksLikeHeader(k, NewText(updates, s, k).value)
    decreases |lines|
  {
    hide KindOf, LooksLikeHeader, NewText;
    var line := lines[0];
    SectionsAgree(r, line);
    if !Harmless(SectionAfter(r.section, line), lines[1..], updates) {
      s, k := HarmIsAsked(ReadLine(r, line), lines[1..], updates);
    } else {
      s, k := r.section, KindOf(line).key;
      KeysStay(ReadLine(r, line), lines[1..], s, k);
    }
  }

  lemma HeaderIsBracketed(key: string, text: string)
    requires LooksLikeHeader(key, text)
    ensures Bracketed(key, Trim(text))
  {
    hide TrimStart, TrimEnd;
    var end := TrimEnd(text);
    TrimOfTrimEnd(text);
    TrimEndTwice(text);
    TrimStartSuffix(end);
    KeepsBracket(end);
    TrimLast(end);
  }

  lemma {:induction false} KeepsBracket(s: string)
    requires s != "" && !IsSpace(s[|s| - 1])
    ensures TrimStart(s) != "" && Trim(s) != ""
  {
    if IsSpace(s[0]) {
      KeepsBracket(s[1..]);
    } else {
      TrimEndFixed(s);
    }
  }

  lemma OverriddenHolds(sections: Sections, updates: Updates, s: string, k: string)
    requires Holds(sections, s, k) && NewText(updates, s, k).Some?
    ensures Holds(Overridden(sections, updates), s, k)
    ensures Overridden(sections, updates)[s][k] == Trim(NewText(updates, s, k).value)
  {
    hide Trim, NewText;
  }

  /** Reading after posting gives the old settings overridden on the keys that are both in the file and in
      the update, with duplicate sections and keys too, if and only if no line that gets a new text is then taken
      for a section header. */
  lemma PutGet(content: string, updates: Updates)
    requires SingleLine(updates)
    ensures GetSettings(PostSettings(content, updates)) == Overridden(GetSettings(content), updates) <==>
            Harmless(GENERAL, Lines(content), updates)
  {
    hide JoinCrLf, LinesFrom, Harmless, PostLines, ReadLines, Overridden, SingleLine, DropLastEmpty, NoneBracketed,
         LooksLikeHeader, NewText, Trim;
    var lines := Lines(content);
    var posted := PostLines(GENERAL, lines, updates);
    LinesHoldNoNewline(content, "");
    PostedSingleLines(GENERAL, lines, updates);
    LinesOfJoined(posted);
    DroppedLineIsNotRead(START, posted);
    OverriddenNothing(updates);
    if Harmless(GENERAL, lines, updates) {
      PostedLines(START, lines, updates);
    } else {
      var s, k := HarmIsAsked(START, lines, updates);
      OverriddenHolds(GetSettings(content), updates, s, k);
      HeaderIsBracketed(k, NewText(updates, s, k).value);
      NothingBracketed();
      ReadNotBracketed(START, posted);
      BracketedIsOut(ReadLines(START, posted).sections, s, k);
    }
  }

  lemma NothingBracketed()
    ensures NoneBracketed(map[])
  {
  }

  lemma BracketedIsOut(sections: Sections, s: string, k: string)
    requires NoneBracketed(sections)
    ensures Holds(sections, s, k) ==> !Bracketed(k, sections[s][k])
  {
  }

  lemma OverriddenNothing(updates: Updates)
    ensures Overridden(map[], updates) == map[]
  {
  }

  // Under the headers of the posted text, which are read from section `after` on, no line has another new text
  // than the one that was posted.
  predicate Settled(section: string, after: string, lines: seq<string>, updates: Updates)
    decreases |lines|
  {
    lines != [] ==>
      var posted := PostLine(section, lines[0], updates);
      && (match KindOf(posted)
          case Entry(key, _) =>
            (match NewText(updates, after, key) case Some(text) => posted == key + "=" + text case None => true)
          case _ => true)
      && Settled(SectionAfter(section, lines[0]), SectionAfter(after, posted), lines[1..], updates)
  }

  lemma {:induction false} SettledIs(section: string, after: string, lines: seq<string>, updates: Updates)
    ensures var posted := PostLines(section, lines, updates);
            PostLines(after, posted, updates) == posted <==> Settled(section, after, lines, updates)
    decreases |lines|
  {
    hide KindOf, NewText;
    if lines != [] {
      var line, rest := lines[0], lines[1..];
      var posted := PostLine(section, line, updates);
      var next, nextAfter := SectionAfter(section, line), SectionAfter(after, posted);
      SettledIs(next, nextAfter, rest, updates);
      PostFirst(section, line, rest, updates);
      PostFirst(after, posted, PostLines(next, rest, updates), updates);
      assert lines == [line] + rest;
    }
  }

  lemma PostFirst(section: string, line: string, rest: seq<string>, updates: Updates)
    ensures PostLines(section, [line] + rest, updates) ==
            [PostLine(section, line, updates)] + PostLines(SectionAfter(section, line), rest, updates)
  {
    assert ([line] + rest)[1..] == rest;
  }

  function Newlines(s: string): nat {
    if s == "" then 0 else (if s[0] == '\n' then 1 else 0) + Newlines(s[1..])
  }

  lemma {:induction false} NewlinesAppend(a: string, b: string)
    ensures Newlines(a + b) == Newlines(a) + Newlines(b)
  {
    if a == "" {
      assert a + b == b;
    } else {
      assert (a + b)[1..] == a[1..] + b;
      NewlinesAppend(a[1..], b);
    }
  }

  lemma {:induction false} NoNewlines(s: string)
    requires '\n' !in s
    ensures Newlines(s) == 0
  {
    if s != "" {
      NoNewlines(s[1..]);
    }
  }

  lemma {:induction false} NewlinesOfJoined(lines: seq<string>)
    requires lines != [] && forall l <- lines :: '\n' !in l
    ensures Newlines(JoinCrLf(lines)) == |lines| - 1
  {
    assert lines[0] in lines;
    NoNewlines(lines[0]);
    if |lines| > 1 {
      NewlinesOfJoined(lines[1..]);
      assert "\r\n"[1..] == "\n" && "\n"[1..] == "";
      NewlinesAppend(lines[0] + "\r\n", JoinCrLf(lines[1..]));
      NewlinesAppend(lines[0], "\r\n");
    }
  }

  /** Posting twice leaves the text that posting once leaves, exactly when the file does not end in an
      empty line after another line, which the second posting loses, and no line of the posted text has yet another
      new text, under a header that the first posting made; without such a header none has. */
  lemma PostTwice(content: string, updates: Updates)
    requires SingleLine(updates)
    ensures PostSettings(PostSettings(content, updates), updates) == PostSettings(content, updates) <==>
            var lines := Lines(content);
            !(|lines| >= 2 && lines[|lines| - 1] == "") && Settled(GENERAL, GENERAL, lines, updates)
    ensures Harmless(GENERAL, Lines(content), updates) ==> Settled(GENERAL, GENERAL, Lines(content), updates)
  {
    hide LinesFrom, Harmless, PostLines, ReadLines, Overridden, SingleLine, Settled, JoinCrLf, DropLastEmpty;
    var lines := Lines(content);
    var posted := PostLines(GENERAL, lines, updates);
    LinesHoldNoNewline(content, "");
    PostedSingleLines(GENERAL, lines, updates);
    LinesOfJoined(posted);
    SettledIs(GENERAL, GENERAL, lines, updates);
    if Harmless(GENERAL, lines, updates) {
      PostedLines(START, lines, updates);
    }
    SecondPosting(posted, updates);
  }

  predicate OneLiners(lines: seq<string>) {
    forall l <- lines :: '\n' !in l
  }

  lemma SecondPosting(posted: seq<string>, updates: Updates)
    requires SingleLine(updates) && OneLiners(posted)
    ensures var again := JoinCrLf(PostLines(GENERAL, DropLastEmpty(posted), updates));
            again == JoinCrLf(posted) <==>
            !(|posted| >= 2 && posted[|posted| - 1] == "") && PostLines(GENERAL, posted, updates) == posted
  {
    hide PostLines, SingleLine, JoinCrLf, OneLiners, DropLastEmpty;
    LastEmptyDropped(posted);
    if posted == [] || posted[|posted| - 1] != "" {
      KeptPosting(posted, updates);
    } else if |posted| == 1 {
      OneEmptyLine(updates);
    } else {
      LostLine(posted[..|posted| - 1], updates);
    }
  }

  lemma LastEmptyDropped(lines: seq<string>)
    ensures lines == [] || lines[|lines| - 1] != "" ==> DropLastEmpty(lines) == lines
    ensures lines != [] && lines[|lines| - 1] == "" ==>
              DropLastEmpty(lines) == lines[..|lines| - 1] && lines == lines[..|lines| - 1] + [""]
    ensures |lines| == 1 && lines[0] == "" ==> lines == [""] && DropLastEmpty(lines) == []
  {
  }

  lemma KeptPosting(posted: seq<string>, updates: Updates)
    requires SingleLine(updates) && OneLiners(posted) && (posted != [] ==> posted[|posted| - 1] != "")
    ensures var again := PostLines(GENERAL, posted, updates);
            JoinCrLf(again) == JoinCrLf(posted) <==> again == posted
  {
    hide PostLines, SingleLine, JoinCrLf, OneLiners;
    var again := PostLines(GENERAL, posted, updates);
    PostedOneLiners(posted, updates);
    if JoinCrLf(again) == JoinCrLf(posted) {
      SameLines(again, posted);
    }
  }

  lemma PostedOneLiners(lines: seq<string>, updates: Updates)
    requires SingleLine(updates) && OneLiners(lines)
    ensures var posted := PostLines(GENERAL, lines, updates);
            && OneLiners(posted) && |posted| == |lines|
            && (lines != [] ==> (posted[|lines| - 1] == "" <==> lines[|lines| - 1] == ""))
  {
    hide PostLines, SingleLine;
    PostedSingleLines(GENERAL, lines, updates);
  }

  lemma LostLine(kept: seq<string>, updates: Updates)
    requires kept != [] && SingleLine(updates) && OneLiners(kept + [""])
    ensures JoinCrLf(PostLines(GENERAL, kept, updates)) != JoinCrLf(kept + [""])
  {
    hide PostLines, SingleLine, JoinCrLf;
    assert OneLiners(kept) by {
      forall l | l in kept
        ensures '\n' !in l
      {
        assert l in kept + [""];
      }
    }
    PostedOneLiners(kept, updates);
    NewlinesOfJoined(PostLines(GENERAL, kept, updates));
    NewlinesOfJoined(kept + [""]);
  }

  lemma SameLines(a: seq<string>, b: seq<string>)
    requires OneLiners(a) && OneLiners(b) && |a| == |b| && JoinCrLf(a) == JoinCrLf(b)
    requires a != [] ==> a[|a| - 1] != "" && b[|b| - 1] != ""
    ensures a == b
  {
    hide JoinCrLf, LinesFrom;
    LinesOfJoined(a);
    LinesOfJoined(b);
  }

  lemma OneEmptyLine(updates: Updates)
    ensures PostLines(GENERAL, [""], updates) == [""] && PostLines(GENERAL, [], updates) == []
    ensures JoinCrLf([""]) == JoinCrLf([]) == ""
  {
    EmptyTrims();
    assert [""][1..] == [];
  }

  lemma {:induction false} HarmlessWithout(section: string, lines: seq<string>)
    ensures Harmless(section, lines, map[])
    decreases |lines|
  {
    hide KindOf;
    if lines != [] {
      HarmlessWithout(SectionAfter(section, lines[0]), lines[1..]);
    }
  }

  /** A file whose last line is empty: the second of two postings, with nothing to change, is not the first. */
  lemma SecondPostingDiffers()
    ensures var content, none: Updates := "a\r\n\r\n", map[];
            PostSettings(PostSettings(content, none), none) != PostSettings(content, none)
  {
    hide LinesFrom, Harmless, PostLines, SingleLine;
    var lines := ["a", "", ""];
    assert lines[1..] == ["", ""] && lines[1..][1..] == [""];
    assert JoinCrLf(lines) == "a" + "\r\n" + ("" + "\r\n" + "") == "a\r\n\r\n";
    LinesOfJoined(lines);
    HarmlessWithout(GENERAL, Lines("a\r\n\r\n"));
    assert SingleLine(map[]) by {
      NoUpdates();
    }
    PostTwice("a\r\n\r\n", map[]);
  }

  lemma NoUpdates()
    ensures SingleLine(map[])
  {
  }

  lemma {:induction false} PostedLength(section: string, lines: seq<string>, updates: Updates)
    ensures |PostLines(section, lines, updates)| == |lines|
    decreases |lines|
  {
    if lines != [] {
      PostedLength(SectionAfter(section, lines[0]), lines[1..], updates);
    }
  }

  // ---------------------------------------------------------------------------------------------
  // When a new text is mistaken for a header
  // ---------------------------------------------------------------------------------------------

  type Setting = (string, string, string)

  // Every key in the order of the file, with its section and value, overwritten ones included.
  function Trace(section: string, lines: seq<string>): seq<Setting>
    decreases |lines|
  {
    if lines == [] then []
    else
      Settings(section, lines[0]) + Trace(SectionAfter(section, lines[0]), lines[1..])
  }

  function NewTrace(trace: seq<Setting>, updates: Updates): seq<Setting> {
    if trace == [] then []
    else
      var (section, key, value) := trace[0];
      [(section, key, NewValue(updates, section, key, value))] + NewTrace(trace[1..], updates)
  }

  lemma {:induction false} HarmlessTrace(section: string, lines: seq<string>, updates: Updates)
    requires Harmless(section, lines, updates)
    ensures Trace(section, PostLines(section, lines, updates)) == NewTrace(Trace(section, lines), updates)
    decreases |lines|
  {
    hide KindOf, LooksLikeHeader, NewText, NewValue, PostLine;
    if lines != [] {
      var line, rest := lines[0], lines[1..];
      var next := SectionAfter(section, line);
      var posted := PostLine(section, line, updates);
      HarmlessTrace(next, rest, updates);
      PostedKind(section, line, updates);
      assert SectionAfter(section, posted) == next;
      assert lines == [line] + rest;
      if KindOf(line).Entry? {
      } else {
        assert [] + Trace(next, rest) == Trace(next, rest);
        assert [] + Trace(next, PostLines(next, rest, updates)) == Trace(next, PostLines(next, rest, updates));
      }
    }
  }

  function Settings(section: string, line: string): seq<Setting> {
    match KindOf(line)
    case Entry(key, value) => [(section, key, value)]
    case _ => []
  }

  lemma {:induction false} NewTraceLength(trace: seq<Setting>, updates: Updates)
    ensures |NewTrace(trace, updates)| == |trace|
  {
    if trace != [] {
      NewTraceLength(trace[1..], updates);
    }
  }

  // The kind of a posted line.
  lemma PostedKind(section: string, line: string, updates: Updates)
    ensures match KindOf(line)
            case Entry(key, value) =>
              var kind := KindOf(PostLine(section, line, updates));
              if NewText(updates, section, key).Some? && LooksLikeHeader(key, NewText(updates, section, key).value)
              then kind.Header?
              else kind == Entry(key, NewValue(updates, section, key, value))
            case _ => PostLine(section, line, updates) == line
  {
    hide KindOf, LooksLikeHeader, Trim, IsKey;
    match KindOf(line)
    case Entry(key, value) =>
      EntryKeyIsKey(line);
      match NewText(updates, section, key) {
        case Some(text) =>
          RewrittenLine(key, text);
          if LooksLikeHeader(key, text) {
            RewrittenHeader(key, text);
          }
        case None =>
      }
    case _ =>
  }

  lemma RewrittenHeader(key: string, text: string)
    requires IsKey(key) && LooksLikeHeader(key, text)
    ensures KindOf(key + "=" + text).Header?
  {
    hide SplitAtEquals, TrimEnd;
    var line := key + "=" + text;
    assert line == key + ['='] + text;
    TrimEndAfter(key, '=', text);
    assert line[0] == key[0];
    assert TrimStart(line) == line;
    var trimmed := key + "=" + TrimEnd(text);
    assert trimmed[|trimmed| - 1] == TrimEnd(text)[|TrimEnd(text)| - 1];
  }

  // A line that turns into a header loses its key, whatever section the rest is then read in.
  lemma {:induction false} TraceLength(section: string, lines: seq<string>, updates: Updates, reading: string)
    ensures |Trace(reading, PostLines(section, lines, updates))| <= |Trace(section, lines)|
    ensures |Trace(reading, PostLines(section, lines, updates))| == |Trace(section, lines)| <==>
            Harmless(section, lines, updates)
    decreases |lines|
  {
    hide KindOf, LooksLikeHeader, NewText, Trim;
    if lines != [] {
      var line, rest := lines[0], lines[1..];
      var posted := PostLine(section, line, updates);
      PostedKind(section, line, updates);
      assert PostLines(section, lines, updates) == [posted] + PostLines(SectionAfter(section, line), rest, updates);
      TraceLength(SectionAfter(section, line), rest, updates, SectionAfter(reading, posted));
    }
  }

  lemma {:induction false} TraceAppend(section: string, lines: seq<string>, last: string)
    requires !KindOf(last).Entry? && !KindOf(last).Header?
    ensures Trace(section, lines + [last]) == Trace(section, lines)
    ensures Headers(lines + [last]) == Headers(lines)
    decreases |lines|
  {
    hide KindOf;
    if lines == [] {
      assert [last][1..] == [] && lines + [last] == [last];
    } else {
      assert (lines + [last])[1..] == lines[1..] + [last];
      TraceAppend(SectionAfter(section, lines[0]), lines[1..], last);
    }
  }

  // The section headers of the file, empty sections included.
  function Headers(lines: seq<string>): seq<string>
    decreases |lines|
  {
    if lines == [] then []
    else
      (match KindOf(lines[0]) case Header(name) => [name] case _ => []) + Headers(lines[1..])
  }

  // The lines of the posted text are the posted lines, but for a last empty one.
  lemma PostedText(content: string, updates: Updates)
    requires SingleLine(updates)
    ensures var posted := PostLines(GENERAL, Lines(content), updates);
            && Lines(PostSettings(content, updates)) == DropLastEmpty(posted)
            && Trace(GENERAL, DropLastEmpty(posted)) == Trace(GENERAL, posted)
            && Headers(DropLastEmpty(posted)) == Headers(posted)
  {
    hide KindOf, LinesFrom, PostLines, Trace, Headers, SingleLine, JoinCrLf;
    var posted := PostLines(GENERAL, Lines(content), updates);
    LinesHoldNoNewline(content, "");
    PostedSingleLines(GENERAL, Lines(content), updates);
    LinesOfJoined(posted);
    if posted != [] && posted[|posted| - 1] == "" {
      EmptyIsSkipped();
      TraceAppend(GENERAL, DropLastEmpty(posted), "");
      assert posted == DropLastEmpty(posted) + [""];
    }
  }

  lemma EmptyIsSkipped()
    ensures KindOf("") == Skipped
  {
  }

  /** Every key of the file is still there, with its new or old value and in its section and place, exactly
      when no new text makes its line look like a section header; so it is in the posted text, when the new
      texts are single lines. */
  lemma TraceLaw(content: string, updates: Updates)
    ensures var lines := Lines(content);
            Trace(GENERAL, PostLines(GENERAL, lines, updates)) == NewTrace(Trace(GENERAL, lines), updates) <==>
            Harmless(GENERAL, lines, updates)
    ensures SingleLine(updates) ==>
              Trace(GENERAL, Lines(PostSettings(content, updates))) ==
              Trace(GENERAL, PostLines(GENERAL, Lines(content), updates))
  {
    hide KindOf, Harmless, Lines, PostLines, Trace, SingleLine;
    var lines := Lines(content);
    TraceLength(GENERAL, lines, updates, GENERAL);
    NewTraceLength(Trace(GENERAL, lines), updates);
    if Harmless(GENERAL, lines, updates) {
      HarmlessTrace(GENERAL, lines, updates);
    }
    if SingleLine(updates) {
      PostedText(content, updates);
    }
  }

  // A line turns into a header, and none ceases to be one.
  lemma {:induction false} HeadersGrow(section: string, lines: seq<string>, updates: Updates)
    ensures |Headers(PostLines(section, lines, updates))| >= |Headers(lines)|
    ensures Headers(PostLines(section, lines, updates)) == Headers(lines) <==> Harmless(section, lines, updates)
    ensures |Headers(PostLines(section, lines, updates))| == |Headers(lines)| <==> Harmless(section, lines, updates)
    decreases |lines|
  {
    hide KindOf, LooksLikeHeader, NewText, Trim, PostLine;
    if lines != [] {
      var line, rest := lines[0], lines[1..];
      var posted := PostLine(section, line, updates);
      PostedKind(section, line, updates);
      HeadersGrow(SectionAfter(section, line), rest, updates);
      assert PostLines(section, lines, updates) == [posted] + PostLines(SectionAfter(section, line), rest, updates);
    }
  }

  /** The section headers of the posted text are those of the file, in order, exactly when no new text makes its
      line look like one. */
  lemma HeadersKept(content: string, updates: Updates)
    requires SingleLine(updates)
    ensures Headers(Lines(PostSettings(content, updates))) == Headers(Lines(content)) <==>
            Harmless(GENERAL, Lines(content), updates)
  {
    hide Harmless, LinesFrom, PostLines, Headers, SingleLine;
    PostedText(content, updates);
    HeadersGrow(GENERAL, Lines(content), updates);
  }

  const BRACKET_UPDATE: Updates := map[GENERAL := map["[a" := "]"]]

  lemma BracketLine()
    ensures Lines("[a=1") == ["[a=1"] && KindOf("[a=1") == Entry("[a", "1")
    ensures NewText(BRACKET_UPDATE, GENERAL, "[a") == Some("]") && LooksLikeHeader("[a", "]")
    ensures SingleLine(BRACKET_UPDATE)
  {
    hide KindOf, Lines;
    OneLine("[a=1");
    assert "[a" + "=" + "1" == "[a=1";
    assert IsKey("[a") && !LooksLikeHeader("[a", "1") && Trim("1") == "1";
    RewrittenLine("[a", "1");
  }

  lemma OneLine(line: string)
    requires line != "" && '\n' !in line
    ensures Lines(line) == [line]
  {
    hide LinesFrom;
    LinesOfJoined([line]);
  }

  /** A key in a bracket, with a new text in another: its line becomes a header, and the key is gone. */
  lemma KeyBecomesHeader()
    ensures var content, updates := "[a=1", BRACKET_UPDATE;
            && Trace(GENERAL, Lines(content)) != []
            && Trace(GENERAL, PostLines(GENERAL, Lines(content), updates)) !=
               NewTrace(Trace(GENERAL, Lines(content)), updates)
            && GetSettings(PostSettings(content, updates)) != Overridden(GetSettings(content), updates)
  {
    BracketLine();
    hide Lines, KindOf, PostLines, LooksLikeHeader, NewText, SingleLine, GetSettings, PostSettings, Overridden,
         NewTrace, BRACKET_UPDATE;
    TraceLaw("[a=1", BRACKET_UPDATE);
    PutGet("[a=1", BRACKET_UPDATE);
  }

  // The section that line i is in.
  function SectionAt(section: string, lines: seq<string>, i: nat): string
    requires i < |lines|
    decreases i
  {
    if i == 0 then section else SectionAt(SectionAfter(section, lines[0]), lines[1..], i - 1)
  }

  // Line i is an entry with a new text.
  predicate HasNewText(lines: seq<string>, i: nat, updates: Updates)
    requires i < |lines|
  {
    match KindOf(lines[i])
    case Entry(key, _) => NewText(updates, SectionAt(GENERAL, lines, i), key).Some?
    case _ => false
  }

  lemma {:induction false} PostedAt(section: string, lines: seq<string>, updates: Updates, i: nat)
    requires i < |lines|
    ensures |PostLines(section, lines, updates)| == |lines|
    ensures PostLines(section, lines, updates)[i] == PostLine(SectionAt(section, lines, i), lines[i], updates)
    decreases |lines|
  {
    hide PostLine, SectionAfter;
    PostedLength(section, lines, updates);
    if i > 0 {
      PostedAt(SectionAfter(section, lines[0]), lines[1..], updates, i - 1);
    }
  }

  /** Comments, headers, unread lines and entries without a new text keep their line in the posted text, character
      by character; only a last empty line is not read back. */
  lemma LinesKept(content: string, updates: Updates, i: nat)
    requires SingleLine(updates) && i < |Lines(content)|
    ensures var before, after := Lines(content), Lines(PostSettings(content, updates));
            && |after| == |DropLastEmpty(before)|
            && (i < |after| && !HasNewText(before, i, updates) ==> after[i] == before[i])
            && (i < |after| && HasNewText(before, i, updates) ==>
                 after[i] == PostLine(SectionAt(GENERAL, before, i), before[i], updates))
  {
    hide KindOf, LinesFrom, PostLines, Trace, Headers, SingleLine, SectionAt;
    PostedText(content, updates);
    PostedAt(GENERAL, Lines(content), updates, i);
    LinesHoldNoNewline(content, "");
    PostedSingleLines(GENERAL, Lines(content), updates);
  }
}
