/**
 Whole INI files: what the lines of a list of sections read as, and which of them a posting changes.
*/
module IniFiles {
  import opened Options
  import opened SrsIni

  // ---------------------------------------------------------------------------------------------
  // What a line is
  // ---------------------------------------------------------------------------------------------

  predicate AllSpace(s: string) {
    forall c <- s :: IsSpace(c)
  }

  lemma {:induction false} SpacesTrimmed(before: string, s: string)
    requires AllSpace(before)
    ensures TrimStart(before + s) == TrimStart(s)
  {
    if before == "" {
      assert before + s == s;
    } else {
      assert (before + s)[1..] == before[1..] + s;
      SpacesTrimmed(before[1..], s);
    }
  }

  lemma {:induction false} SpacesTrimmedBehind(s: string, after: string)
    requires AllSpace(after)
    ensures TrimEnd(s + after) == TrimEnd(s)
    decreases |after|
  {
    if after == "" {
      assert s + after == s;
    } else {
      assert (s + after)[..|s + after| - 1] == s + after[..|after| - 1];
      SpacesTrimmedBehind(s, after[..|after| - 1]);
    }
  }

  /** A text that neither starts nor ends with a blank is what trimming leaves of it with blanks around. */
  lemma TrimOfPadded(before: string, s: string, after: string)
    requires AllSpace(before) && AllSpace(after) && (s != "" ==> !IsSpace(s[0]) && !IsSpace(s[|s| - 1]))
    ensures Trim(before + s + after) == s
  {
    assert before + s + after == before + (s + after);
    SpacesTrimmed(before, s + after);
    if s == "" {
      assert s + after == after && after + "" == after;
      SpacesTrimmed(after, "");
    } else {
      assert TrimStart(s + after) == s + after;
      SpacesTrimmedBehind(s, after);
    }
  }

  /** A section's name is what stands between the brackets, trimmed. */
  lemma HeaderReads(before: string, name: string, after: string)
    requires AllSpace(before) && AllSpace(after)
    ensures KindOf(before + "[" + name + "]" + after) == Header(Trim(name))
  {
    hide TrimStart, TrimEnd;
    var trimmed := "[" + name + "]";
    assert before + "[" + name + "]" + after == before + trimmed + after;
    BracketNoSpace();
    TrimOfPadded(before, trimmed, after);
    assert trimmed[1..|trimmed| - 1] == name;
  }

  lemma BracketNoSpace()
    ensures !IsSpace('[') && !IsSpace(']') && !IsSpace(';') && !IsSpace('#') && !IsSpace('=')
  {
  }

  /** A line of blanks, or with a semicolon or a number sign after them, is passed over. */
  lemma NoteReads(before: string, mark: char, text: string)
    requires AllSpace(before) && (mark == ';' || mark == '#')
    ensures KindOf(before) == Skipped && KindOf(before + [mark] + text) == Skipped
  {
    hide TrimStart, TrimEnd;
    assert before + "" + "" == before;
    TrimOfPadded(before, "", "");
    assert before + [mark] + text == before + ([mark] + text);
    SpacesTrimmed(before, [mark] + text);
    BracketNoSpace();
    StartStays(mark, text);
  }

  lemma StartStays(mark: char, text: string)
    requires !IsSpace(mark)
    ensures TrimStart([mark] + text) == [mark] + text
    ensures TrimEnd([mark] + text) != "" && TrimEnd([mark] + text)[0] == mark
  {
    TrimEndFirst(mark, text);
  }

  /** A line without an equals sign that is none of these sets nothing. */
  lemma UnreadReads(line: string)
    requires '=' !in line
    requires line != "" && !IsSpace(line[0]) && line[0] != ';' && line[0] != '#' && line[0] != '['
    ensures KindOf(line) == Unread
  {
    hide SplitAtEquals;
    assert line == [line[0]] + line[1..];
    StartStays(line[0], line[1..]);
    TrimKeepsOut('=', line);
    SplitParts(Trim(line));
  }

  // ---------------------------------------------------------------------------------------------
  // Files
  // ---------------------------------------------------------------------------------------------

  datatype Row = Pair(key: string, value: string) | Note(text: string)

  datatype Block = Block(name: string, rows: seq<Row>)

  function RowLine(row: Row): string {
    match row
    case Pair(key, value) => key + "=" + value
    case Note(text) => text
  }

  function RowLines(rows: seq<Row>): seq<string> {
    if rows == [] then [] else [RowLine(rows[0])] + RowLines(rows[1..])
  }

  function BlockLines(blocks: seq<Block>): seq<string> {
    if blocks == [] then []
    else ["[" + blocks[0].name + "]"] + RowLines(blocks[0].rows) + BlockLines(blocks[1..])
  }

  // The rows before the first header, and the sections.
  function FileLines(first: seq<Row>, blocks: seq<Block>): seq<string> {
    RowLines(first) + BlockLines(blocks)
  }

  function FileText(first: seq<Row>, blocks: seq<Block>): string {
    JoinCrLf(FileLines(first, blocks))
  }

  // No blanks around a key or a value, no equals sign in a key, no newline, no comment sign at the start; and not a
  // bracket at each end. A note is a comment.
  predicate GoodRow(row: Row) {
    match row
    case Pair(key, value) =>
      && Trimmed(key) && Trimmed(value) && '=' !in key && '\n' !in key && '\n' !in value
      && (key != "" ==> key[0] != ';' && key[0] != '#')
      && !(key != "" && key[0] == '[' && value != "" && value[|value| - 1] == ']')
    case Note(text) => text != "" && (text[0] == ';' || text[0] == '#') && '\n' !in text
  }

  predicate GoodRows(rows: seq<Row>) {
    forall row <- rows :: GoodRow(row)
  }

  predicate GoodBlocks(blocks: seq<Block>) {
    forall block <- blocks :: Trimmed(block.name) && '\n' !in block.name && GoodRows(block.rows)
  }

  lemma RowReads(row: Row)
    requires GoodRow(row)
    ensures KindOf(RowLine(row)) == (match row case Pair(key, value) => Entry(key, value) case Note(_) => Skipped)
    ensures '\n' !in RowLine(row) && RowLine(row) != ""
  {
    hide TrimStart, TrimEnd, KindOf;
    match row
    case Pair(key, value) =>
      RewrittenLine(key, value);
      TrimmedStays(value);
    case Note(text) =>
      assert "" + [text[0]] + text[1..] == text;
      NoteReads("", text[0], text[1..]);
  }

  lemma TrimmedStays(s: string)
    requires Trimmed(s)
    ensures Trim(s) == s && TrimEnd(s) == s
  {
    TrimEndFixed(s);
  }

  lemma {:induction false} RowsClean(rows: seq<Row>)
    requires GoodRows(rows)
    ensures forall l <- RowLines(rows) :: '\n' !in l && l != ""
  {
    if rows != [] {
      hide GoodRow, RowLine;
      assert rows[0] in rows;
      RowReads(rows[0]);
      RowsClean(rows[1..]);
    }
  }

  lemma {:induction false} BlocksClean(blocks: seq<Block>)
    requires GoodBlocks(blocks)
    ensures forall l <- BlockLines(blocks) :: '\n' !in l && l != ""
  {
    if blocks != [] {
      hide GoodRows, Trimmed, RowLines;
      assert blocks[0] in blocks;
      RowsClean(blocks[0].rows);
      BlocksClean(blocks[1..]);
      assert '\n' !in "[" + blocks[0].name + "]";
    }
  }

  lemma FileReads(first: seq<Row>, blocks: seq<Block>)
    requires GoodRows(first) && GoodBlocks(blocks)
    ensures Lines(FileText(first, blocks)) == FileLines(first, blocks)
  {
    hide GoodRows, GoodBlocks, RowLines, BlockLines, LinesFrom;
    RowsClean(first);
    BlocksClean(blocks);
    var lines := FileLines(first, blocks);
    forall l | l in lines
      ensures '\n' !in l && l != ""
    {
      assert l in RowLines(first) || l in BlockLines(blocks);
    }
    assert lines != [] ==> lines[|lines| - 1] in lines;
    LinesOfJoined(lines);
  }

  // ---------------------------------------------------------------------------------------------
  // Reading
  // ---------------------------------------------------------------------------------------------

  predicate Has(sections: Sections, s: string, k: string, v: string) {
    s in sections && k in sections[s] && sections[s][k] == v
  }

  predicate HasKey(rows: seq<Row>, k: string) {
    exists row <- rows :: row.Pair? && row.key == k
  }

  // Each key is set once.
  predicate OwnKeys(rows: seq<Row>) {
    forall i, j :: 0 <= i < j < |rows| && rows[i].Pair? && rows[j].Pair? ==> rows[i].key != rows[j].key
  }

  lemma {:induction false} ReadRows(r: Reading, rows: seq<Row>)
    requires GoodRows(rows) && OwnKeys(rows)
    requires forall k :: HasKey(rows, k) && r.section in r.sections ==> k !in r.sections[r.section]
    ensures var after := ReadLines(r, RowLines(rows));
            && after.section == r.section
            && (forall s, k, v :: Has(after.sections, s, k, v) <==>
                  Has(r.sections, s, k, v) || (s == r.section && Pair(k, v) in rows))
            && (forall s :: s in after.sections <==>
                  s in r.sections || (s == r.section && exists row <- rows :: row.Pair?))
    decreases |rows|
  {
    hide KindOf, RowLine, GoodRow;
    if rows != [] {
      var row, rest := rows[0], rows[1..];
      assert row in rows && rows == [row] + rest;
      RowReads(row);
      var next := ReadLine(r, RowLine(row));
      assert forall i :: 0 <= i < |rest| ==> rest[i] == rows[i + 1];
      forall k | HasKey(rest, k)
        ensures HasKey(rows, k) && (row.Pair? ==> row.key != k)
      {
        var other :| other in rest && other.Pair? && other.key == k;
        assert other in rows;
        var j :| 0 <= j < |rest| && rest[j] == other;
        assert rows[j + 1] == other;
      }
      assert row.Pair? ==> HasKey(rows, row.key);
      ReadRows(next, rest);
      RowLinesFirst(rows);
    }
  }

  lemma RowLinesFirst(rows: seq<Row>)
    requires rows != []
    ensures RowLines(rows) == [RowLine(rows[0])] + RowLines(rows[1..])
    ensures RowLines(rows)[0] == RowLine(rows[0]) && RowLines(rows)[1..] == RowLines(rows[1..])
  {
  }

  // Each section stands once, and none has a name that was met before.
  predicate OwnNames(blocks: seq<Block>, taken: Sections) {
    && (forall i, j :: 0 <= i < j < |blocks| ==> blocks[i].name != blocks[j].name)
    && (forall block <- blocks :: block.name !in taken && OwnKeys(block.rows))
  }

  predicate InBlocks(blocks: seq<Block>, s: string, k: string, v: string) {
    exists block <- blocks :: block.name == s && Pair(k, v) in block.rows
  }

  predicate Names(blocks: seq<Block>, s: string) {
    exists block <- blocks :: block.name == s
  }

  lemma {:induction false} ReadBlocks(r: Reading, blocks: seq<Block>)
    requires GoodBlocks(blocks) && OwnNames(blocks, r.sections)
    ensures var after := ReadLines(r, BlockLines(blocks)).sections;
            && (forall s, k, v :: Has(after, s, k, v) <==> Has(r.sections, s, k, v) || InBlocks(blocks, s, k, v))
            && (forall s :: s in after <==> s in r.sections || Names(blocks, s))
    decreases |blocks|
  {
    hide KindOf, GoodRows, OwnKeys, RowLines, Trimmed;
    if blocks != [] {
      var block, rest := blocks[0], blocks[1..];
      assert block in blocks && blocks == [block] + rest;
      var head, after := OneBlock(r, block);
      assert forall i :: 0 <= i < |rest| ==> rest[i] == blocks[i + 1];
      forall other | other in rest
        ensures other in blocks && other.name != block.name
      {
        var j :| 0 <= j < |rest| && rest[j] == other;
        assert blocks[j + 1] == other;
      }
      ReadBlocks(after, rest);
      ReadLinesAppend(r, ["[" + block.name + "]"] + RowLines(block.rows), BlockLines(rest));
    }
  }

  lemma OneBlock(r: Reading, block: Block) returns (head: Reading, after: Reading)
    requires Trimmed(block.name) && GoodRows(block.rows) && OwnKeys(block.rows) && block.name !in r.sections
    ensures after == ReadLines(r, ["[" + block.name + "]"] + RowLines(block.rows))
    ensures forall s, k, v :: Has(after.sections, s, k, v) <==>
              Has(r.sections, s, k, v) || (s == block.name && Pair(k, v) in block.rows)
    ensures forall s :: s in after.sections <==> s in r.sections || s == block.name
  {
    hide KindOf, GoodRow, OwnKeys, RowLines, TrimStart, TrimEnd;
    assert "" + "[" + block.name + "]" + "" == "[" + block.name + "]";
    HeaderReads("", block.name, "");
    TrimmedStays(block.name);
    head := ReadLine(r, "[" + block.name + "]");
    ReadRows(head, block.rows);
    after := ReadLines(head, RowLines(block.rows));
    ReadLinesAppend(r, ["[" + block.name + "]"], RowLines(block.rows));
    assert ["[" + block.name + "]"][1..] == [];
  }

  /** Printing and reading: the lines of a list of sections, after rows of the section that a file starts in, read as
      exactly those sections with those keys and values. */
  lemma PrintRead(first: seq<Row>, blocks: seq<Block>)
    requires GoodRows(first) && GoodBlocks(blocks) && OwnKeys(first)
    requires OwnNames(blocks, if exists row <- first :: row.Pair? then map["General Settings" := map[]] else map[])
    ensures var read := GetSettings(FileText(first, blocks));
            && (forall s, k, v :: Has(read, s, k, v) <==>
                  (s == "General Settings" && Pair(k, v) in first) || InBlocks(blocks, s, k, v))
            && (forall s :: s in read <==>
                  (s == "General Settings" && exists row <- first :: row.Pair?) || Names(blocks, s))
  {
    hide GoodRows, GoodBlocks, RowLines, BlockLines, Lines, FileText, OwnKeys, KindOf;
    FileReads(first, blocks);
    ReadRows(START, first);
    var after := ReadLines(START, RowLines(first));
    ReadLinesAppend(START, RowLines(first), BlockLines(blocks));
    ReadBlocks(after, blocks);
  }

  // ---------------------------------------------------------------------------------------------
  // Posting
  // ---------------------------------------------------------------------------------------------

  // One new text, for one key of one section.
  function One(s: string, k: string, v: string): Updates {
    map[s := map[k := v]]
  }

  // The rows with a new value for the key, if the update is for them.
  function Set(rows: seq<Row>, meant: bool, k: string, v: string): seq<Row> {
    if rows == [] then []
    else [if meant && rows[0].Pair? && rows[0].key == k then Pair(k, v) else rows[0]] + Set(rows[1..], meant, k, v)
  }

  function SetBlocks(blocks: seq<Block>, s: string, k: string, v: string): seq<Block> {
    if blocks == [] then []
    else
      [Block(blocks[0].name, Set(blocks[0].rows, blocks[0].name == s, k, v))] + SetBlocks(blocks[1..], s, k, v)
  }

  lemma {:induction false} PostRows(section: string, rows: seq<Row>, rest: seq<string>, s: string, k: string, v: string)
    requires GoodRows(rows)
    ensures var updates: Updates := One(s, k, v);
            PostLines(section, RowLines(rows) + rest, updates) ==
            RowLines(Set(rows, section == s, k, v)) + PostLines(section, rest, updates)
    decreases |rows|
  {
    if rows == [] {
      assert RowLines(rows) + rest == rest;
      assert [] + PostLines(section, rest, One(s, k, v)) == PostLines(section, rest, One(s, k, v));
    } else {
      hide GoodRow, PostLines, RowLines, Set, RowLine, One;
      var others := Set(rows[1..], section == s, k, v);
      GoodFirst(rows);
      PostRows(section, rows[1..], rest, s, k, v);
      RowLinesFirst(rows);
      SetFirst(rows, section == s, k, v);
      PostStep(section, rows[0], RowLines(rows[1..]), rest, s, k, v, RowLines(others),
               PostLines(section, rest, One(s, k, v)));
    }
  }

  lemma GoodFirst(rows: seq<Row>)
    requires rows != [] && GoodRows(rows)
    ensures GoodRow(rows[0]) && GoodRows(rows[1..])
  {
    hide GoodRow;
    assert rows[0] in rows;
  }

  lemma PostStep(section: string, row: Row, others: seq<string>, rest: seq<string>, s: string, k: string, v: string,
                 posted: seq<string>, last: seq<string>)
    requires GoodRow(row) && PostLines(section, others + rest, One(s, k, v)) == posted + last
    ensures PostLines(section, ([RowLine(row)] + others) + rest, One(s, k, v)) ==
            ([RowLine(if section == s && row.Pair? && row.key == k then Pair(k, v) else row)] + posted) + last
  {
    hide GoodRow, PostLines, PostLine, SectionAfter, RowLine, One;
    RowPosted(section, row, s, k, v);
    PostFirst(section, RowLine(row), others + rest, One(s, k, v));
    assert ([RowLine(row)] + others) + rest == [RowLine(row)] + (others + rest);
  }

  lemma RowPosted(section: string, row: Row, s: string, k: string, v: string)
    requires GoodRow(row)
    ensures PostLine(section, RowLine(row), One(s, k, v)) ==
            RowLine(if section == s && row.Pair? && row.key == k then Pair(k, v) else row)
    ensures SectionAfter(section, RowLine(row)) == section
  {
    hide KindOf, GoodRow;
    RowReads(row);
  }

  lemma SetFirst(rows: seq<Row>, meant: bool, k: string, v: string)
    requires rows != []
    ensures RowLines(Set(rows, meant, k, v)) ==
            [RowLine(if meant && rows[0].Pair? && rows[0].key == k then Pair(k, v) else rows[0])]
            + RowLines(Set(rows[1..], meant, k, v))
  {
    assert Set(rows, meant, k, v)[1..] == Set(rows[1..], meant, k, v);
  }

  lemma {:induction false} PostBlocks(section: string, blocks: seq<Block>, s: string, k: string, v: string)
    requires GoodBlocks(blocks)
    ensures PostLines(section, BlockLines(blocks), One(s, k, v)) == BlockLines(SetBlocks(blocks, s, k, v))
    decreases |blocks|
  {
    var updates: Updates := One(s, k, v);
    if blocks != [] {
      hide KindOf, GoodRows, Trimmed, RowLines, Set;
      var block, rest := blocks[0], blocks[1..];
      assert block in blocks;
      PostHead(section, block.name, RowLines(block.rows) + BlockLines(rest), updates);
      PostRows(block.name, block.rows, BlockLines(rest), s, k, v);
      PostBlocks(block.name, rest, s, k, v);
      assert BlockLines(blocks) == ["[" + block.name + "]"] + (RowLines(block.rows) + BlockLines(rest));
      assert SetBlocks(blocks, s, k, v)[1..] == SetBlocks(rest, s, k, v);
    }
  }

  lemma PostHead(section: string, name: string, rest: seq<string>, updates: Updates)
    requires Trimmed(name)
    ensures PostLines(section, ["[" + name + "]"] + rest, updates) ==
            ["[" + name + "]"] + PostLines(name, rest, updates)
  {
    hide KindOf, TrimStart, TrimEnd;
    assert "" + "[" + name + "]" + "" == "[" + name + "]";
    HeaderReads("", name, "");
    TrimmedStays(name);
    PostFirst(section, "[" + name + "]", rest, updates);
  }

  /** Posting one key of one section writes its new text into exactly the rows of that key in that section, and leaves
      every other line; the rows before the first header are those of the section that a file starts in. */
  lemma PostOne(first: seq<Row>, blocks: seq<Block>, s: string, k: string, v: string)
    requires GoodRows(first) && GoodBlocks(blocks)
    ensures PostSettings(FileText(first, blocks), One(s, k, v)) ==
            FileText(Set(first, s == "General Settings", k, v), SetBlocks(blocks, s, k, v))
  {
    hide GoodRows, GoodBlocks, RowLines, BlockLines, Lines, PostLines, Set, SetBlocks, JoinCrLf;
    FileReads(first, blocks);
    PostRows("General Settings", first, BlockLines(blocks), s, k, v);
    PostBlocks("General Settings", blocks, s, k, v);
  }
}
