/**
 Adding and removing missions: the `missionList` block of the file is found by a plain text search and
 replaced by a freshly printed one. This module says when that search finds the block Lua sees, and
 proves that a run of edits then acts on the file as on a plain list.
*/
module QueueEdit {
  import opened Options
  import opened LuaText
  import opened LuaLocality
  import opened LuaPrinting
  import opened SettingsLua
  import opened SettingsRoundTrip

  const BLOCK_KEY := "[\"missionList\"]"

  datatype QueueAction = Add | Remove

  // ---------------------------------------------------------------------------------------------
  // The edit as the code performs it
  // ---------------------------------------------------------------------------------------------

  predicate OccursAt(s: string, pattern: string, i: nat) {
    i + |pattern| <= |s| && s[i..i + |pattern|] == pattern
  }

  // The first occurrence at or after i.
  function Find(s: string, pattern: string, i: nat): (r: Option<nat>)
    requires i <= |s|
    ensures r.Some? ==> i <= r.value <= |s|
    decreases |s| - i
  {
    if OccursAt(s, pattern, i) then Some(i)
    else if i == |s| then None
    else Find(s, pattern, i + 1)
  }

  function QueueBlock(queue: seq<string>): string {
    ItemsBlock(JsonPaths(queue))
  }

  // The block as it is printed for any items, which only the serializer does.
  function ItemsBlock(items: seq<Json>): string {
    StringFieldHead("", MISSION_LIST) + "\r\n\t{\r\n" + MissionLines(items, 0) + "\t},"
  }

  function JsonPaths(queue: seq<string>): seq<Json> {
    seq(|queue|, i requires 0 <= i < |queue| => JString(queue[i]))
  }

  // Where the searched block starts and ends, its optional comma included.
  datatype Span = Span(start: nat, brace: nat, close: nat, end: nat)

  function BlockSpan(content: string): (r: Option<Span>)
    ensures r.Some? ==> r.value.start <= r.value.brace <= r.value.close < r.value.end <= |content|
    ensures r.Some? ==> At(content, r.value.brace, '{') && At(content, r.value.close, '}')
    ensures r.Some? ==> r.value.end == r.value.close + if At(content, r.value.close + 1, ',') then 2 else 1
  {
    var start :- Find(content, BLOCK_KEY, 0);
    var brace :- Find(content, "{", start);
    var close :- Find(content, "}", brace);
    assert content[close] == "}"[0] && content[brace] == "{"[0] by {
      FoundOccurs(content, "{", start);
      FoundOccurs(content, "}", brace);
    }
    Some(Span(start, brace, close, if At(content, close + 1, ',') then close + 2 else close + 1))
  }

  lemma {:induction false} FoundOccurs(s: string, pattern: string, i: nat)
    requires i <= |s| && Find(s, pattern, i).Some?
    ensures OccursAt(s, pattern, Find(s, pattern, i).value)
    ensures forall j :: i <= j < Find(s, pattern, i).value ==> !OccursAt(s, pattern, j)
    decreases |s| - i
  {
    if !OccursAt(s, pattern, i) {
      FoundOccurs(s, pattern, i + 1);
    }
  }

  function ReplaceMissionListBlock(content: string, replacement: string): Option<string> {
    var span :- BlockSpan(content);
    Some(content[..span.start] + replacement + content[span.end..])
  }

  function MissionQueue(settings: Settings): seq<string> {
    if settings.missions.Some? then settings.missions.value else []
  }

  function RemoveFirst(queue: seq<string>, file: string): seq<string> {
    if queue == [] then []
    else if queue[0] == file then queue[1..]
    else [queue[0]] + RemoveFirst(queue[1..], file)
  }

  // The list after one request.
  function Requested(queue: seq<string>, action: QueueAction, file: string): seq<string> {
    match action
    case Add => if file in queue then queue else queue + [file]
    case Remove => RemoveFirst(queue, file)
  }

  /** The file after one request; None when it cannot be parsed or has no block. An Add of a queued
      mission leaves the file as it is. */
  function MutatedText(content: string, action: QueueAction, file: string): Option<string> {
    var settings :- LoadSettings(content);
    var queue := MissionQueue(settings);
    if action == Add && file in queue then Some(content)
    else ReplaceMissionListBlock(content, QueueBlock(Requested(queue, action, file)))
  }

  /** The settings file on disk. */
  class SettingsFile {
    var content: string

    constructor (text: string)
      ensures content == text
    {
      content := text;
    }

    /** One request; the file is written only when the edit succeeds. */
    method MutateQueue(action: QueueAction, file: string) returns (ok: bool)
      modifies this
      ensures ok == MutatedText(old(content), action, file).Some?
      ensures content == if ok then MutatedText(old(content), action, file).value else old(content)
    {
      hide LoadSettings, QueueBlock, BlockSpan, MissionLines;
      var settings := LoadSettings(content);
      if settings.None? {
        return false;
      }
      var queue := MissionQueue(settings.value);
      match action {
        case Add =>
          if file in queue {
            return true;
          }
          queue := queue + [file];
        case Remove =>
          queue := RemoveFound(queue, file);
      }
      var block := PrintQueueBlock(queue);
      var newContent := ReplaceMissionListBlock(content, block);
      if newContent.None? {
        return false;
      }
      content := newContent.value;
      ok := true;
    }
  }

  lemma {:induction false} RemoveFirstAt(queue: seq<string>, file: string, i: nat)
    requires i < |queue| && queue[i] == file && file !in queue[..i]
    ensures RemoveFirst(queue, file) == queue[..i] + queue[i + 1..]
  {
    if i > 0 {
      assert queue[0] in queue[..i];
      assert queue[1..][..i - 1] == queue[..i][1..];
      RemoveFirstAt(queue[1..], file, i - 1);
    }
  }

  lemma {:induction false} RemoveFirstAbsent(queue: seq<string>, file: string)
    requires file !in queue
    ensures RemoveFirst(queue, file) == queue
  {
    if queue != [] {
      RemoveFirstAbsent(queue[1..], file);
    }
  }

  // Finds the first position of the file and removes it.
  method RemoveFound(queue: seq<string>, file: string) returns (left: seq<string>)
    ensures left == RemoveFirst(queue, file)
  {
    var idx := 0;
    while idx < |queue| && queue[idx] != file
      invariant idx <= |queue|
      invariant file !in queue[..idx]
    {
      idx := idx + 1;
    }
    if idx < |queue| {
      RemoveFirstAt(queue, file, idx);
      left := queue[..idx] + queue[idx + 1..];
    } else {
      assert queue[..idx] == queue;
      RemoveFirstAbsent(queue, file);
      left := queue;
    }
  }

  method PrintQueueBlock(queue: seq<string>) returns (block: string)
    ensures block == QueueBlock(queue)
  {
    hide MissionLine, ItemLine;
    block := StringFieldHead("", MISSION_LIST) + "\r\n\t{\r\n";
    ghost var head := block;
    var items := JsonPaths(queue);
    for index := 0 to |queue|
      invariant block == head + MissionLines(items[..index], 0)
    {
      MissionLinesPush(items[..index], items[index], 0);
      assert items[..index + 1] == items[..index] + [items[index]];
      block := block + ItemLine(index + 1, items[index]);
    }
    assert items[..|queue|] == items;
    block := block + "\t},";
  }

  // ---------------------------------------------------------------------------------------------
  // When the searched block is the one Lua reads
  // ---------------------------------------------------------------------------------------------

  // The fields read from i on, if the next one then starts exactly at n.
  function FieldsUpTo(s: string, i: nat, n: nat): Option<seq<Field>>
    requires i <= |s| && n <= |s|
    decreases |s| - i
  {
    var start := Skip(s, i);
    if start == n then Some([])
    else if start > n then None
    else
      var (field, afterField) :- ReadField(s, start);
      var next := Skip(s, afterField);
      if next < n && (At(s, next, ',') || At(s, next, ';')) then
        var rest :- FieldsUpTo(s, next + 1, n);
        Some([field] + rest)
      else None
  }

  // What is read after a field that ends before position i.
  function AfterField(s: string, i: nat): (r: Read<seq<Field>>)
    requires i <= |s|
    ensures r.Some? ==> i < r.value.1 <= |s|
  {
    var next := Skip(s, i);
    if At(s, next, ',') || At(s, next, ';') then ReadFields(s, next + 1)
    else if At(s, next, '}') then Some(([], next + 1))
    else None
  }

  predicate NoMissionList(fields: seq<Field>) {
    forall f <- fields :: f.key != KStr(MISSION_LIST)
  }

  // A file as Lua reads it around the searched block.
  datatype View = View(inside: nat, before: seq<Field>, missions: seq<Field>, after: seq<Field>, end: nat)

  predicate Sees(s: string, span: Span, v: View) {
    && BlockSpan(s) == Some(span)
    && ReadOpening(s) == Some(v.inside) && v.inside <= span.start
    && FieldsUpTo(s, v.inside, span.start) == Some(v.before) && NoMissionList(v.before)
    && BlockRead(s, span.start, span.brace, span.close, v.missions)
    && AfterField(s, span.close + 1) == Some((v.after, v.end)) && NoMissionList(v.after)
    && Skip(s, v.end) == |s|
  }

  // `["missionList"] = {` at start, with its brace where the search found one, up to the found `}`.
  predicate BlockRead(s: string, start: nat, brace: nat, close: nat, missions: seq<Field>) {
    && start <= |s| && brace < |s|
    && ReadFieldHead(s, start).Some?
    && ReadFieldHead(s, start).value.0 == KStr(MISSION_LIST)
    && Skip(s, ReadFieldHead(s, start).value.1) == brace
    && At(s, brace, '{')
    && ReadFields(s, brace + 1) == Some((missions, close + 1))
  }

  // The block is followed by a comma at once, or by the end of the table.
  predicate WellSeparated(s: string, span: Span)
    requires span.close < |s|
  {
    At(s, span.close + 1, ',') || At(s, Skip(s, span.close + 1), '}')
  }

  function Fields(v: View): seq<Field> {
    v.before + ([Field(KStr(MISSION_LIST), LTable(v.missions))] + v.after)
  }

  lemma {:induction false} ReadUpTo(s: string, i: nat, n: nat)
    requires i <= |s| && n <= |s|
    requires FieldsUpTo(s, i, n).Some? && At(s, n, '[')
    ensures ReadFields(s, i) == Prepend(FieldsUpTo(s, i, n).value, ReadFields(s, n))
    decreases |s| - i
  {
    hide ReadField, ReadFields, Skip, Prepend;
    SkipNothing(s, n);
    var start := Skip(s, i);
    if start == n {
      SameFields(s, i, n);
      PrependTwice([], [], ReadFields(s, n));
    } else {
      var (field, afterField) := ReadField(s, start).value;
      var next := Skip(s, afterField);
      ReadUpTo(s, next + 1, n);
      ReadFieldThen(s, i, field, afterField);
      PrependTwice([field], FieldsUpTo(s, next + 1, n).value, ReadFields(s, n));
    }
  }

  lemma ReadFieldThen(s: string, i: nat, field: Field, afterField: nat)
    requires i <= |s| && ReadField(s, Skip(s, i)) == Some((field, afterField))
    ensures ReadFields(s, i) == Prepend([field], AfterField(s, afterField))
  {
    hide ReadField, ReadFields, Skip;
    FieldStartsWithBracket(s, Skip(s, i));
    var next := Skip(s, afterField);
    ReadFieldsFrom(s, i, field, afterField);
    if At(s, next, '}') {
      assert [field] + [] == [field];
    }
  }

  lemma ReadFieldsFrom(s: string, i: nat, field: Field, afterField: nat)
    requires i <= |s| && At(s, Skip(s, i), '[') && ReadField(s, Skip(s, i)) == Some((field, afterField))
    ensures var next := Skip(s, afterField);
            ReadFields(s, i) ==
            if At(s, next, ',') || At(s, next, ';') then Prepend([field], ReadFields(s, next + 1))
            else if At(s, next, '}') then Some(([field], next + 1))
            else None
  {
    hide ReadField, Skip;
  }

  lemma FieldStartsWithBracket(s: string, i: nat)
    requires i <= |s| && ReadField(s, i).Some?
    ensures At(s, i, '[')
  {
    hide ReadValue, Skip, ReadKey, ReadAssign;
  }

  lemma ReadBlockField(s: string, start: nat, brace: nat, close: nat, missions: seq<Field>)
    requires BlockRead(s, start, brace, close, missions)
    ensures At(s, start, '[')
    ensures ReadField(s, start) == Some((Field(KStr(MISSION_LIST), LTable(missions)), close + 1))
  {
    hide ReadFieldHead, ReadValue, ReadFields, Skip;
    var head := ReadFieldHead(s, start).value;
    ReadTableValue(s, brace, missions, close + 1);
    ReadFieldParts(s, start, head.0, head.1, LTable(missions), close + 1);
    FieldStartsWithBracket(s, start);
  }

  // What Lua reads around a block, whether or not the rest of the file is readable.
  lemma ReadAroundBlock(s: string, inside: nat, before: seq<Field>, span: Span, missions: seq<Field>)
    requires inside <= span.start <= |s| && span.close < |s|
    requires FieldsUpTo(s, inside, span.start) == Some(before)
    requires BlockRead(s, span.start, span.brace, span.close, missions)
    ensures ReadFields(s, inside) ==
            Prepend(before + [Field(KStr(MISSION_LIST), LTable(missions))], AfterField(s, span.close + 1))
  {
    hide ReadField, ReadFields, Skip, Prepend, BlockRead, AfterField, FieldsUpTo;
    ReadBlockField(s, span.start, span.brace, span.close, missions);
    ReadUpTo(s, inside, span.start);
    SkipNothing(s, span.start);
    ReadFieldThen(s, span.start, Field(KStr(MISSION_LIST), LTable(missions)), span.close + 1);
    PrependTwice(before, [Field(KStr(MISSION_LIST), LTable(missions))], AfterField(s, span.close + 1));
  }

  lemma SeesFile(s: string, span: Span, v: View)
    requires Sees(s, span, v)
    ensures ReadFile(s) == Some(Fields(v))
  {
    hide ReadFields, Skip, BlockRead, AfterField, FieldsUpTo, ReadOpening, BlockSpan, NoMissionList;
    ReadAroundBlock(s, v.inside, v.before, span, v.missions);
    assert v.before + [Field(KStr(MISSION_LIST), LTable(v.missions))] + v.after == Fields(v);
  }

  // ---------------------------------------------------------------------------------------------
  // Locality of the above
  // ---------------------------------------------------------------------------------------------

  lemma {:induction false} FieldsUpToLocal(s: string, t: string, n: nat, i: nat)
    requires Agree(s, t, 0, 0, n)
    requires i <= n && FieldsUpTo(s, i, n).Some?
    ensures FieldsUpTo(t, i, n) == FieldsUpTo(s, i, n)
    decreases n - i
  {
    hide ReadField, Skip, Agree;
    AgreeBounds(s, t, 0, 0, n);
    var start := SkipTo(s, t, 0, 0, n, i);
    if start != n {
      ReadFieldLocal(s, t, 0, 0, n, start);
      var next := SkipTo(s, t, 0, 0, n, ReadField(s, start).value.1);
      assert ReadField(t, start) == ReadField(s, start);
      FieldsUpToLocal(s, t, n, next + 1);
    }
  }

  lemma AgreeBounds(s: string, t: string, d: int, lo: nat, hi: nat)
    requires Agree(s, t, d, lo, hi)
    ensures lo <= hi <= |s| && 0 <= lo + d && hi + d <= |t|
  {
  }

  lemma ReadOpeningLocal(s: string, t: string, n: nat)
    requires Agree(s, t, 0, 0, n)
    requires ReadOpening(s).Some? && ReadOpening(s).value <= n
    ensures ReadOpening(t) == ReadOpening(s)
  {
    hide Skip, NameEnd, Agree;
    AgreeBounds(s, t, 0, 0, n);
    var name := SkipTo(s, t, 0, 0, n, 0);
    var nameEnd := NameEnd(s, name);
    NameEndLocal(s, t, 0, 0, n, name);
    SliceLocal(s, t, 0, 0, n, name, nameEnd);
    var equals := SkipTo(s, t, 0, 0, n, nameEnd);
    var brace := SkipTo(s, t, 0, 0, n, equals + 1);
    AtLocal(s, t, 0, 0, n, equals + 1);
  }

  lemma AtLocal(s: string, t: string, d: int, lo: nat, hi: nat, i: nat)
    requires Agree(s, t, d, lo, hi) && lo <= i <= hi
    ensures forall c :: At(s, i, c) == At(t, i + d, c)
  {
  }

  // What follows a field up to the end of the file is read the same way at the end of another file.
  lemma AfterFieldMoved(s: string, t: string, i: nat, k: nat)
    requires i <= |s| && k <= |t| && s[i..] == t[k..]
    requires AfterField(s, i).Some? && Skip(s, AfterField(s, i).value.1) == |s|
    ensures AfterField(t, k) == Some((AfterField(s, i).value.0, AfterField(s, i).value.1 - i + k))
    ensures Skip(t, AfterField(t, k).value.1) == |t|
  {
    hide AfterField, Skip, Agree, AgreeToEnd;
    SameTails(s, t, i, k);
    AfterFieldToEnd(s, t, k - i, i);
  }

  // From i on, s is what t is d positions further on.
  ghost predicate AgreeToEnd(s: string, t: string, d: int, i: nat) {
    |t| == |s| + d && Agree(s, t, d, i, |s|)
  }

  lemma AfterFieldToEnd(s: string, t: string, d: int, i: nat)
    requires i <= |s| && AgreeToEnd(s, t, d, i)
    requires AfterField(s, i).Some? && Skip(s, AfterField(s, i).value.1) == |s|
    ensures i + d >= 0 && i + d <= |t|
    ensures AfterField(t, i + d) == Some((AfterField(s, i).value.0, AfterField(s, i).value.1 + d))
    ensures Skip(t, AfterField(t, i + d).value.1) == |t|
  {
    hide AfterField, Skip, Agree;
    AgreeBounds(s, t, d, i, |s|);
    AfterFieldLocal(s, t, d, i, |s|, i);
    var last := SkipTo(s, t, d, i, |s|, AfterField(s, i).value.1);
  }

  lemma AfterFieldLocal(s: string, t: string, d: int, lo: nat, hi: nat, i: nat)
    requires Agree(s, t, d, lo, hi) && lo <= i <= hi
    requires Ends(AfterField(s, i), hi)
    ensures i + d <= |t|
    ensures AfterField(t, i + d) == Some((AfterField(s, i).value.0, AfterField(s, i).value.1 + d))
  {
    hide ReadFields, Skip, Agree, Moved;
    AgreeBounds(s, t, d, lo, hi);
    var next := SkipTo(s, t, d, lo, hi, i);
    if At(s, next, ',') || At(s, next, ';') {
      ReadFieldsLocal(s, t, d, lo, hi, next + 1);
      MovedEnd(ReadFields(s, next + 1), d);
    }
  }

  lemma MovedEnd<T>(r: Read<T>, d: int)
    requires r.Some? && r.value.1 + d >= 0
    ensures Moved(r, d) == Some((r.value.0, r.value.1 + d))
  {
  }

  lemma SameTails(s: string, t: string, i: nat, k: nat)
    requires i <= |s| && k <= |t| && s[i..] == t[k..]
    ensures AgreeToEnd(s, t, k - i, i)
  {
    assert |s[i..]| == |t[k..]|;
    forall p | i <= p < |s|
      ensures s[p] == t[p + (k - i)]
    {
      assert s[i..][p - i] == s[p];
    }
  }

  // ---------------------------------------------------------------------------------------------
  // The printed block
  // ---------------------------------------------------------------------------------------------

  predicate PlainQueue(queue: seq<string>) {
    forall path <- queue :: PlainPath(path)
  }

  const HEAD_LENGTH := 18
  const BRACE_OFFSET := 21

  lemma ItemsShape(items: seq<Json>)
    ensures var lines := MissionLines(items, 0);
            && ItemsBlock(items) ==
               StringFieldHead("", MISSION_LIST) + ("\r\n\t" + ("{" + ("\r\n" + (lines + ("\t" + ("}" + ","))))))
            && |StringFieldHead("", MISSION_LIST)| == HEAD_LENGTH
            && |ItemsBlock(items)| == BRACE_OFFSET + 3 + |lines| + 3
  {
    hide MissionLines;
    var lines := MissionLines(items, 0);
    var head := StringFieldHead("", MISSION_LIST);
    assert |head| == HEAD_LENGTH;
    assert "\r\n\t{\r\n" == "\r\n\t" + ("{" + "\r\n");
    assert "\t}," == "\t" + ("}" + ",");
  }

  // Where the parts of a printed block stand.
  lemma ItemsParts(s: string, i: nat, items: seq<Json>)
    requires Lies(s, i, ItemsBlock(items))
    ensures var lines := MissionLines(items, 0);
            var body := i + BRACE_OFFSET + 3;
            && Lies(s, i, StringFieldHead("", MISSION_LIST))
            && |StringFieldHead("", MISSION_LIST)| == HEAD_LENGTH
            && Lies(s, i + HEAD_LENGTH, "\r\n\t")
            && Lies(s, i + BRACE_OFFSET, "{")
            && Lies(s, i + BRACE_OFFSET + 1, "\r\n")
            && Lies(s, body, lines)
            && Lies(s, body + |lines|, "\t")
            && Lies(s, body + |lines| + 1, "}")
            && Lies(s, body + |lines| + 2, ",")
            && body + |lines| + 3 == i + |ItemsBlock(items)|
  {
    hide Lies, ItemsBlock, MissionLines, StringFieldHead;
    ItemsShape(items);
    var lines := MissionLines(items, 0);
    var head := StringFieldHead("", MISSION_LIST);
    LiesSplit(s, i, head, "\r\n\t" + ("{" + ("\r\n" + (lines + ("\t" + ("}" + ","))))));
    LiesSplit(s, i + 18, "\r\n\t", "{" + ("\r\n" + (lines + ("\t" + ("}" + ",")))));
    LiesSplit(s, i + 21, "{", "\r\n" + (lines + ("\t" + ("}" + ","))));
    LiesSplit(s, i + 22, "\r\n", lines + ("\t" + ("}" + ",")));
    LiesSplit(s, i + 24, lines, "\t" + ("}" + ","));
    LiesSplit(s, i + 24 + |lines|, "\t", "}" + ",");
    LiesSplit(s, i + 25 + |lines|, "}", ",");
  }

  lemma ReadItemsBlock(s: string, i: nat, items: seq<Json>)
    requires Lies(s, i, ItemsBlock(items))
    requires WritableMissions(items)
    ensures var close := i + |ItemsBlock(items)| - 2;
            && BlockRead(s, i, i + BRACE_OFFSET, close, MissionFields(items, 0))
            && At(s, close, '}') && At(s, close + 1, ',')
  {
    hide Lies, ReadFields, ReadFieldHead, Skip, Prepend, MissionLines, MissionFields, ItemsBlock, StringFieldHead,
         PlainPath;
    ItemsParts(s, i, items);
    var lines := MissionLines(items, 0);
    var body, after := i + BRACE_OFFSET + 3, i + BRACE_OFFSET + 3 + |lines|;
    LiesChar(s, i + BRACE_OFFSET, '{');
    LiesChar(s, after + 1, '}');
    LiesChar(s, after + 2, ',');
    ReadStringFieldHead(s, i, "", MISSION_LIST);
    SkipBlanks(s, i + HEAD_LENGTH, "\r\n\t");
    SkipNothing(s, i + BRACE_OFFSET);
    SkipBlanks(s, i + BRACE_OFFSET + 1, "\r\n");
    SameFields(s, i + BRACE_OFFSET + 1, body);
    ReadMissionLines(s, body, items, 0);
    SkipBlanks(s, after, "\t");
    SkipNothing(s, after + 1);
    ReadClosingBrace(s, after);
    PrependEnd(MissionFields(items, 0), after + 2);
    BracketAtHead(s, i);
  }

  lemma BlockShape(queue: seq<string>)
    ensures |QueueBlock(queue)| >= BRACE_OFFSET + 6 && QueueBlock(queue)[0] == '['
  {
    hide MissionLines;
    ItemsShape(JsonPaths(queue));
    assert StringFieldHead("", MISSION_LIST)[0] == '[';
  }

  lemma BlockParts(s: string, i: nat, queue: seq<string>)
    requires Lies(s, i, QueueBlock(queue))
    ensures Lies(s, i, StringFieldHead("", MISSION_LIST))
  {
    hide Lies, ItemsBlock, MissionLines, StringFieldHead;
    ItemsParts(s, i, JsonPaths(queue));
  }

  lemma PlainItems(queue: seq<string>)
    requires PlainQueue(queue)
    ensures WritableMissions(JsonPaths(queue))
  {
    hide PlainPath;
  }

  lemma ReadQueueBlock(s: string, i: nat, queue: seq<string>)
    requires Lies(s, i, QueueBlock(queue))
    requires PlainQueue(queue)
    ensures var close := i + |QueueBlock(queue)| - 2;
            && BlockRead(s, i, i + BRACE_OFFSET, close, MissionFields(JsonPaths(queue), 0))
            && At(s, close, '}') && At(s, close + 1, ',')
  {
    hide Lies, BlockRead, MissionFields, ItemsBlock, PlainQueue, WritableMissions;
    PlainItems(queue);
    ReadItemsBlock(s, i, JsonPaths(queue));
  }

  lemma BracketAtHead(s: string, i: nat)
    requires Lies(s, i, StringFieldHead("", MISSION_LIST))
    ensures At(s, i, '[')
  {
    assert s[i] == StringFieldHead("", MISSION_LIST)[0];
  }

  lemma PrependEnd(fields: seq<Field>, end: nat)
    ensures Prepend(fields, Some(([], end))) == Some((fields, end))
  {
    assert fields + [] == fields;
  }

  // ---------------------------------------------------------------------------------------------
  // The search finds the printed block again
  // ---------------------------------------------------------------------------------------------

  lemma {:induction false} FindIs(s: string, pattern: string, i: nat, n: nat)
    requires i <= n <= |s|
    requires forall j :: i <= j < n ==> !OccursAt(s, pattern, j)
    requires OccursAt(s, pattern, n)
    ensures Find(s, pattern, i) == Some(n)
    decreases n - i
  {
    hide OccursAt;
    if i < n {
      FindIs(s, pattern, i + 1, n);
    }
  }

  lemma OneCharOccurs(s: string, c: char, i: nat)
    ensures OccursAt(s, [c], i) <==> At(s, i, c)
  {
    if i < |s| {
      assert s[i..i + 1] == [s[i]];
    }
  }

  // The first c after text that does not hold it.
  lemma FindChar(s: string, i: nat, text: string, c: char)
    requires Lies(s, i, text) && c !in text
    requires At(s, i + |text|, c)
    ensures Find(s, [c], i) == Some(i + |text|)
  {
    hide OccursAt;
    forall j | i <= j <= i + |text|
      ensures OccursAt(s, [c], j) <==> j == i + |text|
    {
      OneCharOccurs(s, c, j);
      if j < i + |text| {
        assert s[j] == text[j - i];
      }
    }
    FindIs(s, [c], i, i + |text|);
  }

  // A c inside the text is found no later than there.
  lemma FindCharInside(s: string, i: nat, text: string, c: char)
    requires Lies(s, i, text) && c in text
    ensures Find(s, [c], i).Some? && Find(s, [c], i).value < i + |text|
  {
    var k :| 0 <= k < |text| && text[k] == c;
    OneCharOccurs(s, c, i + k);
    FindNoLater(s, [c], i, i + k);
  }

  lemma {:induction false} FindNoLater(s: string, pattern: string, i: nat, n: nat)
    requires i <= n <= |s| && OccursAt(s, pattern, n)
    ensures Find(s, pattern, i).Some? && Find(s, pattern, i).value <= n
    decreases n - i
  {
    hide OccursAt;
    if !OccursAt(s, pattern, i) {
      FindNoLater(s, pattern, i + 1, n);
    }
  }

  // Two texts that agree up to the end of a pattern's first occurrence have it in the same place.
  lemma FindAgain(s: string, t: string, pattern: string, i: nat)
    requires Find(s, pattern, 0) == Some(i)
    requires i + |pattern| <= |s| && i + |pattern| <= |t|
    requires s[..i + |pattern|] == t[..i + |pattern|]
    ensures Find(t, pattern, 0) == Some(i)
  {
    hide Find, OccursAt;
    FoundOccurs(s, pattern, 0);
    forall j | 0 <= j <= i
      ensures OccursAt(s, pattern, j) == OccursAt(t, pattern, j)
    {
      SameOccurrence(s, t, pattern, i + |pattern|, j);
    }
    FindIs(t, pattern, 0, i);
  }

  lemma SameOccurrence(s: string, t: string, pattern: string, n: nat, j: nat)
    requires j + |pattern| <= n <= |s| && n <= |t| && s[..n] == t[..n]
    ensures OccursAt(s, pattern, j) == OccursAt(t, pattern, j)
  {
    assert s[j..j + |pattern|] == s[..n][j..j + |pattern|];
    assert t[j..j + |pattern|] == t[..n][j..j + |pattern|];
  }

  // No path of the queue holds a closing brace.
  predicate BraceFree(queue: seq<string>) {
    forall path <- queue :: '}' !in path
  }

  lemma {:induction false} ReplaceKeepsBrace(path: string)
    ensures '}' in EscapePath(path) <==> '}' in path
  {
    if path != "" {
      ReplaceKeepsBrace(path[1..]);
      assert path == [path[0]] + path[1..];
    }
  }

  lemma LineHoldsBrace(number: nat, path: string)
    ensures '}' in MissionLine(number, path) <==> '}' in path
  {
    hide EscapePath;
    ReplaceKeepsBrace(path);
    var digits := IntText(number);
    assert '}' !in digits;
    assert '}' !in "\t\t[" && '}' !in "] = \"" && '}' !in "\",\r\n";
  }

  predicate NoBraces(items: seq<Json>) {
    forall item <- items :: item.JString? ==> '}' !in item.s
  }

  lemma {:induction false} LinesHoldBrace(items: seq<Json>, before: nat)
    ensures '}' in MissionLines(items, before) <==> !NoBraces(items)
    decreases |items|
  {
    hide MissionLine;
    if items != [] {
      if items[0].JString? {
        LineHoldsBrace(before + 1, items[0].s);
      }
      LinesHoldBrace(items[1..], before + 1);
      assert items == [items[0]] + items[1..];
    }
  }

  // In a file with the printed block at i, the search finds that block exactly when no path of the
  // items holds a closing brace.
  lemma SpanOfItems(t: string, i: nat, items: seq<Json>)
    requires Lies(t, i, ItemsBlock(items))
    requires Find(t, BLOCK_KEY, 0) == Some(i)
    ensures var close := i + |ItemsBlock(items)| - 2;
            && BlockSpan(t).Some? && BlockSpan(t).value.start == i && BlockSpan(t).value.brace == i + BRACE_OFFSET
            && (NoBraces(items) ==> BlockSpan(t) == Some(Span(i, i + BRACE_OFFSET, close, close + 2)))
            && (!NoBraces(items) ==> BlockSpan(t).value.close < close)
  {
    hide Lies, MissionLines, ItemsBlock, StringFieldHead, NoBraces, Find;
    ItemsParts(t, i, items);
    var lines := MissionLines(items, 0);
    var brace, body := i + BRACE_OFFSET, i + BRACE_OFFSET + 3;
    LiesChar(t, brace, '{');
    LiesChar(t, body + |lines| + 1, '}');
    LiesChar(t, body + |lines| + 2, ',');
    HeadHoldsNoBrace(t, i);
    FindChar(t, i, StringFieldHead("", MISSION_LIST) + "\r\n\t", '{');
    LinesHoldBrace(items, 0);
    LiesJoin(t, brace, "{", "\r\n");
    LiesJoin(t, brace, "{" + "\r\n", lines);
    LiesJoin(t, brace, "{" + "\r\n" + lines, "\t");
    assert "{" + "\r\n" + lines + "\t" == "{" + "\r\n" + lines + "\t" + "";
    if NoBraces(items) {
      FindChar(t, brace, "{" + "\r\n" + lines + "\t", '}');
    } else {
      FindCharInside(t, brace, "{" + "\r\n" + lines + "\t", '}');
    }
  }

  lemma BraceFreeItems(queue: seq<string>)
    ensures NoBraces(JsonPaths(queue)) <==> BraceFree(queue)
  {
    forall path | path in queue
      ensures JString(path) in JsonPaths(queue)
    {
      var i :| 0 <= i < |queue| && queue[i] == path;
      assert JsonPaths(queue)[i] == JString(path);
    }
  }

  lemma SpanOfPrinted(t: string, i: nat, queue: seq<string>)
    requires Lies(t, i, QueueBlock(queue))
    requires Find(t, BLOCK_KEY, 0) == Some(i)
    ensures var close := i + |QueueBlock(queue)| - 2;
            && BlockSpan(t).Some? && BlockSpan(t).value.start == i && BlockSpan(t).value.brace == i + BRACE_OFFSET
            && (BraceFree(queue) ==> BlockSpan(t) == Some(Span(i, i + BRACE_OFFSET, close, close + 2)))
            && (!BraceFree(queue) ==> BlockSpan(t).value.close < close)
  {
    hide Lies, ItemsBlock, BlockSpan, Find, NoBraces, BraceFree;
    BraceFreeItems(queue);
    SpanOfItems(t, i, JsonPaths(queue));
  }

  lemma HeadHoldsNoBrace(t: string, i: nat)
    requires Lies(t, i, StringFieldHead("", MISSION_LIST)) && Lies(t, i + HEAD_LENGTH, "\r\n\t")
    requires |StringFieldHead("", MISSION_LIST)| == HEAD_LENGTH
    ensures '{' !in StringFieldHead("", MISSION_LIST) + "\r\n\t"
    ensures Lies(t, i, StringFieldHead("", MISSION_LIST) + "\r\n\t")
  {
    LiesJoin(t, i, StringFieldHead("", MISSION_LIST), "\r\n\t");
  }

  lemma LiesJoin(s: string, i: nat, x: string, y: string)
    requires Lies(s, i, x) && Lies(s, i + |x|, y)
    ensures Lies(s, i, x + y)
  {
    forall k | 0 <= k < |x + y|
      ensures s[i + k] == (x + y)[k]
    {
      if k >= |x| {
        assert s[i + |x| + (k - |x|)] == y[k - |x|];
      }
    }
  }

  // ---------------------------------------------------------------------------------------------
  // One edit
  // ---------------------------------------------------------------------------------------------

  // The file with the searched block replaced by the printed queue.
  function Edited(s: string, span: Span, queue: seq<string>): string
    requires span.start <= |s| && span.end <= |s|
  {
    s[..span.start] + QueueBlock(queue) + s[span.end..]
  }

  function NewClose(span: Span, queue: seq<string>): nat {
    BlockShape(queue);
    span.start + |QueueBlock(queue)| - 2
  }

  // The text before the block is the old one, and the block is followed by the old rest.
  lemma EditedParts(s: string, span: Span, queue: seq<string>)
    requires span.start <= |s| && span.end <= |s|
    requires At(s, span.start, '[')
    ensures var t := Edited(s, span, queue);
            && Agree(s, t, 0, 0, span.start)
            && Lies(t, span.start, QueueBlock(queue))
            && NewClose(span, queue) + 2 <= |t|
  {
    hide QueueBlock;
    var block := QueueBlock(queue);
    var t := Edited(s, span, queue);
    BlockShape(queue);
    LiesInside(s[..span.start], block, s[span.end..]);
    assert t[span.start] == block[0];
  }

  lemma OutsideUnchanged(s: string, span: Span, queue: seq<string>)
    requires span.start <= |s| && span.end <= |s|
    ensures var t := Edited(s, span, queue);
            && NewClose(span, queue) + 2 <= |t|
            && t[..span.start] == s[..span.start]
            && t[NewClose(span, queue) + 2..] == s[span.end..]
  {
    hide QueueBlock;
    BlockShape(queue);
  }

  // A printed block in place of another one, as Lua reads it.
  lemma BlockInPlace(s: string, t: string, inside: nat, before: seq<Field>, start: nat, queue: seq<string>)
    requires Agree(s, t, 0, 0, start) && Lies(t, start, QueueBlock(queue)) && PlainQueue(queue)
    requires inside <= start && ReadOpening(s) == Some(inside)
    requires FieldsUpTo(s, inside, start) == Some(before)
    ensures var close := start + |QueueBlock(queue)| - 2;
            && start <= close && close + 1 < |t|
            && ReadOpening(t) == Some(inside)
            && FieldsUpTo(t, inside, start) == Some(before)
            && BlockRead(t, start, start + BRACE_OFFSET, close, MissionFields(JsonPaths(queue), 0))
            && At(t, close + 1, ',')
  {
    hide BlockRead, FieldsUpTo, ReadOpening, QueueBlock, Agree, Lies, MissionFields, PlainQueue;
    AgreeBounds(s, t, 0, 0, start);
    BlockShape(queue);
    ReadOpeningLocal(s, t, start);
    FieldsUpToLocal(s, t, start, inside);
    ReadQueueBlock(t, start, queue);
  }

  // A comma in place of what followed the old block: the rest of the file goes on as before exactly when
  // the block was well separated.
  lemma TailInPlace(s: string, t: string, i: nat, k: nat)
    requires i <= |s| && AfterField(s, i).Some? && Skip(s, AfterField(s, i).value.1) == |s|
    requires At(t, k, ',') && t[k + 1..] == s[if At(s, i, ',') then i + 1 else i..]
    ensures At(s, i, ',') || At(s, Skip(s, i), '}') ==>
              && AfterField(t, k).Some? && AfterField(t, k).value.0 == AfterField(s, i).value.0
              && Skip(t, AfterField(t, k).value.1) == |t|
    ensures !(At(s, i, ',') || At(s, Skip(s, i), '}')) ==> AfterField(t, k) == None
  {
    hide Skip, AfterField;
    if At(s, i, ',') {
      AfterFieldMoved(s, t, i, k);
    } else if At(s, Skip(s, i), '}') {
      TailAfterComma(s, t, i, k);
    } else {
      SeparatorFollows(s, i);
      NoTailAfterComma(s, t, i, k);
    }
  }

  lemma SeparatorFollows(s: string, i: nat)
    requires i <= |s| && AfterField(s, i).Some? && !At(s, Skip(s, i), '}')
    ensures At(s, Skip(s, i), ',') || At(s, Skip(s, i), ';')
  {
    hide ReadFields, Skip;
  }

  // Where the table was closed right after the block, the new comma changes nothing.
  lemma TailAfterComma(s: string, t: string, i: nat, k: nat)
    requires i <= |s| && At(t, k, ',') && s[i..] == t[k + 1..]
    requires At(s, Skip(s, i), '}') && AfterField(s, i).Some? && Skip(s, AfterField(s, i).value.1) == |s|
    ensures AfterField(t, k) == Some(([], Skip(t, k + 1) + 1)) && AfterField(s, i).value.0 == []
    ensures Skip(t, Skip(t, k + 1) + 1) == |t|
  {
    hide ReadFields, Skip;
    SkipNothing(t, k);
    SkipMoved(s, t, i, k + 1);
    AfterFieldMoved(s, t, i, k + 1);
    ReadClosingBrace(t, k + 1);
  }

  // Where another separator stood, the new comma makes two of them.
  lemma NoTailAfterComma(s: string, t: string, i: nat, k: nat)
    requires i <= |s| && At(t, k, ',') && s[i..] == t[k + 1..]
    requires At(s, Skip(s, i), ',') || At(s, Skip(s, i), ';')
    ensures AfterField(t, k) == None
  {
    hide ReadFields, Skip;
    SkipNothing(t, k);
    SkipMoved(s, t, i, k + 1);
    ReadFieldsNeedsBracket(t, k + 1);
  }

  lemma SkipMoved(s: string, t: string, i: nat, k: nat)
    requires i <= |s| && k <= |t| && s[i..] == t[k..]
    ensures forall c :: At(s, Skip(s, i), c) == At(t, Skip(t, k), c)
  {
    hide Skip, Agree;
    SameTails(s, t, i, k);
    var j := SkipTo(s, t, k - i, i, |s|, i);
  }

  lemma ReadFieldsNeedsBracket(s: string, i: nat)
    requires i <= |s| && !At(s, Skip(s, i), '}') && !At(s, Skip(s, i), '[')
    ensures ReadFields(s, i) == None
  {
    hide Skip, ReadValue;
  }

  // The view of the edited file.
  function NewView(s: string, span: Span, v: View, queue: seq<string>): View
    requires span.start <= |s| && span.end <= |s|
    requires NewClose(span, queue) + 1 <= |Edited(s, span, queue)|
  {
    var rest := AfterField(Edited(s, span, queue), NewClose(span, queue) + 1);
    v.(missions := MissionFields(JsonPaths(queue), 0), end := if rest.Some? then rest.value.1 else 0)
  }

  lemma EditedPrefix(s: string, span: Span, v: View, queue: seq<string>)
    requires Sees(s, span, v) && PlainQueue(queue)
    ensures var t, close := Edited(s, span, queue), NewClose(span, queue);
            && close + 1 < |t|
            && ReadOpening(t) == Some(v.inside)
            && FieldsUpTo(t, v.inside, span.start) == Some(v.before)
            && BlockRead(t, span.start, span.start + BRACE_OFFSET, close, MissionFields(JsonPaths(queue), 0))
            && At(t, close + 1, ',')
  {
    hide Skip, BlockRead, AfterField, FieldsUpTo, ReadOpening, NoMissionList, QueueBlock, Agree, Lies,
         MissionFields, Edited, BlockSpan, PlainQueue;
    ReadBlockField(s, span.start, span.brace, span.close, v.missions);
    EditedParts(s, span, queue);
    BlockInPlace(s, Edited(s, span, queue), v.inside, v.before, span.start, queue);
  }

  lemma EditedTail(s: string, span: Span, v: View, queue: seq<string>)
    requires Sees(s, span, v)
    requires var close := NewClose(span, queue); At(Edited(s, span, queue), close + 1, ',')
    ensures var t, close := Edited(s, span, queue), NewClose(span, queue);
            && (WellSeparated(s, span) ==> AfterField(t, close + 1).Some? && AfterField(t, close + 1).value.0 == v.after
                                           && Skip(t, AfterField(t, close + 1).value.1) == |t|)
            && (!WellSeparated(s, span) ==> AfterField(t, close + 1) == None)
  {
    hide Skip, BlockRead, AfterField, FieldsUpTo, ReadOpening, NoMissionList, QueueBlock, Agree, Lies,
         MissionFields, Edited;
    OutsideUnchanged(s, span, queue);
    TailInPlace(s, Edited(s, span, queue), span.close + 1, NewClose(span, queue) + 1);
  }

  lemma EditedReads(s: string, span: Span, v: View, queue: seq<string>)
    requires Sees(s, span, v) && PlainQueue(queue)
    ensures var t, close := Edited(s, span, queue), NewClose(span, queue);
            && close + 1 < |t|
            && ReadOpening(t) == Some(v.inside)
            && FieldsUpTo(t, v.inside, span.start) == Some(v.before)
            && BlockRead(t, span.start, span.start + BRACE_OFFSET, close, MissionFields(JsonPaths(queue), 0))
            && At(t, close + 1, ',')
            && (WellSeparated(s, span) ==> AfterField(t, close + 1).Some? && AfterField(t, close + 1).value.0 == v.after
                                           && Skip(t, AfterField(t, close + 1).value.1) == |t|)
            && (!WellSeparated(s, span) ==> AfterField(t, close + 1) == None)
  {
    hide Skip, BlockRead, AfterField, FieldsUpTo, ReadOpening, NoMissionList, QueueBlock, MissionFields, Edited,
         BlockSpan, PlainQueue, WellSeparated, NewClose;
    EditedPrefix(s, span, v, queue);
    EditedTail(s, span, v, queue);
  }

  /** The edited file can be read exactly when the block was followed by a comma or closed the table;
      then its mission list is the queue and every other field is unchanged. */
  lemma EditedFile(s: string, span: Span, v: View, queue: seq<string>)
    requires Sees(s, span, v) && PlainQueue(queue)
    ensures ReadFile(Edited(s, span, queue)) ==
            if WellSeparated(s, span) then Some(Fields(v.(missions := MissionFields(JsonPaths(queue), 0)))) else None
  {
    hide ReadFields, Skip, BlockRead, AfterField, FieldsUpTo, ReadOpening, BlockSpan, NoMissionList, QueueBlock,
         MissionFields, Edited, Prepend, WellSeparated, PlainQueue;
    var t, close := Edited(s, span, queue), NewClose(span, queue);
    var missions := MissionFields(JsonPaths(queue), 0);
    EditedReads(s, span, v, queue);
    var newSpan := Span(span.start, span.start + BRACE_OFFSET, close, close + 2);
    ReadAroundBlock(t, v.inside, v.before, newSpan, missions);
    var rest := AfterField(t, close + 1);
    PrependCases(v.before + [Field(KStr(MISSION_LIST), LTable(missions))], rest);
    assert v.before + [Field(KStr(MISSION_LIST), LTable(missions))] + v.after == Fields(v.(missions := missions));
  }

  lemma PrependCases(fields: seq<Field>, r: Read<seq<Field>>)
    ensures Prepend(fields, r) == if r.None? then None else Some((fields + r.value.0, r.value.1))
  {
  }

  /** After a readable edit the search finds the block that Lua reads exactly when no path of the queue
      holds a closing brace. */
  lemma EditedSees(s: string, span: Span, v: View, queue: seq<string>)
    requires Sees(s, span, v) && PlainQueue(queue) && WellSeparated(s, span)
    ensures var t, close := Edited(s, span, queue), NewClose(span, queue);
            var newSpan := Span(span.start, span.start + BRACE_OFFSET, close, close + 2);
            && close + 1 <= |t|
            && (BraceFree(queue) ==> Sees(t, newSpan, NewView(s, span, v, queue)) && WellSeparated(t, newSpan))
            && (!BraceFree(queue) ==> BlockSpan(t).Some? && BlockSpan(t).value.close < close)
  {
    hide ReadFields, Skip, BlockRead, FieldsUpTo, ReadOpening, BlockSpan, NoMissionList, QueueBlock, Agree, Lies,
         MissionFields, Edited, PlainQueue, BraceFree, AfterField;
    var t := Edited(s, span, queue);
    EditedReads(s, span, v, queue);
    PrintedSpan(s, span, v, queue);
  }

  lemma PrintedSpan(s: string, span: Span, v: View, queue: seq<string>)
    requires Sees(s, span, v)
    ensures var t, close := Edited(s, span, queue), NewClose(span, queue);
            && BlockSpan(t).Some?
            && (BraceFree(queue) ==>
                  BlockSpan(t) == Some(Span(span.start, span.start + BRACE_OFFSET, close, close + 2)))
            && (!BraceFree(queue) ==> BlockSpan(t).value.close < close)
  {
    hide ReadFields, Skip, BlockRead, FieldsUpTo, ReadOpening, BlockSpan, NoMissionList, QueueBlock, Agree, Lies,
         Edited, BraceFree, AfterField;
    var t := Edited(s, span, queue);
    ReadBlockField(s, span.start, span.brace, span.close, v.missions);
    EditedParts(s, span, queue);
    OutsideUnchanged(s, span, queue);
    KeyFoundAgain(s, t, span, queue);
    SpanOfPrinted(t, span.start, queue);
  }

  lemma KeyFoundAgain(s: string, t: string, span: Span, queue: seq<string>)
    requires BlockSpan(s) == Some(span)
    requires span.start <= |t| && t[..span.start] == s[..span.start]
    requires Lies(t, span.start, QueueBlock(queue))
    ensures Find(t, BLOCK_KEY, 0) == Some(span.start)
  {
    hide Find, MissionLines, Lies, QueueBlock, OccursAt, BlockSpan, StringFieldHead;
    SpanStart(s, span);
    FoundOccurs(s, BLOCK_KEY, 0);
    BlockParts(t, span.start, queue);
    KeyAtHead(t, span.start);
    PrefixesAgree(s, t, span.start, BLOCK_KEY);
    FindAgain(s, t, BLOCK_KEY, span.start);
  }

  lemma SpanStart(s: string, span: Span)
    requires BlockSpan(s) == Some(span)
    ensures Find(s, BLOCK_KEY, 0) == Some(span.start)
  {
    hide Find;
  }

  lemma KeyAtHead(t: string, i: nat)
    requires Lies(t, i, StringFieldHead("", MISSION_LIST))
    ensures OccursAt(t, BLOCK_KEY, i) && i <= |t|
  {
    hide Lies;
    assert StringFieldHead("", MISSION_LIST) == BLOCK_KEY + " = ";
    LiesSplit(t, i, BLOCK_KEY, " = ");
    LiesSlice(t, i, BLOCK_KEY);
    LiesBounds(t, i, BLOCK_KEY);
  }

  lemma PrefixesAgree(s: string, t: string, i: nat, x: string)
    requires i <= |s| && i <= |t| && s[..i] == t[..i]
    requires OccursAt(s, x, i) && OccursAt(t, x, i)
    ensures i + |x| <= |s| && i + |x| <= |t| && s[..i + |x|] == t[..i + |x|]
  {
    assert s[..i + |x|] == s[..i] + s[i..i + |x|];
    assert t[..i + |x|] == t[..i] + t[i..i + |x|];
  }

  // ---------------------------------------------------------------------------------------------
  // Settings
  // ---------------------------------------------------------------------------------------------

  // Tables that differ at most in the mission list.
  ghost predicate SameElsewhere(a: map<LuaKey, LuaValue>, b: map<LuaKey, LuaValue>) {
    a - {KStr(MISSION_LIST)} == b - {KStr(MISSION_LIST)}
  }

  lemma {:induction false} AssignedElsewhere(a: map<LuaKey, LuaValue>, b: map<LuaKey, LuaValue>, fields: seq<Field>)
    requires SameElsewhere(a, b) && NoMissionList(fields)
    ensures SameElsewhere(Assigned(a, fields), Assigned(b, fields))
    ensures Get(Assigned(a, fields), KStr(MISSION_LIST)) == Get(a, KStr(MISSION_LIST))
    decreases |fields|
  {
    if fields != [] {
      AssignElsewhere(a, b, fields[0]);
      hide SameElsewhere, Assign, Get;
      AssignedElsewhere(Assign(a, fields[0]), Assign(b, fields[0]), fields[1..]);
    }
  }

  lemma AssignElsewhere(a: map<LuaKey, LuaValue>, b: map<LuaKey, LuaValue>, field: Field)
    requires SameElsewhere(a, b) && field.key != KStr(MISSION_LIST)
    ensures SameElsewhere(Assign(a, field), Assign(b, field))
    ensures Get(Assign(a, field), KStr(MISSION_LIST)) == Get(a, KStr(MISSION_LIST))
  {
    var x, y := a - {KStr(MISSION_LIST)}, b - {KStr(MISSION_LIST)};
    assert Assign(a, field) - {KStr(MISSION_LIST)} == Assign(x, field);
    assert Assign(b, field) - {KStr(MISSION_LIST)} == Assign(y, field);
  }

  // The mission list is the block's, and everything else does not depend on the block.
  lemma SettingsOfView(v: View, missions: seq<Field>)
    requires NoMissionList(v.before) && NoMissionList(v.after)
    ensures SettingsOf(Fields(v.(missions := missions))) ==
            SettingsOf(Fields(v)).(missions := Some(MissionsOf(LTable(missions))))
  {
    hide Assigned, NoMissionList, MissionsOf, AdvancedOf, ScalarsOf;
    var a, b := TableOf(Fields(v)), TableOf(Fields(v.(missions := missions)));
    TableOfView(v, v.missions);
    TableOfView(v, missions);
    assert v == v.(missions := v.missions);
    var x, y := Assigned(map[], v.before)[KStr(MISSION_LIST) := LTable(v.missions)],
                Assigned(map[], v.before)[KStr(MISSION_LIST) := LTable(missions)];
    assert SameElsewhere(x, y);
    AssignedElsewhere(x, y, v.after);
    AssignedElsewhere(y, x, v.after);
    MissingOnlyMissions(a, b);
  }

  lemma TableOfView(v: View, missions: seq<Field>)
    ensures TableOf(Fields(v.(missions := missions))) ==
            Assigned(Assigned(map[], v.before)[KStr(MISSION_LIST) := LTable(missions)], v.after)
  {
    var field := Field(KStr(MISSION_LIST), LTable(missions));
    AssignedAppend(map[], v.before, [field] + v.after);
    AssignedFirst(Assigned(map[], v.before), field, v.after);
  }

  lemma MissingOnlyMissions(a: map<LuaKey, LuaValue>, b: map<LuaKey, LuaValue>)
    requires SameElsewhere(a, b)
    ensures a - {KStr(ADVANCED), KStr(MISSION_LIST)} == b - {KStr(ADVANCED), KStr(MISSION_LIST)}
    ensures Get(a, KStr(ADVANCED)) == Get(b, KStr(ADVANCED))
  {
    var x, y := a - {KStr(MISSION_LIST)}, b - {KStr(MISSION_LIST)};
    assert a - {KStr(ADVANCED), KStr(MISSION_LIST)} == x - {KStr(ADVANCED)};
    assert b - {KStr(ADVANCED), KStr(MISSION_LIST)} == y - {KStr(ADVANCED)};
    assert Get(a, KStr(ADVANCED)) == Get(x, KStr(ADVANCED));
    assert Get(b, KStr(ADVANCED)) == Get(y, KStr(ADVANCED));
  }

  lemma {:induction false} LeadingPaths(queue: seq<string>)
    ensures LeadingStrings(JsonPaths(queue)) == queue
    decreases |queue|
  {
    if queue != [] {
      assert JsonPaths(queue)[1..] == JsonPaths(queue[1..]);
      LeadingPaths(queue[1..]);
    }
  }

  /** Loading the edited file: the mission list is the queue and all other settings are the old ones,
      exactly when the old block was followed by a comma or closed the table; otherwise the file can no
      longer be read. */
  lemma EditedSettings(s: string, span: Span, v: View, queue: seq<string>)
    requires Sees(s, span, v) && PlainQueue(queue)
    ensures LoadSettings(s).Some?
    ensures LoadSettings(Edited(s, span, queue)) ==
            if WellSeparated(s, span) then Some(LoadSettings(s).value.(missions := Some(queue))) else None
  {
    hide ReadFile, Edited, Fields, SettingsOf, MissionFields, MissionsOf, LeadingStrings, WellSeparated, PlainQueue,
         BlockSpan, AfterField, FieldsUpTo, BlockRead, ReadOpening;
    SeesFile(s, span, v);
    EditedFile(s, span, v, queue);
    SettingsOfView(v, MissionFields(JsonPaths(queue), 0));
    MissionsRead(JsonPaths(queue));
    LeadingPaths(queue);
  }

  lemma SeenMissions(s: string, span: Span, v: View)
    requires Sees(s, span, v)
    ensures LoadSettings(s).Some? && LoadSettings(s).value.missions.Some?
  {
    hide ReadFile, Fields, SettingsOf, MissionsOf, BlockSpan, AfterField, FieldsUpTo, BlockRead, ReadOpening;
    SeesFile(s, span, v);
    SettingsOfView(v, v.missions);
    assert v.(missions := v.missions) == v;
  }

  // ---------------------------------------------------------------------------------------------
  // Runs of edits
  // ---------------------------------------------------------------------------------------------

  datatype Request = Request(action: QueueAction, file: string)

  // The file after a run of requests; None as soon as one of them fails.
  function RunFile(content: string, requests: seq<Request>): Option<string>
    decreases |requests|
  {
    if requests == [] then Some(content)
    else
      var next :- MutatedText(content, requests[0].action, requests[0].file);
      RunFile(next, requests[1..])
  }

  // The same run on a plain list.
  function RunQueue(queue: seq<string>, requests: seq<Request>): seq<string>
    decreases |requests|
  {
    if requests == [] then queue
    else RunQueue(Requested(queue, requests[0].action, requests[0].file), requests[1..])
  }

  // A path that survives printing and does not stop the search for the block's end.
  predicate CleanPath(path: string) {
    PlainPath(path) && '}' !in path
  }

  predicate CleanQueue(queue: seq<string>) {
    forall path <- queue :: CleanPath(path)
  }

  // A file ready for edits: Lua reads the searched block, nothing but a comma or the table's end
  // follows it, and the queued paths are clean.
  ghost predicate Ready(s: string) {
    exists span, v :: ReadyAt(s, span, v)
  }

  ghost predicate ReadyAt(s: string, span: Span, v: View) {
    && Sees(s, span, v) && WellSeparated(s, span)
    && LoadSettings(s).Some? && CleanQueue(MissionQueue(LoadSettings(s).value))
  }

  // The text before and after the searched block.
  function Outside(s: string): Option<(string, string)> {
    var span :- BlockSpan(s);
    Some((s[..span.start], s[span.end..]))
  }

  lemma {:induction false} RequestedClean(queue: seq<string>, action: QueueAction, file: string)
    requires CleanQueue(queue) && CleanPath(file)
    ensures CleanQueue(Requested(queue, action, file))
  {
    hide CleanPath;
    if action == Remove {
      RemovedSubset(queue, file);
    }
  }

  lemma {:induction false} RemovedSubset(queue: seq<string>, file: string)
    ensures forall path <- RemoveFirst(queue, file) :: path in queue
  {
    if queue != [] && queue[0] != file {
      RemovedSubset(queue[1..], file);
    }
  }

  lemma CleanIsPlain(queue: seq<string>)
    requires CleanQueue(queue)
    ensures PlainQueue(queue) && BraceFree(queue)
  {
  }

  // One request on a ready file.
  lemma RequestOnReady(s: string, span: Span, v: View, action: QueueAction, file: string)
    requires ReadyAt(s, span, v) && CleanPath(file)
    ensures var queue := Requested(MissionQueue(LoadSettings(s).value), action, file);
            && MutatedText(s, action, file).Some?
            && var t := MutatedText(s, action, file).value;
               && Ready(t)
               && LoadSettings(t).Some?
               && MissionQueue(LoadSettings(t).value) == queue
               && LoadSettings(t).value.(missions := None) == LoadSettings(s).value.(missions := None)
               && Outside(t) == Outside(s)
  {
    hide LoadSettings, BlockSpan, AfterField, FieldsUpTo, BlockRead, ReadOpening, Edited, WellSeparated, CleanPath,
         Requested, NoMissionList, QueueBlock;
    var queued := MissionQueue(LoadSettings(s).value);
    var queue := Requested(queued, action, file);
    if action == Add && file in queued {
      KeptWhenQueued(queued, file);
    } else {
      RequestedClean(queued, action, file);
      CleanIsPlain(queue);
      EditedSettings(s, span, v, queue);
      MutatedIsEdited(s, span, action, file);
      EditedSees(s, span, v, queue);
      var t := Edited(s, span, queue);
      var newSpan := Span(span.start, span.start + BRACE_OFFSET, NewClose(span, queue), NewClose(span, queue) + 2);
      assert ReadyAt(t, newSpan, NewView(s, span, v, queue));
      OutsideUnchanged(s, span, queue);
    }
  }

  lemma KeptWhenQueued(queue: seq<string>, file: string)
    requires file in queue
    ensures Requested(queue, Add, file) == queue
  {
  }

  lemma MutatedIsEdited(s: string, span: Span, action: QueueAction, file: string)
    requires BlockSpan(s) == Some(span) && LoadSettings(s).Some?
    requires !(action == Add && file in MissionQueue(LoadSettings(s).value))
    ensures MutatedText(s, action, file) ==
            Some(Edited(s, span, Requested(MissionQueue(LoadSettings(s).value), action, file)))
  {
    hide LoadSettings, BlockSpan, QueueBlock, Requested;
  }

  /** Any run of requests with clean paths, on a ready file, acts on it as on a plain list: every request
      succeeds, the file stays ready, its queue is the list after the same run, and all other settings
      and all text outside the block stay as they were. */
  lemma {:induction false} RunRefinesList(s: string, requests: seq<Request>)
    requires Ready(s)
    requires forall r <- requests :: CleanPath(r.file)
    ensures LoadSettings(s).Some? && RunFile(s, requests).Some?
    ensures var t := RunFile(s, requests).value;
            && Ready(t)
            && LoadSettings(t).Some?
            && MissionQueue(LoadSettings(t).value) == RunQueue(MissionQueue(LoadSettings(s).value), requests)
            && LoadSettings(t).value.(missions := None) == LoadSettings(s).value.(missions := None)
            && Outside(t) == Outside(s)
    decreases |requests|
  {
    hide LoadSettings, ReadyAt, MutatedText, Outside, CleanPath, Requested;
    ReadyLoads(s);
    if requests != [] {
      var request := requests[0];
      var span, v :| ReadyAt(s, span, v);
      RequestOnReady(s, span, v, request.action, request.file);
      RunRefinesList(MutatedText(s, request.action, request.file).value, requests[1..]);
    }
  }

  lemma ReadyLoads(s: string)
    requires Ready(s)
    ensures LoadSettings(s).Some?
  {
    hide LoadSettings, Sees;
  }

  // ---------------------------------------------------------------------------------------------
  // Laws of the list
  // ---------------------------------------------------------------------------------------------

  /** Adding a mission twice leaves the very text that adding it once leaves. */
  lemma AddTwice(s: string, file: string)
    requires Ready(s) && CleanPath(file)
    ensures RunFile(s, [Request(Add, file), Request(Add, file)]) == RunFile(s, [Request(Add, file)])
  {
    hide LoadSettings, ReadyAt, ReplaceMissionListBlock, CleanPath, QueueBlock;
    ReadyLoads(s);
    var once := [Request(Add, file)];
    var span, v :| ReadyAt(s, span, v);
    RequestOnReady(s, span, v, Add, file);
    var t := MutatedText(s, Add, file).value;
    hide MutatedText;
    RunFirst(s, Request(Add, file), []);
    RunFirst(s, Request(Add, file), once);
    RunFirst(t, Request(Add, file), []);
    assert [Request(Add, file)] + once == [Request(Add, file), Request(Add, file)] && once + [] == once;
  }

  lemma RunFirst(s: string, request: Request, rest: seq<Request>)
    ensures RunFile(s, [request] + rest) ==
            (match MutatedText(s, request.action, request.file) case Some(t) => RunFile(t, rest) case None => None)
    ensures RunFile(s, []) == Some(s)
  {
    hide MutatedText;
    assert ([request] + rest)[1..] == rest;
  }

  lemma {:induction false} RemoveAdded(queue: seq<string>, file: string)
    requires file !in queue
    ensures RemoveFirst(queue + [file], file) == queue
  {
    if queue == [] {
      assert (queue + [file])[1..] == [];
    } else {
      assert (queue + [file])[1..] == queue[1..] + [file];
      RemoveAdded(queue[1..], file);
    }
  }

  /** Removing a mission right after adding it, when it was not queued before, restores the settings. */
  lemma AddThenRemove(s: string, file: string)
    requires Ready(s) && CleanPath(file)
    requires LoadSettings(s).Some? && file !in MissionQueue(LoadSettings(s).value)
    ensures var t := RunFile(s, [Request(Add, file), Request(Remove, file)]);
            t.Some? && LoadSettings(t.value).Some?
            && MissionQueue(LoadSettings(t.value).value) == MissionQueue(LoadSettings(s).value)
            && LoadSettings(t.value).value.(missions := None) == LoadSettings(s).value.(missions := None)
  {
    hide LoadSettings, Ready, CleanPath, RunFile, RunQueue, MissionQueue, Outside;
    RunRefinesList(s, [Request(Add, file), Request(Remove, file)]);
    ListAddThenRemove(MissionQueue(LoadSettings(s).value), file);
  }

  lemma ListAddThenRemove(queue: seq<string>, file: string)
    requires file !in queue
    ensures RunQueue(queue, [Request(Add, file), Request(Remove, file)]) == queue
  {
    var requests := [Request(Add, file), Request(Remove, file)];
    var last := [Request(Remove, file)];
    assert requests[1..] == last && last[1..] == [];
    RemoveAdded(queue, file);
    assert RunQueue(queue + [file], last) == RunQueue(queue, []);
    assert RunQueue(queue, requests) == RunQueue(queue + [file], last);
  }
}
