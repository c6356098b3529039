/**
 Foothold updates as JSON values, and what Lua reads in their place.
*/
module FootholdJson {
  import opened Options
  import opened Foothold
  import opened FootholdMeaning
  import opened FootholdLaw
  import opened LuaPrinting
  import LuaText

  type Change = (string, Json)

  // The texts of the new values; nested values are passed over.
  function Texts(changes: seq<Change>): seq<Update> {
    if changes == [] then []
    else Text(changes[0]) + Texts(changes[1..])
  }

  function Text(change: Change): seq<Update> {
    match ToLua(change.1) case Some(text) => [(change.0, text)] case None => []
  }

  lemma {:induction false} TextsPush(changes: seq<Change>, change: Change)
    ensures Texts(changes + [change]) == Texts(changes) + Text(change)
  {
    hide Text;
    if changes == [] {
      assert [] + [change] == [change] && [change][1..] == [];
    } else {
      assert (changes + [change])[1..] == changes[1..] + [change];
      TextsPush(changes[1..], change);
    }
  }

  /** The loop that turns the posted values into texts. */
  method ConvertUpdates(changes: seq<Change>) returns (strUpdates: seq<Update>)
    ensures strUpdates == Texts(changes)
  {
    hide ToLua;
    strUpdates := [];
    for i := 0 to |changes|
      invariant strUpdates == Texts(changes[..i])
    {
      var (key, val) := changes[i];
      TextsPush(changes[..i], changes[i]);
      assert changes[..i + 1] == changes[..i] + [changes[i]];
      match ToLua(val) {
        case Some(text) =>
          strUpdates := strUpdates + [(key, text)];
        case None =>
      }
    }
    assert changes[..|changes|] == changes;
  }

  predicate DistinctChanges(changes: seq<Change>) {
    forall i, j :: 0 <= i < j < |changes| ==> changes[i].0 != changes[j].0
  }

  lemma {:induction false} TextsAre(changes: seq<Change>, u: Update)
    requires u in Texts(changes)
    ensures exists change <- changes :: change.0 == u.0 && ToLua(change.1) == Some(u.1)
  {
    hide ToLua;
    assert changes == [changes[0]] + changes[1..];
    if u in Text(changes[0]) {
      assert changes[0] in changes;
    } else {
      TextsAre(changes[1..], u);
    }
  }

  lemma {:induction false} TextsDistinct(changes: seq<Change>)
    requires DistinctChanges(changes)
    ensures DistinctPaths(Texts(changes))
  {
    if changes != [] {
      hide ToLua;
      TextsDistinct(changes[1..]);
      forall u | u in Texts(changes[1..])
        ensures u.0 != changes[0].0
      {
        TextsAre(changes[1..], u);
        var change :| change in changes[1..] && change.0 == u.0;
        var j :| 0 <= j < |changes[1..]| && changes[1..][j] == change;
        assert changes[j + 1] == change;
      }
    }
  }

  lemma {:induction false} TextOfChange(changes: seq<Change>, k: string, value: Json)
    requires DistinctChanges(changes) && (k, value) in changes
    ensures Lookup(Texts(changes), k) == ToLua(value)
  {
    hide ToLua;
    var i :| 0 <= i < |changes| && changes[i] == (k, value);
    if i == 0 {
      forall u | u in Texts(changes[1..])
        ensures u.0 != k
      {
        TextsAre(changes[1..], u);
        var change :| change in changes[1..] && change.0 == u.0;
        var j :| 0 <= j < |changes[1..]| && changes[1..][j] == change;
        assert changes[j + 1] == change;
      }
      LookupAbsent(Texts(changes[1..]), k);
      assert [] + Texts(changes[1..]) == Texts(changes[1..]);
    } else {
      assert changes[1..][i - 1] == (k, value);
      assert changes[0].0 != k;
      TextOfChange(changes[1..], k, value);
      LookupPast(changes[0], Texts(changes[1..]), k);
    }
  }

  lemma LookupPast(change: Change, rest: seq<Update>, k: string)
    requires change.0 != k
    ensures Lookup(Text(change) + rest, k) == Lookup(rest, k)
  {
    if Text(change) == [] {
      assert [] + rest == rest;
    } else {
      assert (Text(change) + rest)[1..] == rest;
    }
  }

  // ---------------------------------------------------------------------------------------------
  // What Lua reads
  // ---------------------------------------------------------------------------------------------

  // The value of a text that stands before a comma.
  function Reading(text: string): Option<LuaText.LuaValue> {
    match LuaText.ReadValue(text + ",", 0)
    case Some((value, end)) => if end == |text| then Some(value) else None
    case None => None
  }

  /** A truth value is written as the word that Lua reads as it. */
  lemma BooleanReads(b: bool)
    ensures ToLua(JBool(b)).Some? && Reading(ToLua(JBool(b)).value) == Some(LuaText.LBool(b))
  {
    var text := ToLua(JBool(b)).value;
    var s := text + ",";
    NameEndsAt(s, |text|, 0);
    assert s[0..|text|] == text;
  }

  lemma {:induction false} NameEndsAt(s: string, n: nat, i: nat)
    requires i <= n < |s| && s[n] == ',' && forall k :: i <= k < n ==> LuaText.IsNameChar(s[k])
    ensures LuaText.NameEnd(s, i) == n
    decreases n - i
  {
    if i < n {
      NameEndsAt(s, n, i + 1);
    }
  }

  /** A whole number is written as digits that Lua reads as it. */
  lemma NumberReads(n: int)
    ensures Reading(ToLua(JNumber(IntText(n))).value) == Some(LuaText.LInt(n))
  {
    hide LuaText.ReadInt, LuaText.ReadString, LuaText.ReadFields;
    var text := IntText(n);
    var s := text + ",";
    assert s == "" + text + ",";
    LiesInside("", text, ",");
    IntStarts(n);
    ReadIntText(s, 0, n);
  }

  lemma IntStarts(n: int)
    ensures IntText(n) != "" && (IntText(n)[0] == '-' || LuaText.IsDigit(IntText(n)[0]))
  {
  }

  /** A string without backslashes and line breaks, not in braces, is read as it is. */
  lemma StringReads(text: string)
    requires !InBraces(text) && forall c <- text :: c != '\\' && !LineBreak(c)
    ensures Reading(ToLua(JString(text)).value) == Some(LuaText.LStr(text))
  {
    hide LuaText.ReadString, EscapeQuotes, LuaText.ReadFields, LuaText.ReadInt;
    var t := "\"" + EscapeQuotes(text) + "\"";
    var s := t + ",";
    assert s == "\"" + (EscapeQuotes(text) + "\"") + ",";
    LiesInside("\"", EscapeQuotes(text) + "\"", ",");
    ReadWithoutBackslash(s, 1, text);
    EscapedLength(text);
  }

  // The value that Lua reads at a path of a file.
  function ReadAt(lines: seq<Line>, q: Path): Option<LuaText.LuaValue> {
    match LuaValue(lines, q) case Some(text) => Reading(text) case None => None
  }

  // The Lua value of a JSON value that reads back.
  function Meant(value: Json, n: int): Option<LuaText.LuaValue> {
    match value
    case JBool(b) => Some(LuaText.LBool(b))
    case JNumber(text) => if text == IntText(n) then Some(LuaText.LInt(n)) else None
    case JString(text) =>
      if !InBraces(text) && forall c <- text :: c != '\\' && !LineBreak(c) then Some(LuaText.LStr(text)) else None
    case _ => None
  }

  lemma MeantIsRead(value: Json, n: int)
    requires Meant(value, n).Some?
    ensures ToLua(value).Some? && Reading(ToLua(value).value) == Meant(value, n)
  {
    hide Reading;
    match value
    case JBool(b) => BooleanReads(b);
    case JNumber(text) => NumberReads(n);
    case JString(text) => StringReads(text);
  }

  /** Saving JSON values: a path that has a value or a table to go into reads as the posted truth value, whole number or
      plain string, one posted as null is gone, and one that was not posted, or with a nested value, keeps its value. */
  lemma SavedJson(lines: seq<Line>, changes: seq<Change>, q: Path, value: Json, n: int)
    requires Loads([], lines) && Tidy(lines) && DistinctChanges(changes)
    requires Fits(lines, Texts(changes)) && KeysPlain(lines, Texts(changes))
    requires q != [] && DotFree(q) && Open(lines, Texts(changes), q)
    ensures var t := UpdatedConfig(lines, Texts(changes));
            && ((Join(q), value) in changes && Meant(value, n).Some? ==>
                  ReadAt(t, q) == if LuaValue(lines, q).Some? || Addable(lines, q) then Meant(value, n) else None)
            && ((Join(q), JNull) in changes ==> LuaValue(t, q) == None)
            && ((Join(q), JNested) in changes ==> LuaValue(t, q) == LuaValue(lines, q))
            && ((forall change <- changes :: change.0 != Join(q)) ==> LuaValue(t, q) == LuaValue(lines, q))
  {
    hide Loads, Tidy, UpdatedConfig, Join, LuaValue, Fits, KeysPlain, Addable, ToLua, Texts, DotFree, Open, Meant,
         Reading, DistinctChanges;
    TextsDistinct(changes);
    SavedValue(lines, Texts(changes), q);
    if (Join(q), value) in changes && Meant(value, n).Some? {
      TextOfChange(changes, Join(q), value);
      MeantIsRead(value, n);
      MeantIsKept(value, n);
    }
    if (Join(q), JNull) in changes {
      TextOfChange(changes, Join(q), JNull);
      NullDeletes();
    }
    if (Join(q), JNested) in changes {
      TextOfChange(changes, Join(q), JNested);
      NestedIsPassed();
    }
    if forall change <- changes :: change.0 != Join(q) {
      Unposted(changes, Join(q));
    }
  }

  lemma MeantIsKept(value: Json, n: int)
    requires Meant(value, n).Some?
    ensures ToLua(value) != Some(DELETE)
  {
    hide IntText;
    if value.JNumber? {
      IntStarts(n);
      assert DELETE[0] == '_';
    }
    if value.JNumber? {
      assert value.text != DELETE;
    }
    OnlyNullDeletes(value);
  }

  lemma NullDeletes()
    ensures ToLua(JNull) == Some(DELETE)
  {
  }

  lemma NestedIsPassed()
    ensures ToLua(JNested) == None
  {
  }

  lemma Unposted(changes: seq<Change>, k: string)
    requires forall change <- changes :: change.0 != k
    ensures Lookup(Texts(changes), k) == None
  {
    hide ToLua, Texts;
    forall u | u in Texts(changes)
      ensures u.0 != k
    {
      TextsAre(changes, u);
    }
    LookupAbsent(Texts(changes), k);
  }
}
