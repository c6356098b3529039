/**
 What the marks around a token of a landing comment say, and how the words for a wire are read.
*/
module NotationMarks {
  import opened LsoNotation
  import opened LuaPrinting
  import opened Options
  import opened Sequences

  function Underscores(n: nat): string {
    seq(n, _ => '_')
  }

  // No underscore stands at either end.
  predicate Bare(core: string) {
    core == "" || (core[0] != '_' && core[|core| - 1] != '_')
  }

  // The letters of a waveoff, or nothing.
  function Letters(waveoff: bool): string {
    if waveoff then "WO" else ""
  }

  // ---------------------------------------------------------------------------------------------
  // Marks
  // ---------------------------------------------------------------------------------------------

  lemma {:induction false} TrimStart(m: nat, s: string)
    requires s == "" || s[0] != '_'
    ensures TrimStartUnderscores(Underscores(m) + s) == s
  {
    if m == 0 {
      assert Underscores(0) + s == s;
    } else {
      assert (Underscores(m) + s)[1..] == Underscores(m - 1) + s;
      TrimStart(m - 1, s);
    }
  }

  lemma {:induction false} TrimEnd(s: string, n: nat)
    requires s == "" || s[|s| - 1] != '_'
    ensures TrimEndUnderscores(s + Underscores(n)) == s
  {
    if n == 0 {
      assert s + Underscores(0) == s;
    } else {
      var t := s + Underscores(n);
      assert t[..|t| - 1] == s + Underscores(n - 1);
      TrimEnd(s, n - 1);
    }
  }

  lemma Trimmed(m: nat, core: string, n: nat)
    requires Bare(core)
    ensures TrimUnderscores(Underscores(m) + core + Underscores(n)) == core
  {
    if core == "" {
      assert Underscores(m) + core + Underscores(n) == Underscores(m + n) + "";
      TrimStart(m + n, "");
      TrimEnd("", 0);
      assert "" + Underscores(0) == "";
    } else {
      assert Underscores(m) + core + Underscores(n) == Underscores(m) + (core + Underscores(n));
      TrimStart(m, core + Underscores(n));
      TrimEnd(core, n);
    }
  }

  lemma {:induction false} FindFirst(inner: string, c: char, rest: string)
    requires c !in inner
    ensures FindChar(inner + [c] + rest, c) == Some(|inner|)
  {
    if inner == "" {
      assert inner + [c] + rest == [c] + rest;
    } else {
      assert (inner + [c] + rest)[1..] == inner[1..] + [c] + rest;
      FindFirst(inner[1..], c, rest);
    }
  }

  lemma BodyOf(waveoff: bool, body: string)
    requires waveoff || !(WAVEOFF <= body)
    ensures WAVEOFF <= Letters(waveoff) + body <==> waveoff
    ensures waveoff ==> (Letters(waveoff) + body)[2..] == body
    ensures !waveoff ==> Letters(waveoff) + body == body
  {
  }

  // What the marks come to, once the parentheses are taken out.
  lemma MarksOf(waveoff: bool, body: string, close: Option<nat>, m: nat, core: string, n: nat)
    requires waveoff || !(WAVEOFF <= body)
    requires close == if body != "" && body[0] == '(' then FindChar(body[1..], ')') else None
    requires Underscores(m) + core + Underscores(n) ==
             if close.Some? then Unparenthesised(body, close.value) else body
    requires Bare(core)
    ensures Unmark(Letters(waveoff) + body) ==
            Marked(core, if m + n > 0 then Gross else if close.Some? && !waveoff then ALittle else Moderate, waveoff)
  {
    hide TrimUnderscores, Bare, FindChar, Unparenthesised;
    BodyOf(waveoff, body);
    Trimmed(m, core, n);
  }

  /** Underscores around a core make it gross, whatever else stands there; a core without them is moderate. */
  lemma UnderscoresAreGross(waveoff: bool, m: nat, core: string, n: nat)
    requires Bare(core) && (m > 0 || core == "" || core[0] != '(')
    requires waveoff || !(WAVEOFF <= Underscores(m) + core + Underscores(n))
    ensures Unmark(Letters(waveoff) + (Underscores(m) + core + Underscores(n))) ==
            Marked(core, if m + n > 0 then Gross else Moderate, waveoff)
  {
    hide Unmark, Bare;
    MarksOf(waveoff, Underscores(m) + core + Underscores(n), None, m, core, n);
  }

  /** Parentheses at the start make what remains of the token a little, except after the letters of a waveoff,
      where they group; and they are taken out. Underscores within them still make it gross. */
  lemma ParenthesesAreALittle(waveoff: bool, inner: string, rest: string, m: nat, core: string, n: nat)
    requires ')' !in inner && inner + rest == Underscores(m) + core + Underscores(n) && Bare(core)
    ensures Unmark(Letters(waveoff) + ("(" + inner + ")" + rest)) ==
            Marked(core, if m + n > 0 then Gross else if waveoff then Moderate else ALittle, waveoff)
  {
    hide Unmark, Bare, FindChar, Underscores;
    var body := "(" + inner + ")" + rest;
    FindFirst(inner, ')', rest);
    assert body[1..] == inner + [')'] + rest;
    assert body[0] == '(' && WAVEOFF[0] == 'W';
    assert Unparenthesised(body, |inner|) == inner + rest;
    MarksOf(waveoff, body, Some(|inner|), m, core, n);
  }

  // A word that has no marks of its own.
  predicate Unmarked(word: string) {
    word != "" && Bare(word) && word[0] != '(' && ')' !in word && !(WAVEOFF <= word) && word != "[BC]"
  }

  lemma UnmarkedForms(word: string)
    requires Unmarked(word)
    ensures Unmark(word) == Marked(word, Moderate, false)
    ensures Unmark("(" + word + ")") == Marked(word, ALittle, false)
    ensures Unmark("_" + word + "_") == Marked(word, Gross, false)
    ensures Unmark("WO" + word) == Marked(word, Moderate, true)
    ensures Unmark("WO(" + word + ")") == Marked(word, Moderate, true)
    ensures Unmark("WO_" + word + "_") == Marked(word, Gross, true)
  {
    hide Unmark, Bare, Underscores;
    Few(word);
    assert ("_" + word + "_")[0] == '_' && WAVEOFF[0] == 'W';
    UnderscoresAreGross(false, 0, word, 0);
    UnderscoresAreGross(false, 1, word, 1);
    UnderscoresAreGross(true, 0, word, 0);
    UnderscoresAreGross(true, 1, word, 1);
    ParenthesesAreALittle(false, word, "", 0, word, 0);
    ParenthesesAreALittle(true, word, "", 0, word, 0);
    Joins(word);
  }

  lemma Few(word: string)
    ensures Underscores(0) + word + Underscores(0) == word && word + "" == word
    ensures Underscores(1) + word + Underscores(1) == "_" + word + "_"
  {
  }

  lemma Joins(word: string)
    ensures Letters(false) + ("(" + word + ")" + "") == "(" + word + ")"
    ensures Letters(true) + ("(" + word + ")" + "") == "WO(" + word + ")"
    ensures Letters(false) + ("_" + word + "_") == "_" + word + "_"
    ensures Letters(true) + ("_" + word + "_") == "WO_" + word + "_"
    ensures Letters(false) + word == word && Letters(true) + word == "WO" + word
  {
  }

  // An item for the same word under other marks: the same deviation at that magnitude, or the token verbatim.
  function Remarked(item: Option<Item>, magnitude: Magnitude, token: string): Option<Item> {
    match item
    case Some(Deviates(d)) => Some(Deviates(Deviation(d.symbols, magnitude, d.suffix, d.waveoff)))
    case Some(Unknown(_)) => Some(Unknown(token))
    case _ => item
  }

  lemma OtherMarks(a: string, b: string, g: Glossary)
    requires NonEmpty(g.symbols) && a != "[BC]" && b != "[BC]"
    requires Unmark(a).core != "" && Unmark(a).core == Unmark(b).core && Unmark(a).waveoff == Unmark(b).waveoff
    ensures TokenItem(b, g) == Remarked(TokenItem(a, g), Unmark(b).magnitude, b)
    ensures match TokenItem(a, g)
            case Some(Deviates(d)) => d.magnitude == Unmark(a).magnitude && d.waveoff == Unmark(a).waveoff
            case Some(Unknown(text)) => text == a
            case _ => false
  {
    hide Unmark, Candidates, Preferred;
  }

  /** The marks of a word set the magnitude and nothing else: bare it is moderate, in parentheses a little, and
      between underscores gross; and after the letters of a waveoff parentheses make no difference. */
  lemma MarksSetMagnitude(word: string, g: Glossary)
    requires NonEmpty(g.symbols) && Unmarked(word)
    ensures match TokenItem(word, g)
            case Some(Deviates(d)) => d.magnitude == Moderate && !d.waveoff
            case Some(Unknown(text)) => text == word
            case _ => false
    ensures match TokenItem("WO" + word, g)
            case Some(Deviates(d)) => d.magnitude == Moderate && d.waveoff
            case Some(Unknown(text)) => text == "WO" + word
            case _ => false
    ensures TokenItem("(" + word + ")", g) == Remarked(TokenItem(word, g), ALittle, "(" + word + ")")
    ensures TokenItem("_" + word + "_", g) == Remarked(TokenItem(word, g), Gross, "_" + word + "_")
    ensures TokenItem("WO(" + word + ")", g) == Remarked(TokenItem("WO" + word, g), Moderate, "WO(" + word + ")")
    ensures TokenItem("WO_" + word + "_", g) == Remarked(TokenItem("WO" + word, g), Gross, "WO_" + word + "_")
  {
    UnmarkedForms(word);
    hide TokenItem, Unmark, Bare, Remarked, NonEmpty;
    var w := "WO" + word;
    NoBallCall(word);
    OtherMarks(word, "(" + word + ")", g);
    OtherMarks(word, "_" + word + "_", g);
    OtherMarks(w, "WO(" + word + ")", g);
    OtherMarks(w, "WO_" + word + "_", g);
  }

  lemma NoBallCall(word: string)
    ensures "(" + word + ")" != "[BC]" && "_" + word + "_" != "[BC]" && "WO" + word != "[BC]"
    ensures "WO(" + word + ")" != "[BC]" && "WO_" + word + "_" != "[BC]"
  {
    assert ("(" + word + ")")[0] == '(' && ("_" + word + "_")[0] == '_' && ("WO" + word)[0] == 'W';
    assert ("WO(" + word + ")")[0] == 'W' && ("WO_" + word + "_")[0] == 'W' && "[BC]"[0] == '[';
  }

  /** The ball call is its own token, and the bare letters of a waveoff are a deviation without symbols. */
  lemma WholeTokens(token: string, g: Glossary)
    requires NonEmpty(g.symbols)
    ensures TokenItem(token, g) == Some(BallCall) <==> token == "[BC]"
    ensures TokenItem("WO", g) == Some(Deviates(Deviation([], Moderate, None, true)))
  {
    assert Underscores(0) == "" && "WO" + ("" + "" + "") == "WO";
    UnderscoresAreGross(true, 0, "", 0);
    assert "WO"[0] != "[BC]"[0];
    hide Unmark, Candidates, Preferred;
  }

  // ---------------------------------------------------------------------------------------------
  // Wires
  // ---------------------------------------------------------------------------------------------

  predicate AreDigits(s: string) {
    forall k :: 0 <= k < |s| ==> LsoNotation.IsDigit(s[k])
  }

  lemma {:induction false} CountDigits(digits: string, tail: string)
    requires AreDigits(digits) && (tail == "" || !LsoNotation.IsDigit(tail[0]))
    ensures DigitCount(digits + tail) == |digits|
  {
    if digits == "" {
      assert digits + tail == tail;
    } else {
      assert (digits + tail)[1..] == digits[1..] + tail;
      CountDigits(digits[1..], tail);
    }
  }

  lemma {:induction false} ValueOfText(n: nat)
    ensures AreDigits(NatText(n)) && LsoNotation.DecimalValue(NatText(n)) == n
  {
    var text := NatText(n);
    if n < 10 {
      assert text[..|text| - 1] == "";
      assert LsoNotation.DecimalValue("") == 0;
    } else {
      ValueOfText(n / 10);
      assert text[..|text| - 1] == NatText(n / 10);
    }
  }

  /** The text after `WIRE#` gives a wire exactly when it is a number up to 255 that ends it or stands before a
      bracket; what is in the brackets is read as a token, and any other text is unknown, verbatim. */
  lemma WireIsRead(digits: string, tail: string, g: Glossary)
    requires NonEmpty(g.symbols) && AreDigits(digits) && (tail == "" || !LsoNotation.IsDigit(tail[0]))
    ensures WireItems(digits + tail, g) ==
            if digits == "" || LsoNotation.DecimalValue(digits) > 255 || (tail != "" && tail[0] != '[')
            then [Unknown("WIRE# " + digits + tail)]
            else [Wire(LsoNotation.DecimalValue(digits))] + if tail == "" then [] else [TokenItem(tail, g).value]
  {
    hide TokenItem, LsoNotation.DecimalValue;
    CountDigits(digits, tail);
    var number := digits + tail;
    assert number[..|digits|] == digits && number[|digits|..] == tail;
    assert "WIRE# " + number == "WIRE# " + digits + tail;
    if tail != "" {
      TokenGivesItem(tail, g);
    }
  }

  /** A wire may stand with its number in one word or in two, and a ball call may follow it in brackets. */
  lemma WireInWords(n: nat, rest: seq<string>, g: Glossary)
    requires NonEmpty(g.symbols) && n <= 255
    ensures FirstTurn(["WIRE#" + NatText(n)] + rest, g) == Turn(["WIRE#" + NatText(n)], [Wire(n)])
    ensures FirstTurn(["WIRE#", NatText(n)] + rest, g) == Turn(["WIRE#", NatText(n)], [Wire(n)])
    ensures FirstTurn(["WIRE#", NatText(n) + "[BC]"] + rest, g) ==
            Turn(["WIRE#", NatText(n) + "[BC]"], [Wire(n), BallCall])
    ensures FirstTurn(["WIRE#"], g) == Turn(["WIRE#"], [Unknown("WIRE# ")])
  {
    ValueOfText(n);
    var text := NatText(n);
    assert text + "" == text && "" + "" == "" && "WIRE# " + "" + "" == "WIRE# ";
    WireIsRead(text, "", g);
    WireIsRead(text, "[BC]", g);
    WireIsRead("", "", g);
    WholeTokens("[BC]", g);
    hide WireItems, TokenItem, NatText, LsoNotation.DecimalValue;
    OneWord(text, rest, g);
    TwoWords(text, rest, g);
    TwoWords(text + "[BC]", rest, g);
  }

  lemma OneWord(number: string, rest: seq<string>, g: Glossary)
    requires NonEmpty(g.symbols) && number != ""
    ensures FirstTurn(["WIRE#" + number] + rest, g) == Turn(["WIRE#" + number], WireItems(number, g))
  {
    hide WireItems, TokenItem;
    assert ("WIRE#" + number)[|WIRE|..] == number;
  }

  lemma TwoWords(number: string, rest: seq<string>, g: Glossary)
    requires NonEmpty(g.symbols)
    ensures FirstTurn(["WIRE#", number] + rest, g) == Turn(["WIRE#", number], WireItems(number, g))
    ensures FirstTurn(["WIRE#"], g) == Turn(["WIRE#"], WireItems("", g))
  {
    hide WireItems, TokenItem;
    var tokens := ["WIRE#", number] + rest;
    assert tokens[..2] == ["WIRE#", number];
    assert tokens[0][|WIRE|..] == "";
  }
}
