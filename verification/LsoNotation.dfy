/**
 The reader of LSO comments: it cuts each token into glossary symbols and a position suffix, and reports
 what it cannot read.
*/
module LsoNotation {
  import opened Options
  import opened Sequences

  // ---------------------------------------------------------------------------------------------
  // Cutting a text into symbols
  // ---------------------------------------------------------------------------------------------

  // The glossary: its symbols in the order they are tried, and its position suffixes.
  datatype Glossary = Glossary(symbols: seq<string>, suffixes: seq<string>)

  predicate NonEmpty(codes: seq<string>) {
    forall i :: 0 <= i < |codes| ==> codes[i] != ""
  }

  function Concat(parts: seq<string>): string {
    if parts == [] then "" else parts[0] + Concat(parts[1..])
  }

  function PutFirst(symbol: string, tails: seq<seq<string>>): seq<seq<string>> {
    seq(|tails|, i requires 0 <= i < |tails| => [symbol] + tails[i])
  }

  /** Every way to cut s into glossary symbols. */
  function Segmentations(s: string, symbols: seq<string>): seq<seq<string>>
    requires NonEmpty(symbols)
    decreases |s|, |symbols| + 1
  {
    if s == "" then [[]] else Cuts(s, symbols, 0)
  }

  // The ways that start with one of the symbols from the i-th on.
  function Cuts(s: string, symbols: seq<string>, i: nat): seq<seq<string>>
    requires NonEmpty(symbols) && i <= |symbols|
    decreases |s|, |symbols| - i
  {
    if i == |symbols| then []
    else
      (if symbols[i] <= s then PutFirst(symbols[i], Segmentations(s[|symbols[i]|..], symbols)) else [])
      + Cuts(s, symbols, i + 1)
  }

  predicate IsCut(s: string, symbols: seq<string>, parts: seq<string>) {
    Concat(parts) == s && forall p <- parts :: p in symbols
  }

  lemma InPutFirst(symbol: string, tails: seq<seq<string>>, parts: seq<string>)
    ensures parts in PutFirst(symbol, tails) <==> parts != [] && parts[0] == symbol && parts[1..] in tails
  {
    if parts in PutFirst(symbol, tails) {
      var i :| 0 <= i < |tails| && PutFirst(symbol, tails)[i] == parts;
      assert parts[1..] == tails[i];
    }
    if parts != [] && parts[0] == symbol && parts[1..] in tails {
      var i :| 0 <= i < |tails| && tails[i] == parts[1..];
      assert PutFirst(symbol, tails)[i] == [symbol] + parts[1..] == parts;
    }
  }

  lemma CutFirst(s: string, symbols: seq<string>, parts: seq<string>)
    requires parts != []
    ensures IsCut(s, symbols, parts) <==>
            parts[0] in symbols && parts[0] <= s && IsCut(s[|parts[0]|..], symbols, parts[1..])
  {
    assert parts == [parts[0]] + parts[1..];
    if parts[0] <= s {
      assert s == parts[0] + s[|parts[0]|..];
      if parts[0] + Concat(parts[1..]) == s {
        assert Concat(parts[1..]) == s[|parts[0]|..];
      }
    }
    if Concat(parts) == s {
      assert parts[0] <= s;
    }
  }

  /** The list is sound and complete: it holds exactly the lists of glossary symbols that concatenate to the
      text. */
  lemma {:induction false} SegmentationsExact(s: string, symbols: seq<string>, parts: seq<string>)
    requires NonEmpty(symbols)
    ensures parts in Segmentations(s, symbols) <==> IsCut(s, symbols, parts)
    decreases |s|, |symbols| + 1
  {
    if s == "" {
      if parts != [] {
        CutFirst(s, symbols, parts);
        assert parts[0] in symbols ==> parts[0] != "";
      }
    } else {
      CutsExact(s, symbols, 0, parts);
      if parts != [] {
        CutFirst(s, symbols, parts);
        assert symbols[0..] == symbols;
      }
    }
  }

  lemma {:induction false} CutsExact(s: string, symbols: seq<string>, i: nat, parts: seq<string>)
    requires NonEmpty(symbols) && i <= |symbols|
    ensures parts in Cuts(s, symbols, i) <==>
            parts != [] && parts[0] in symbols[i..] && parts[0] <= s && IsCut(s[|parts[0]|..], symbols, parts[1..])
    decreases |s|, |symbols| - i
  {
    hide IsCut, Segmentations, PutFirst;
    if i < |symbols| {
      CutsExact(s, symbols, i + 1, parts);
      assert symbols[i..] == [symbols[i]] + symbols[i + 1..];
      if symbols[i] <= s {
        var rest := s[|symbols[i]|..];
        InPutFirst(symbols[i], Segmentations(rest, symbols), parts);
        if parts != [] {
          SegmentationsExact(rest, symbols, parts[1..]);
        }
      }
    }
  }

  /** With distinct symbols, no way is listed twice. */
  lemma {:induction false} SegmentationsDistinct(s: string, symbols: seq<string>)
    requires NonEmpty(symbols) && Distinct(symbols)
    ensures Distinct(Segmentations(s, symbols))
    decreases |s|, |symbols| + 1
  {
    if s != "" {
      CutsDistinct(s, symbols, 0);
    }
  }

  lemma {:induction false} CutsDistinct(s: string, symbols: seq<string>, i: nat)
    requires NonEmpty(symbols) && Distinct(symbols) && i <= |symbols|
    ensures Distinct(Cuts(s, symbols, i))
    decreases |s|, |symbols| - i
  {
    hide Segmentations, PutFirst;
    if i < |symbols| {
      CutsDistinct(s, symbols, i + 1);
      if symbols[i] <= s {
        var tails := Segmentations(s[|symbols[i]|..], symbols);
        SegmentationsDistinct(s[|symbols[i]|..], symbols);
        PutFirstDistinct(symbols[i], tails);
        forall parts | parts in PutFirst(symbols[i], tails)
          ensures parts !in Cuts(s, symbols, i + 1)
        {
          InPutFirst(symbols[i], tails, parts);
          CutsExact(s, symbols, i + 1, parts);
          assert symbols[i] !in symbols[i + 1..];
        }
        DistinctJoin(PutFirst(symbols[i], tails), Cuts(s, symbols, i + 1));
      } else {
        assert [] + Cuts(s, symbols, i + 1) == Cuts(s, symbols, i + 1);
      }
    }
  }

  lemma PutFirstDistinct(symbol: string, tails: seq<seq<string>>)
    requires Distinct(tails)
    ensures Distinct(PutFirst(symbol, tails))
  {
    forall i, j | 0 <= i < j < |tails|
      ensures PutFirst(symbol, tails)[i] != PutFirst(symbol, tails)[j]
    {
      assert ([symbol] + tails[i])[1..] == tails[i];
      assert ([symbol] + tails[j])[1..] == tails[j];
    }
  }

  lemma DistinctJoin<T>(a: seq<T>, b: seq<T>)
    requires Distinct(a) && Distinct(b) && forall x <- a :: x !in b
    ensures Distinct(a + b)
  {
    forall i, j | 0 <= i < j < |a + b|
      ensures (a + b)[i] != (a + b)[j]
    {
      if i < |a| <= j {
        assert a[i] in a && b[j - |a|] in b;
      }
    }
  }

  // ---------------------------------------------------------------------------------------------
  // Choosing a reading
  // ---------------------------------------------------------------------------------------------

  datatype Reading = Reading(suffix: Option<string>, symbols: seq<string>)

  predicate HasSuffix(s: string, suffix: string) {
    |suffix| <= |s| && s[|s| - |suffix|..] == suffix
  }

  function Head(s: string, suffix: string): string
    requires HasSuffix(s, suffix)
  {
    s[..|s| - |suffix|]
  }

  // The cuts of a head as readings with its suffix; a waveoff may stand without a reason.
  function WithSuffix(suffix: string, cuts: seq<seq<string>>, waveoff: bool): seq<Reading> {
    if cuts == [] then []
    else
      (if cuts[0] != [] || waveoff then [Reading(Some(suffix), cuts[0])] else [])
      + WithSuffix(suffix, cuts[1..], waveoff)
  }

  function SuffixReadings(core: string, g: Glossary, i: nat, waveoff: bool): seq<Reading>
    requires NonEmpty(g.symbols) && i <= |g.suffixes|
    decreases |g.suffixes| - i
  {
    if i == |g.suffixes| then []
    else
      (if HasSuffix(core, g.suffixes[i])
       then WithSuffix(g.suffixes[i], Segmentations(Head(core, g.suffixes[i]), g.symbols), waveoff) else [])
      + SuffixReadings(core, g, i + 1, waveoff)
  }

  function PlainReadings(cuts: seq<seq<string>>): seq<Reading> {
    seq(|cuts|, i requires 0 <= i < |cuts| => Reading(None, cuts[i]))
  }

  function Candidates(core: string, g: Glossary, waveoff: bool): seq<Reading>
    requires NonEmpty(g.symbols)
  {
    SuffixReadings(core, g, 0, waveoff) + PlainReadings(Segmentations(core, g.symbols))
  }

  // A suffix before none, then fewer symbols before more.
  predicate Before(a: Reading, b: Reading) {
    (a.suffix.Some? && b.suffix.None?) || (a.suffix.Some? == b.suffix.Some? && |a.symbols| < |b.symbols|)
  }

  // The first candidate of a stable sort by that order.
  function Preferred(candidates: seq<Reading>): (r: Option<Reading>)
    ensures r.None? <==> candidates == []
    ensures r.Some? ==> r.value in candidates && forall c <- candidates :: !Before(c, r.value)
    decreases |candidates|
  {
    if candidates == [] then None
    else
      assert candidates == [candidates[0]] + candidates[1..];
      match Preferred(candidates[1..])
      case None => Some(candidates[0])
      case Some(best) => Some(if Before(best, candidates[0]) then best else candidates[0])
  }

  // What a reading of the core is: glossary symbols, and a suffix of the table or none, that spell it. A
  // suffix needs a symbol before it, except after a waveoff.
  predicate Admissible(core: string, g: Glossary, waveoff: bool, r: Reading) {
    match r.suffix
    case None => IsCut(core, g.symbols, r.symbols)
    case Some(suffix) =>
      && suffix in g.suffixes && HasSuffix(core, suffix) && IsCut(Head(core, suffix), g.symbols, r.symbols)
      && (r.symbols != [] || waveoff)
  }

  lemma {:induction false} InWithSuffix(suffix: string, cuts: seq<seq<string>>, waveoff: bool, r: Reading)
    ensures r in WithSuffix(suffix, cuts, waveoff) <==>
            r.suffix == Some(suffix) && r.symbols in cuts && (r.symbols != [] || waveoff)
  {
    if cuts != [] {
      InWithSuffix(suffix, cuts[1..], waveoff, r);
      assert cuts == [cuts[0]] + cuts[1..];
    }
  }

  lemma {:induction false} InSuffixReadings(core: string, g: Glossary, i: nat, waveoff: bool, r: Reading)
    requires NonEmpty(g.symbols) && i <= |g.suffixes|
    ensures r in SuffixReadings(core, g, i, waveoff) <==>
            r.suffix.Some? && r.suffix.value in g.suffixes[i..] && Admissible(core, g, waveoff, r)
    decreases |g.suffixes| - i
  {
    hide Segmentations, WithSuffix, IsCut;
    if i < |g.suffixes| {
      var suffix := g.suffixes[i];
      InSuffixReadings(core, g, i + 1, waveoff, r);
      assert g.suffixes[i..] == [suffix] + g.suffixes[i + 1..];
      assert suffix in g.suffixes;
      if HasSuffix(core, suffix) {
        InWithSuffix(suffix, Segmentations(Head(core, suffix), g.symbols), waveoff, r);
        SegmentationsExact(Head(core, suffix), g.symbols, r.symbols);
      }
    }
  }

  lemma InPlainReadings(cuts: seq<seq<string>>, r: Reading)
    ensures r in PlainReadings(cuts) <==> r.suffix.None? && r.symbols in cuts
  {
    if r.suffix.None? && r.symbols in cuts {
      var i :| 0 <= i < |cuts| && cuts[i] == r.symbols;
      assert PlainReadings(cuts)[i] == r;
    }
  }

  lemma CandidatesExact(core: string, g: Glossary, waveoff: bool, r: Reading)
    requires NonEmpty(g.symbols)
    ensures r in Candidates(core, g, waveoff) <==> Admissible(core, g, waveoff, r)
  {
    hide Segmentations, SuffixReadings, PlainReadings;
    InSuffixReadings(core, g, 0, waveoff, r);
    assert g.suffixes[0..] == g.suffixes;
    InPlainReadings(Segmentations(core, g.symbols), r);
    SegmentationsExact(core, g.symbols, r.symbols);
  }

  /** The chosen reading is admissible, has a suffix if any admissible reading has one, and has the fewest
      symbols among those that are like it in that; and there is none exactly when nothing is admissible. */
  lemma ChoiceIsBest(core: string, g: Glossary, waveoff: bool, r: Reading)
    requires NonEmpty(g.symbols)
    ensures var choice := Preferred(Candidates(core, g, waveoff));
            && (choice.Some? ==> Admissible(core, g, waveoff, choice.value))
            && (Admissible(core, g, waveoff, r) ==> choice.Some? && !Before(r, choice.value))
  {
    hide Candidates, Admissible;
    var choice := Preferred(Candidates(core, g, waveoff));
    CandidatesExact(core, g, waveoff, r);
    if choice.Some? {
      CandidatesExact(core, g, waveoff, choice.value);
    }
  }

  // An admissible reading spells the core.
  lemma AdmissibleSpells(core: string, g: Glossary, waveoff: bool, r: Reading)
    requires Admissible(core, g, waveoff, r)
    ensures core == Concat(r.symbols) + (if r.suffix.Some? then r.suffix.value else "")
  {
  }

  // ---------------------------------------------------------------------------------------------
  // One token
  // ---------------------------------------------------------------------------------------------

  datatype Magnitude = ALittle | Moderate | Gross

  datatype Deviation = Deviation(symbols: seq<string>, magnitude: Magnitude, suffix: Option<string>, waveoff: bool)

  // What becomes of a token, or of a WIRE# with its number.
  datatype Item = Deviates(deviation: Deviation) | BallCall | Unknown(text: string) | Wire(number: nat)

  function FindChar(s: string, c: char): Option<nat> {
    if s == "" then None
    else if s[0] == c then Some(0)
    else
      var i :- FindChar(s[1..], c);
      Some(i + 1)
  }

  function TrimStartUnderscores(s: string): string {
    if s != "" && s[0] == '_' then TrimStartUnderscores(s[1..]) else s
  }

  function TrimUnderscores(s: string): string {
    TrimEndUnderscores(TrimStartUnderscores(s))
  }

  function TrimEndUnderscores(s: string): string {
    if s != "" && s[|s| - 1] == '_' then TrimEndUnderscores(s[..|s| - 1]) else s
  }

  const WAVEOFF := "WO"

  // A token without its marks: the waveoff letters, one pair of parentheses and the underscores around it.
  datatype Marked = Marked(core: string, magnitude: Magnitude, waveoff: bool)

  function Unmark(token: string): Marked {
    var waveoff := WAVEOFF <= token;
    var body := if waveoff then token[2..] else token;
    var close := if body != "" && body[0] == '(' then FindChar(body[1..], ')') else None;
    var joined := if close.Some? then Unparenthesised(body, close.value) else body;
    var core := TrimUnderscores(joined);
    Marked(
      core,
      if |core| < |joined| then Gross else if close.Some? && !waveoff then ALittle else Moderate,
      waveoff)
  }

  // The text without the parenthesis it starts with and the one at position `close` after it.
  function Unparenthesised(body: string, close: nat): string {
    var inner := if body == "" then "" else body[1..];
    if close < |inner| then inner[..close] + inner[close + 1..] else inner
  }

  // A token of a comment is never empty; the empty rest of another token gives nothing.
  function TokenItem(token: string, g: Glossary): Option<Item>
    requires NonEmpty(g.symbols)
  {
    if token == "[BC]" then Some(BallCall)
    else
      var Marked(core, magnitude, waveoff) := Unmark(token);
      if core == "" then
        if waveoff then Some(Deviates(Deviation([], magnitude, None, true)))
        else if token != "" then Some(Unknown(token))
        else None
      else
        match Preferred(Candidates(core, g, waveoff))
        case Some(Reading(suffix, symbols)) => Some(Deviates(Deviation(symbols, magnitude, suffix, waveoff)))
        case None => Some(Unknown(token))
  }

  /** A token is read as a deviation that spells its core, by the best admissible reading there is; it is
      unknown, and kept verbatim, exactly when its core is not a bare waveoff and has no admissible reading. */
  lemma TokenIsRead(token: string, g: Glossary, r: Reading)
    requires NonEmpty(g.symbols) && token != "" && token != "[BC]"
    ensures var Marked(core, magnitude, waveoff) := Unmark(token);
            match TokenItem(token, g)
            case Some(Deviates(d)) =>
              && d.magnitude == magnitude && d.waveoff == waveoff
              && core == Concat(d.symbols) + (if d.suffix.Some? then d.suffix.value else "")
              && (core != "" ==> Admissible(core, g, waveoff, Reading(d.suffix, d.symbols)))
              && (core != "" && Admissible(core, g, waveoff, r) ==> !Before(r, Reading(d.suffix, d.symbols)))
            case Some(Unknown(text)) =>
              text == token && (if core == "" then !waveoff else !Admissible(core, g, waveoff, r))
            case _ => false
  {
    hide Unmark, Candidates, Preferred, Admissible, Before;
    var Marked(core, magnitude, waveoff) := Unmark(token);
    if core != "" {
      ChoiceIsBest(core, g, waveoff, r);
      var choice := Preferred(Candidates(core, g, waveoff));
      if choice.Some? {
        AdmissibleSpells(core, g, waveoff, choice.value);
      }
    }
  }

  // ---------------------------------------------------------------------------------------------
  // A whole comment
  // ---------------------------------------------------------------------------------------------

  datatype Notation = Notation(
    wire: Option<nat>,
    deviations: seq<Deviation>,
    ballCall: bool,
    unknown: seq<string>)

  const NOTHING := Notation(None, [], false, [])

  function Put(n: Notation, item: Item): Notation {
    match item
    case Deviates(d) => n.(deviations := n.deviations + [d])
    case BallCall => n.(ballCall := true)
    case Unknown(text) => n.(unknown := n.unknown + [text])
    case Wire(number) => n.(wire := Some(number))
  }

  function PutAll(n: Notation, items: seq<Item>): Notation
    decreases |items|
  {
    if items == [] then n else PutAll(Put(n, items[0]), items[1..])
  }

  predicate IsDigit(c: char) {
    '0' <= c <= '9'
  }

  function DigitCount(s: string): (n: nat)
    ensures n <= |s|
  {
    if s != "" && IsDigit(s[0]) then 1 + DigitCount(s[1..]) else 0
  }

  function DecimalValue(digits: string): nat
    requires forall k :: 0 <= k < |digits| ==> IsDigit(digits[k])
  {
    if digits == "" then 0 else DecimalValue(digits[..|digits| - 1]) * 10 + DigitValue(digits[|digits| - 1])
  }

  function DigitValue(c: char): nat
    requires IsDigit(c)
  {
    c as int - '0' as int
  }

  lemma {:induction false} LeadingDigits(s: string)
    ensures forall k :: 0 <= k < DigitCount(s) ==> IsDigit(s[k])
  {
    if s != "" && IsDigit(s[0]) {
      LeadingDigits(s[1..]);
    }
  }

  const WIRE := "WIRE#"

  function ToItems(item: Option<Item>): seq<Item> {
    match item case Some(i) => [i] case None => []
  }

  // The number of a wire fits a byte and ends the text or stands before a bracket.
  function WireItems(number: string, g: Glossary): seq<Item>
    requires NonEmpty(g.symbols)
  {
    LeadingDigits(number);
    var digits := DigitCount(number);
    var tail := number[digits..];
    if digits > 0 && DecimalValue(number[..digits]) <= 255 && (tail == "" || tail[0] == '[') then
      [Wire(DecimalValue(number[..digits]))] + (if tail == "" then [] else ToItems(TokenItem(tail, g)))
    else [Unknown("WIRE# " + number)]
  }

  // The tokens taken at one turn of the loop, and what becomes of them.
  datatype Turn = Turn(taken: seq<string>, items: seq<Item>)

  function FirstTurn(tokens: seq<string>, g: Glossary): (t: Turn)
    requires NonEmpty(g.symbols) && tokens != []
    ensures t.taken != [] && t.taken <= tokens
  {
    var token := tokens[0];
    if WIRE <= token then
      var after := token[|WIRE|..];
      if after != "" then Turn([token], WireItems(after, g))
      else if |tokens| >= 2 then Turn(tokens[..2], WireItems(tokens[1], g))
      else Turn([token], WireItems("", g))
    else Turn([token], ToItems(TokenItem(token, g)))
  }

  function Turns(tokens: seq<string>, g: Glossary): seq<Turn>
    requires NonEmpty(g.symbols)
    decreases |tokens|
  {
    if tokens == [] then []
    else
      var turn := FirstTurn(tokens, g);
      [turn] + Turns(tokens[|turn.taken|..], g)
  }

  function AllTaken(turns: seq<Turn>): seq<string> {
    if turns == [] then [] else turns[0].taken + AllTaken(turns[1..])
  }

  function AllItems(turns: seq<Turn>): seq<Item> {
    if turns == [] then [] else turns[0].items + AllItems(turns[1..])
  }

  /** The loop over the tokens of a comment. */
  method ParseTokens(tokens: seq<string>, g: Glossary) returns (notation: Notation)
    requires NonEmpty(g.symbols)
    ensures notation == PutAll(NOTHING, AllItems(Turns(tokens, g)))
  {
    hide TokenItem, WireItems, Put;
    notation := NOTHING;
    var next := 0;
    assert tokens[0..] == tokens;
    while next < |tokens|
      invariant next <= |tokens|
      invariant PutAll(notation, AllItems(Turns(tokens[next..], g))) == PutAll(NOTHING, AllItems(Turns(tokens, g)))
    {
      ghost var rest := tokens[next..];
      var token := tokens[next];
      next := next + 1;
      ghost var turn := FirstTurn(rest, g);
      var items;
      if WIRE <= token {
        var after := token[|WIRE|..];
        var number := after;
        if after == "" {
          if next < |tokens| {
            number := tokens[next];
            next := next + 1;
          }
        }
        items := WireItems(number, g);
      } else {
        items := ToItems(TokenItem(token, g));
      }
      assert items == turn.items;
      assert rest[|turn.taken|..] == tokens[next..];
      TurnFirst(rest, g);
      PutAllAppend(notation, turn.items, AllItems(Turns(tokens[next..], g)));
      notation := PutAll(notation, items);
    }
  }

  lemma TurnFirst(tokens: seq<string>, g: Glossary)
    requires NonEmpty(g.symbols) && tokens != []
    ensures var turn := FirstTurn(tokens, g);
            AllItems(Turns(tokens, g)) == turn.items + AllItems(Turns(tokens[|turn.taken|..], g))
  {
    hide FirstTurn;
    var turn := FirstTurn(tokens, g);
    var rest := Turns(tokens[|turn.taken|..], g);
    assert ([turn] + rest)[1..] == rest;
  }

  lemma {:induction false} PutAllAppend(n: Notation, a: seq<Item>, b: seq<Item>)
    ensures PutAll(n, a + b) == PutAll(PutAll(n, a), b)
    decreases |a|
  {
    hide Put;
    if a == [] {
      assert a + b == b;
    } else {
      assert (a + b)[1..] == a[1..] + b;
      PutAllAppend(Put(n, a[0]), a[1..], b);
    }
  }

  /** Every token is taken by exactly one turn, in order. */
  lemma {:induction false} TurnsTakeAll(tokens: seq<string>, g: Glossary)
    requires NonEmpty(g.symbols)
    ensures AllTaken(Turns(tokens, g)) == tokens
    decreases |tokens|
  {
    hide FirstTurn;
    if tokens != [] {
      var turn := FirstTurn(tokens, g);
      var rest := Turns(tokens[|turn.taken|..], g);
      TurnsTakeAll(tokens[|turn.taken|..], g);
      assert ([turn] + rest)[1..] == rest;
      assert tokens == turn.taken + tokens[|turn.taken|..];
    }
  }

  // A turn accounts for what it took: a wire number and the rest of its text, or one item for its token; and
  // what is unknown is kept with all its text.
  ghost predicate Accounts(turn: Turn, g: Glossary)
    requires NonEmpty(g.symbols)
  {
    && turn.items != []
    && (|turn.taken| == 1 && !(WIRE <= turn.taken[0]) ==>
          |turn.items| == 1 && !turn.items[0].Wire? && (turn.items[0].Unknown? ==> turn.items[0].text == turn.taken[0]))
    && (|turn.taken| == 1 && WIRE <= turn.taken[0] ==> WireAccounts(turn.taken[0][|WIRE|..], turn.items, g))
    && (|turn.taken| != 1 ==> |turn.taken| == 2 && turn.taken[0] == WIRE && WireAccounts(turn.taken[1], turn.items, g))
  }

  // The text after WIRE# is a number read in full with an item for its bracketed tail, or is unknown.
  ghost predicate WireAccounts(number: string, items: seq<Item>, g: Glossary)
    requires NonEmpty(g.symbols)
  {
    items == [Unknown("WIRE# " + number)] || exists n: nat :: NumberThenTail(number, n, items, g)
  }

  // The first n characters are the number of a wire, and the rest is nothing or a bracketed token.
  ghost predicate NumberThenTail(number: string, n: nat, items: seq<Item>, g: Glossary)
    requires NonEmpty(g.symbols)
  {
    && 0 < n <= |number| && (forall k :: 0 <= k < n ==> IsDigit(number[k]))
    && DecimalValue(number[..n]) <= 255
    && (if n == |number| then items == [Wire(DecimalValue(number[..n]))]
        else number[n] == '[' && TokenItem(number[n..], g).Some?
             && items == [Wire(DecimalValue(number[..n])), TokenItem(number[n..], g).value])
  }

  lemma TokenGivesItem(token: string, g: Glossary)
    requires NonEmpty(g.symbols) && token != ""
    ensures TokenItem(token, g).Some? && !TokenItem(token, g).value.Wire?
    ensures TokenItem(token, g).value.Unknown? ==> TokenItem(token, g).value.text == token
  {
    hide Unmark, Candidates, Preferred;
  }

  lemma WireItemsAccount(number: string, g: Glossary)
    requires NonEmpty(g.symbols)
    ensures WireAccounts(number, WireItems(number, g), g)
  {
    hide TokenItem;
    LeadingDigits(number);
    var n := DigitCount(number);
    if n < |number| {
      TokenGivesItem(number[n..], g);
    }
    var items := WireItems(number, g);
    if items != [Unknown("WIRE# " + number)] {
      assert NumberThenTail(number, n, items, g);
    }
  }

  /** No token is dropped: split into words, every comment body is taken in turns that each account for their
      words, in order, and the notation is made of their items. */
  lemma {:induction false} NothingIsDropped(tokens: seq<string>, g: Glossary)
    requires NonEmpty(g.symbols) && forall t <- tokens :: t != ""
    ensures AllTaken(Turns(tokens, g)) == tokens
    ensures forall turn <- Turns(tokens, g) :: Accounts(turn, g)
    decreases |tokens|
  {
    hide FirstTurn, Accounts;
    TurnsTakeAll(tokens, g);
    if tokens != [] {
      var turn := FirstTurn(tokens, g);
      FirstTurnAccounts(tokens, g);
      var rest := tokens[|turn.taken|..];
      assert forall t <- rest :: t in tokens;
      NothingIsDropped(rest, g);
    }
  }

  lemma FirstTurnAccounts(tokens: seq<string>, g: Glossary)
    requires NonEmpty(g.symbols) && tokens != [] && forall t <- tokens :: t != ""
    ensures Accounts(FirstTurn(tokens, g), g)
  {
    hide TokenItem, WireItems, WireAccounts;
    var token := tokens[0];
    assert token in tokens;
    if WIRE <= token {
      var after := token[|WIRE|..];
      assert token == WIRE + after;
      WireItemsAccount(after, g);
      WireItemsNotEmpty(after, g);
      if |tokens| >= 2 {
        WireItemsAccount(tokens[1], g);
        WireItemsNotEmpty(tokens[1], g);
      }
    } else {
      TokenGivesItem(token, g);
    }
  }

  lemma WireItemsNotEmpty(number: string, g: Glossary)
    requires NonEmpty(g.symbols)
    ensures WireItems(number, g) != []
  {
    hide TokenItem;
  }

  // ---------------------------------------------------------------------------------------------
  // From items to the notation
  // ---------------------------------------------------------------------------------------------

  function DeviationsIn(items: seq<Item>): seq<Deviation> {
    if items == [] then []
    else (if items[0].Deviates? then [items[0].deviation] else []) + DeviationsIn(items[1..])
  }

  function UnknownIn(items: seq<Item>): seq<string> {
    if items == [] then [] else (if items[0].Unknown? then [items[0].text] else []) + UnknownIn(items[1..])
  }

  function LastWire(items: seq<Item>): Option<nat> {
    if items == [] then None
    else match LastWire(items[1..])
      case Some(n) => Some(n)
      case None => if items[0].Wire? then Some(items[0].number) else None
  }

  /** The notation holds every deviation and every unknown text in order and the ball call; of several wires
      it keeps the last. */
  lemma {:induction false} NotationHoldsItems(n: Notation, items: seq<Item>)
    ensures var r := PutAll(n, items);
            && r.deviations == n.deviations + DeviationsIn(items)
            && r.unknown == n.unknown + UnknownIn(items)
            && (r.ballCall <==> n.ballCall || BallCall in items)
            && r.wire == (match LastWire(items) case Some(w) => Some(w) case None => n.wire)
    decreases |items|
  {
    if items != [] {
      NotationHoldsItems(Put(n, items[0]), items[1..]);
      assert items == [items[0]] + items[1..];
    }
  }

  /** Of two wires the first one is lost, and nothing tells of it. */
  lemma FirstWireIsLost(g: Glossary)
    requires NonEmpty(g.symbols)
    ensures PutAll(NOTHING, AllItems(Turns(["WIRE#1", "WIRE#2"], g))) == Notation(Some(2), [], false, [])
  {
    var tokens := ["WIRE#1", "WIRE#2"];
    WireTurn(tokens, "1", 1, g);
    WireTurn(tokens[1..], "2", 2, g);
    assert tokens[1..][1..] == [];
    NothingLeftToDo(g);
    PutWire(NOTHING, 1, [Wire(2)] + []);
    PutWire(NOTHING.(wire := Some(1)), 2, []);
  }

  lemma PutWire(n: Notation, number: nat, rest: seq<Item>)
    ensures PutAll(n, [Wire(number)] + rest) == PutAll(n.(wire := Some(number)), rest)
  {
    assert ([Wire(number)] + rest)[1..] == rest;
  }

  lemma NothingLeftToDo(g: Glossary)
    requires NonEmpty(g.symbols)
    ensures AllItems(Turns([], g)) == []
  {
  }

  lemma OneDigit(digit: string, n: nat)
    requires |digit| == 1 && IsDigit(digit[0]) && DigitValue(digit[0]) == n
    ensures DigitCount(digit) == 1 && digit[..1] == digit && digit[1..] == "" && DecimalValue(digit) == n && n <= 9
  {
    assert digit[1..] == "" && digit[..1] == digit && digit[..|digit| - 1] == "";
    assert DigitCount("") == 0 && DecimalValue("") == 0;
  }

  lemma WireTurn(tokens: seq<string>, digit: string, n: nat, g: Glossary)
    requires NonEmpty(g.symbols) && tokens != [] && tokens[0] == WIRE + digit
    requires |digit| == 1 && IsDigit(digit[0]) && DigitValue(digit[0]) == n
    ensures AllItems(Turns(tokens, g)) == [Wire(n)] + AllItems(Turns(tokens[1..], g))
  {
    hide TokenItem;
    assert tokens[0][|WIRE|..] == digit;
    OneDigit(digit, n);
    var turn := FirstTurn(tokens, g);
    assert turn == Turn([tokens[0]], [Wire(n)]);
    var rest := Turns(tokens[1..], g);
    assert ([turn] + rest)[1..] == rest;
  }

  // ---------------------------------------------------------------------------------------------
  // Repeated symbols
  // ---------------------------------------------------------------------------------------------

  // A meaning and how often it is called in a row.
  datatype Call = Call(meaning: string, count: nat)

  function Repeat(meaning: string, count: nat): seq<string> {
    seq(count, _ => meaning)
  }

  function Expand(calls: seq<Call>): seq<string> {
    if calls == [] then [] else Repeat(calls[0].meaning, calls[0].count) + Expand(calls[1..])
  }

  // Runs of at least one, and no two neighbouring runs of the same meaning.
  predicate AreRuns(calls: seq<Call>) {
    && (forall i :: 0 <= i < |calls| ==> calls[i].count >= 1)
    && (forall i :: 0 <= i < |calls| - 1 ==> calls[i].meaning != calls[i + 1].meaning)
  }

  lemma RepeatPush(s: seq<string>, i: nat, meaning: string, count: nat)
    requires i + count < |s| && s[i..i + count] == Repeat(meaning, count) && s[i + count] == meaning
    ensures s[i..i + count + 1] == Repeat(meaning, count + 1)
  {
    assert s[i..i + count + 1] == s[i..i + count] + [meaning];
  }

  lemma {:induction false} ExpandPush(calls: seq<Call>, call: Call)
    ensures Expand(calls + [call]) == Expand(calls) + Repeat(call.meaning, call.count)
  {
    if calls == [] {
      assert [call][1..] == [];
    } else {
      assert (calls + [call])[1..] == calls[1..] + [call];
      ExpandPush(calls[1..], call);
    }
  }

  /** The loop that turns repeated symbols into repeated calls: its runs are maximal and expand back to the
      meanings. */
  method GroupCalls(meanings: seq<string>) returns (calls: seq<Call>)
    ensures Expand(calls) == meanings
    ensures AreRuns(calls)
  {
    calls := [];
    var index := 0;
    while index < |meanings|
      invariant index <= |meanings|
      invariant Expand(calls) == meanings[..index]
      invariant AreRuns(calls)
      invariant calls != [] && index < |meanings| ==> calls[|calls| - 1].meaning != meanings[index]
    {
      var meaning := meanings[index];
      var count := 1;
      while index + count < |meanings| && meanings[index + count] == meaning
        invariant index + count <= |meanings|
        invariant meanings[index..index + count] == Repeat(meaning, count)
      {
        RepeatPush(meanings, index, meaning, count);
        count := count + 1;
      }
      ExpandPush(calls, Call(meaning, count));
      calls := calls + [Call(meaning, count)];
      assert meanings[..index + count] == meanings[..index] + meanings[index..index + count];
      index := index + count;
    }
    assert meanings[..index] == meanings;
  }

  /** Maximal runs are unique, so the calls are determined by the meanings. */
  lemma {:induction false} RunsAreUnique(a: seq<Call>, b: seq<Call>)
    requires AreRuns(a) && AreRuns(b) && Expand(a) == Expand(b)
    ensures a == b
  {
    if a == [] || b == [] {
      FirstOfExpand(a);
      FirstOfExpand(b);
    } else {
      var x, y := a[0], b[0];
      FirstOfExpand(a);
      FirstOfExpand(b);
      RunIsMaximal(a, y.count);
      RunIsMaximal(b, x.count);
      var all := Expand(a);
      assert x == y;
      assert Expand(a[1..]) == all[x.count..] == Expand(b[1..]);
      RunsAreUnique(a[1..], b[1..]);
      assert a == [x] + a[1..] && b == [y] + b[1..];
    }
  }

  lemma FirstOfExpand(calls: seq<Call>)
    requires AreRuns(calls)
    ensures calls == [] <==> Expand(calls) == []
    ensures calls != [] ==> |Expand(calls)| >= calls[0].count && Expand(calls)[0] == calls[0].meaning
    ensures calls != [] ==> Expand(calls)[..calls[0].count] == Repeat(calls[0].meaning, calls[0].count)
  {
    if calls != [] {
      assert Repeat(calls[0].meaning, calls[0].count)[0] == calls[0].meaning;
    }
  }

  lemma RunIsMaximal(calls: seq<Call>, k: nat)
    requires AreRuns(calls) && calls != [] && k <= |Expand(calls)|
    requires Expand(calls)[..k] == Repeat(calls[0].meaning, k)
    ensures k <= calls[0].count
  {
    var n := calls[0].count;
    if n < k {
      assert Expand(calls)[..k][n] == calls[0].meaning;
      RunEnds(calls);
    }
  }

  // After its first run, a list goes on with another meaning or ends.
  lemma RunEnds(calls: seq<Call>)
    requires AreRuns(calls) && calls != []
    ensures var n := calls[0].count;
            n <= |Expand(calls)| && (n < |Expand(calls)| ==> Expand(calls)[n] != calls[0].meaning)
  {
    var rest := calls[1..];
    FirstOfExpand(rest);
    if rest != [] {
      assert calls[0].meaning != calls[1].meaning;
      assert Expand(calls)[calls[0].count] == Expand(rest)[0];
    }
  }
}
