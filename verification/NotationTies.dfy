/**
 Which of several equally good readings of a landing comment is taken: the one that comes first in the tables.
*/
module NotationTies {
  import opened LsoNotation
  import opened Options
  import opened Sequences

  // Where a code stands in a table, for the codes in it.
  function Position(codes: seq<string>, code: string): nat {
    if codes == [] || codes[0] == code then 0 else 1 + Position(codes[1..], code)
  }

  lemma {:induction false} PositionIs(codes: seq<string>, i: nat)
    requires Distinct(codes) && i < |codes|
    ensures Position(codes, codes[i]) == i
  {
    if i > 0 {
      assert codes[0] != codes[i];
      PositionIs(codes[1..], i - 1);
    }
  }

  // The two cuts part after n symbols, and the first goes on with the symbol that the table has first.
  ghost predicate PartsAt(symbols: seq<string>, a: seq<string>, b: seq<string>, n: nat) {
    n < |a| && n < |b| && a[..n] == b[..n] && Position(symbols, a[n]) < Position(symbols, b[n])
  }

  ghost predicate CutBefore(symbols: seq<string>, a: seq<string>, b: seq<string>) {
    exists n: nat :: PartsAt(symbols, a, b, n)
  }

  ghost predicate CutsInOrder(symbols: seq<string>, cuts: seq<seq<string>>) {
    forall i, j :: 0 <= i < j < |cuts| ==> CutBefore(symbols, cuts[i], cuts[j])
  }

  lemma PutFirstInOrder(symbols: seq<string>, symbol: string, tails: seq<seq<string>>)
    requires CutsInOrder(symbols, tails)
    ensures CutsInOrder(symbols, PutFirst(symbol, tails))
  {
    hide Position;
    var cuts := PutFirst(symbol, tails);
    forall i, j | 0 <= i < j < |cuts|
      ensures CutBefore(symbols, cuts[i], cuts[j])
    {
      assert CutBefore(symbols, tails[i], tails[j]);
      var n: nat :| PartsAt(symbols, tails[i], tails[j], n);
      assert cuts[i][..n + 1] == [symbol] + tails[i][..n];
      assert cuts[j][..n + 1] == [symbol] + tails[j][..n];
      assert PartsAt(symbols, cuts[i], cuts[j], n + 1);
    }
  }

  lemma InOrderJoin(symbols: seq<string>, a: seq<seq<string>>, b: seq<seq<string>>)
    requires CutsInOrder(symbols, a) && CutsInOrder(symbols, b)
    requires forall x, y :: x in a && y in b ==> CutBefore(symbols, x, y)
    ensures CutsInOrder(symbols, a + b)
  {
    hide CutBefore;
    var c := a + b;
    forall i, j | 0 <= i < j < |c|
      ensures CutBefore(symbols, c[i], c[j])
    {
      if i < |a| <= j {
        assert c[i] in a && c[j] in b;
      }
    }
  }

  lemma {:induction false} SegmentationsInOrder(s: string, symbols: seq<string>)
    requires NonEmpty(symbols) && Distinct(symbols)
    ensures CutsInOrder(symbols, Segmentations(s, symbols))
    decreases |s|, |symbols| + 1
  {
    if s != "" {
      hide CutsInOrder, Cuts;
      CutsAreInOrder(s, symbols, 0);
    }
  }

  lemma {:induction false} CutsAreInOrder(s: string, symbols: seq<string>, i: nat)
    requires NonEmpty(symbols) && Distinct(symbols) && i <= |symbols|
    ensures CutsInOrder(symbols, Cuts(s, symbols, i))
    decreases |s|, |symbols| - i
  {
    hide Segmentations, PutFirst, CutsInOrder, Distinct;
    if i == |symbols| {
      NoCuts(symbols);
    } else {
      CutsAreInOrder(s, symbols, i + 1);
      var later := Cuts(s, symbols, i + 1);
      if symbols[i] <= s {
        var tails := Segmentations(s[|symbols[i]|..], symbols);
        SegmentationsInOrder(s[|symbols[i]|..], symbols);
        PutFirstInOrder(symbols, symbols[i], tails);
        FirstBeforeLater(s, symbols, i, tails);
        InOrderJoin(symbols, PutFirst(symbols[i], tails), later);
      } else {
        assert [] + later == later;
      }
    }
  }

  lemma NoCuts(symbols: seq<string>)
    ensures CutsInOrder(symbols, [])
  {
  }

  lemma FirstBeforeLater(s: string, symbols: seq<string>, i: nat, tails: seq<seq<string>>)
    requires NonEmpty(symbols) && Distinct(symbols) && i < |symbols|
    ensures forall x, y :: x in PutFirst(symbols[i], tails) && y in Cuts(s, symbols, i + 1) ==> CutBefore(symbols, x, y)
  {
    hide Segmentations, Cuts, PutFirst, Position, CutBefore, IsCut;
    forall x, y | x in PutFirst(symbols[i], tails) && y in Cuts(s, symbols, i + 1)
      ensures CutBefore(symbols, x, y)
    {
      InPutFirst(symbols[i], tails, x);
      CutsExact(s, symbols, i + 1, y);
      LaterSymbol(symbols, i, x, y);
    }
  }

  lemma LaterSymbol(symbols: seq<string>, i: nat, x: seq<string>, y: seq<string>)
    requires Distinct(symbols) && i < |symbols|
    requires x != [] && x[0] == symbols[i] && y != [] && y[0] in symbols[i + 1..]
    ensures CutBefore(symbols, x, y)
  {
    hide Position;
    var k :| 0 <= k < |symbols[i + 1..]| && symbols[i + 1..][k] == y[0];
    PositionIs(symbols, i);
    PositionIs(symbols, i + 1 + k);
    assert PartsAt(symbols, x, y, 0);
  }

  // Of two readings with a suffix the one whose suffix the table has first, and of two with the same suffix,
  // or none, the one whose symbols it has first.
  ghost predicate ReadBefore(g: Glossary, a: Reading, b: Reading) {
    if a.suffix == b.suffix then CutBefore(g.symbols, a.symbols, b.symbols)
    else a.suffix.Some? && b.suffix.Some?
         && Position(g.suffixes, a.suffix.value) < Position(g.suffixes, b.suffix.value)
  }

  ghost predicate ReadingsInOrder(g: Glossary, readings: seq<Reading>) {
    forall i, j :: 0 <= i < j < |readings| && readings[i].suffix.Some? == readings[j].suffix.Some? ==>
      ReadBefore(g, readings[i], readings[j])
  }

  lemma ReadingsJoin(g: Glossary, a: seq<Reading>, b: seq<Reading>)
    requires ReadingsInOrder(g, a) && ReadingsInOrder(g, b)
    requires forall x, y :: x in a && y in b && x.suffix.Some? == y.suffix.Some? ==> ReadBefore(g, x, y)
    ensures ReadingsInOrder(g, a + b)
  {
    hide ReadBefore;
    var c := a + b;
    forall i, j | 0 <= i < j < |c| && c[i].suffix.Some? == c[j].suffix.Some?
      ensures ReadBefore(g, c[i], c[j])
    {
      if i < |a| <= j {
        assert c[i] in a && c[j] in b;
      }
    }
  }

  lemma {:induction false} WithSuffixInOrder(g: Glossary, suffix: string, cuts: seq<seq<string>>, waveoff: bool)
    requires CutsInOrder(g.symbols, cuts)
    ensures ReadingsInOrder(g, WithSuffix(suffix, cuts, waveoff))
  {
    hide CutBefore;
    if cuts != [] {
      var later := WithSuffix(suffix, cuts[1..], waveoff);
      WithSuffixInOrder(g, suffix, cuts[1..], waveoff);
      var first := Reading(Some(suffix), cuts[0]);
      var front := if cuts[0] != [] || waveoff then [first] else [];
      forall x, y | x in front && y in later
        ensures ReadBefore(g, x, y)
      {
        InWithSuffix(suffix, cuts[1..], waveoff, y);
        var k :| 0 <= k < |cuts[1..]| && cuts[1..][k] == y.symbols;
        assert CutBefore(g.symbols, cuts[0], cuts[k + 1]);
      }
      ReadingsJoin(g, front, later);
    }
  }

  lemma {:induction false} SuffixReadingsInOrder(core: string, g: Glossary, i: nat, waveoff: bool)
    requires NonEmpty(g.symbols) && Distinct(g.symbols) && Distinct(g.suffixes) && i <= |g.suffixes|
    ensures ReadingsInOrder(g, SuffixReadings(core, g, i, waveoff))
    decreases |g.suffixes| - i
  {
    hide ReadingsInOrder, Segmentations, WithSuffix, CutBefore, CutsInOrder, Position, Admissible, Distinct, NonEmpty;
    if i == |g.suffixes| {
      NoReadings(g);
    } else {
      var suffix, later := g.suffixes[i], SuffixReadings(core, g, i + 1, waveoff);
      SuffixReadingsInOrder(core, g, i + 1, waveoff);
      if HasSuffix(core, suffix) {
        var cuts := Segmentations(Head(core, suffix), g.symbols);
        SegmentationsInOrder(Head(core, suffix), g.symbols);
        WithSuffixInOrder(g, suffix, cuts, waveoff);
        forall x, y | x in WithSuffix(suffix, cuts, waveoff) && y in later
          ensures ReadBefore(g, x, y)
        {
          InWithSuffix(suffix, cuts, waveoff, x);
          InSuffixReadings(core, g, i + 1, waveoff, y);
          LaterSuffix(g, i, x, y);
        }
        ReadingsJoin(g, WithSuffix(suffix, cuts, waveoff), later);
      } else {
        assert [] + later == later;
      }
    }
  }

  lemma NoReadings(g: Glossary)
    ensures ReadingsInOrder(g, [])
  {
  }

  lemma LaterSuffix(g: Glossary, i: nat, x: Reading, y: Reading)
    requires Distinct(g.suffixes) && i < |g.suffixes| && x.suffix == Some(g.suffixes[i])
    requires y.suffix.Some? && y.suffix.value in g.suffixes[i + 1..]
    ensures ReadBefore(g, x, y)
  {
    hide Position, CutBefore;
    var k :| 0 <= k < |g.suffixes[i + 1..]| && g.suffixes[i + 1..][k] == y.suffix.value;
    PositionIs(g.suffixes, i);
    PositionIs(g.suffixes, i + 1 + k);
  }

  lemma CandidatesInOrder(core: string, g: Glossary, waveoff: bool)
    requires NonEmpty(g.symbols) && Distinct(g.symbols) && Distinct(g.suffixes)
    ensures ReadingsInOrder(g, Candidates(core, g, waveoff))
  {
    hide SuffixReadings, Segmentations, CutBefore, ReadBefore, Admissible;
    var cuts := Segmentations(core, g.symbols);
    SuffixReadingsInOrder(core, g, 0, waveoff);
    SegmentationsInOrder(core, g.symbols);
    PlainInOrder(g, cuts);
    forall x, y | x in SuffixReadings(core, g, 0, waveoff) && y in PlainReadings(cuts)
      ensures x.suffix.Some? && y.suffix.None?
    {
      InSuffixReadings(core, g, 0, waveoff, x);
    }
    ReadingsJoin(g, SuffixReadings(core, g, 0, waveoff), PlainReadings(cuts));
  }

  lemma PlainInOrder(g: Glossary, cuts: seq<seq<string>>)
    requires CutsInOrder(g.symbols, cuts)
    ensures ReadingsInOrder(g, PlainReadings(cuts))
  {
    hide CutBefore;
  }

  // The preferred candidate comes before all that are earlier in the list.
  lemma {:induction false} PreferredIsFirst(candidates: seq<Reading>) returns (k: nat)
    requires candidates != []
    ensures k < |candidates| && Preferred(candidates) == Some(candidates[k])
    ensures forall j :: 0 <= j < k ==> Before(candidates[k], candidates[j])
  {
    hide Before;
    k := 0;
    if |candidates| > 1 {
      var m := PreferredIsFirst(candidates[1..]);
      var best := candidates[1..][m];
      assert best == candidates[m + 1];
      if Before(best, candidates[0]) {
        k := m + 1;
        forall j | 0 <= j < k
          ensures Before(candidates[k], candidates[j])
        {
          if j > 0 {
            assert candidates[j] == candidates[1..][j - 1];
          }
        }
      }
    } else {
      assert candidates[1..] == [];
    }
  }

  /** The reading of a core is an admissible one. Every other admissible one lacks a suffix where it has one, or
      is like it in that and has more symbols, or has as many and comes later in the tables. */
  lemma ChosenReading(core: string, g: Glossary, waveoff: bool, r: Reading)
    requires NonEmpty(g.symbols) && Distinct(g.symbols) && Distinct(g.suffixes)
    requires Admissible(core, g, waveoff, r)
    ensures var choice := Preferred(Candidates(core, g, waveoff));
            && choice.Some? && Admissible(core, g, waveoff, choice.value)
            && var best := choice.value;
               || r == best
               || (best.suffix.Some? && r.suffix.None?)
               || (best.suffix.Some? == r.suffix.Some? && |best.symbols| < |r.symbols|)
               || (best.suffix.Some? == r.suffix.Some? && |best.symbols| == |r.symbols| && ReadBefore(g, best, r))
  {
    hide Candidates, Admissible, ReadBefore, NonEmpty, Distinct;
    var all := Candidates(core, g, waveoff);
    CandidatesExact(core, g, waveoff, r);
    CandidatesInOrder(core, g, waveoff);
    var k := PreferredIsFirst(all);
    CandidatesExact(core, g, waveoff, all[k]);
    var m :| 0 <= m < |all| && all[m] == r;
    assert !Before(r, all[k]);
  }
}
