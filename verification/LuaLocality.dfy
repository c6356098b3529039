/**
 Reading is local: what a reader returns depends only on the characters it consumed and on the one
 character after them. The same text at another place, or with another continuation that starts with
 the same character, is read the same way.
 An edit in one part of a file therefore leaves the reading of every other part alone.
*/
module LuaLocality {
  import opened Options
  import opened LuaText

  // The characters of s in lo..hi are those of t, d positions further on, and the same character
  // (or the end of both texts) follows them.
  ghost predicate Agree(s: string, t: string, d: int, lo: nat, hi: nat) {
    && 0 <= lo + d
    && lo <= hi <= |s|
    && hi + d <= |t|
    && (forall p {:trigger s[p]} :: lo <= p < hi ==> s[p] == t[p + d])
    && (hi == |s| <==> hi + d == |t|)
    && (hi < |s| ==> s[hi] == t[hi + d] && s[hi] != '-')
  }

  // What r yields, moved d positions on.
  ghost function Moved<T>(r: Read<T>, d: int): Read<T>
    requires r.Some? ==> r.value.1 + d >= 0
  {
    match r
    case None => None
    case Some((v, end)) => Some((v, end + d))
  }

  ghost predicate Ends<T>(r: Read<T>, limit: nat) {
    r.Some? && r.value.1 <= limit
  }

  lemma SliceLocal(s: string, t: string, d: int, lo: nat, hi: nat, i: nat, j: nat)
    requires Agree(s, t, d, lo, hi)
    requires lo <= i <= j <= hi
    ensures s[i..j] == t[i + d..j + d]
  {
    forall p | 0 <= p < j - i
      ensures s[i..j][p] == t[i + d..j + d][p]
    {
      assert s[i..j][p] == s[i + p];
    }
  }

  lemma {:induction false} SkipLineLocal(s: string, t: string, d: int, lo: nat, hi: nat, i: nat)
    requires Agree(s, t, d, lo, hi)
    requires lo <= i <= hi && SkipLine(s, i) <= hi
    ensures SkipLine(t, i + d) == SkipLine(s, i) + d
    decreases hi - i
  {
    if SkipLine(s, i) != i {
      SkipLineLocal(s, t, d, lo, hi, i + 1);
    }
  }

  lemma {:induction false} SkipLocal(s: string, t: string, d: int, lo: nat, hi: nat, i: nat)
    requires Agree(s, t, d, lo, hi)
    requires lo <= i <= hi && Skip(s, i) <= hi
    ensures Skip(t, i + d) == Skip(s, i) + d
    decreases hi - i
  {
    hide SkipLine;
    if i < hi {
      if IsSpace(s[i]) {
        SkipLocal(s, t, d, lo, hi, i + 1);
      } else if StartsComment(s, i) {
        SkipLineLocal(s, t, d, lo, hi, i + 2);
        SkipLocal(s, t, d, lo, hi, SkipLine(s, i + 2));
      }
    }
  }

  // Either all the digits lie inside the window or those of t leave it too.
  lemma {:induction false} DigitsEndLocal(s: string, t: string, d: int, lo: nat, hi: nat, i: nat)
    requires Agree(s, t, d, lo, hi)
    requires lo <= i <= hi
    ensures DigitsEnd(s, i) <= hi ==> DigitsEnd(t, i + d) == DigitsEnd(s, i) + d
    ensures DigitsEnd(s, i) > hi ==> DigitsEnd(t, i + d) > hi + d
    decreases hi - i
  {
    if i < hi && IsDigit(s[i]) {
      DigitsEndLocal(s, t, d, lo, hi, i + 1);
    }
  }

  lemma {:induction false} NameEndLocal(s: string, t: string, d: int, lo: nat, hi: nat, i: nat)
    requires Agree(s, t, d, lo, hi)
    requires lo <= i <= hi && NameEnd(s, i) <= hi
    ensures NameEnd(t, i + d) == NameEnd(s, i) + d
    decreases hi - i
  {
    if NameEnd(s, i) != i {
      NameEndLocal(s, t, d, lo, hi, i + 1);
    }
  }

  lemma ReadEscapeLocal(s: string, t: string, d: int, lo: nat, hi: nat, i: nat)
    requires Agree(s, t, d, lo, hi)
    requires lo <= i <= |s| && Ends(ReadEscape(s, i), hi)
    ensures ReadEscape(t, i + d) == Moved(ReadEscape(s, i), d)
  {
    if IsDigit(s[i]) {
      DigitsEndLocal(s, t, d, lo, hi, i);
      SliceLocal(s, t, d, lo, hi, i, ReadEscape(s, i).value.1);
    }
  }

  lemma {:induction false} ReadStringLocal(s: string, t: string, d: int, lo: nat, hi: nat, i: nat, quote: char)
    requires Agree(s, t, d, lo, hi)
    requires lo <= i <= |s| && Ends(ReadString(s, i, quote), hi)
    ensures ReadString(t, i + d, quote) == Moved(ReadString(s, i, quote), d)
    decreases hi - i
  {
    hide ReadEscape;
    if s[i] == quote {
    } else if s[i] == '\\' {
      ReadEscapeLocal(s, t, d, lo, hi, i + 1);
      ReadStringLocal(s, t, d, lo, hi, ReadEscape(s, i + 1).value.1, quote);
    } else {
      ReadStringLocal(s, t, d, lo, hi, i + 1, quote);
    }
  }

  lemma ReadIntLocal(s: string, t: string, d: int, lo: nat, hi: nat, i: nat)
    requires Agree(s, t, d, lo, hi)
    requires lo <= i <= |s| && Ends(ReadInt(s, i), hi)
    ensures ReadInt(t, i + d) == Moved(ReadInt(s, i), d)
  {
    var start := if At(s, i, '-') then i + 1 else i;
    DigitsEndLocal(s, t, d, lo, hi, start);
    SliceLocal(s, t, d, lo, hi, start, DigitsEnd(s, start));
  }

  lemma ReadKeyLocal(s: string, t: string, d: int, lo: nat, hi: nat, i: nat)
    requires Agree(s, t, d, lo, hi)
    requires lo <= i <= |s| && Ends(ReadKey(s, i), hi)
    ensures ReadKey(t, i + d) == Moved(ReadKey(s, i), d)
  {
    hide ReadString, ReadInt;
    if s[i] == '"' || s[i] == '\'' {
      ReadStringLocal(s, t, d, lo, hi, i + 1, s[i]);
    } else {
      ReadIntLocal(s, t, d, lo, hi, i);
    }
  }

  // Blanks are skipped to the same place, where the same character stands.
  lemma SkipTo(s: string, t: string, d: int, lo: nat, hi: nat, i: nat) returns (j: nat)
    requires Agree(s, t, d, lo, hi)
    requires lo <= i <= hi && Skip(s, i) <= hi
    ensures j == Skip(s, i) && i <= j <= hi <= |s| && i + d >= 0 && hi + d <= |t|
    ensures Skip(t, i + d) == j + d
    ensures forall c :: At(s, j, c) == At(t, j + d, c)
  {
    j := Skip(s, i);
    SkipLocal(s, t, d, lo, hi, i);
  }

  lemma ReadAssignLocal(s: string, t: string, d: int, lo: nat, hi: nat, i: nat)
    requires Agree(s, t, d, lo, hi)
    requires lo <= i <= hi && ReadAssign(s, i).Some? && ReadAssign(s, i).value <= hi
    ensures ReadAssign(t, i + d) == Some(ReadAssign(s, i).value + d)
  {
    hide Skip;
    var close := SkipTo(s, t, d, lo, hi, i);
    var equals := SkipTo(s, t, d, lo, hi, close + 1);
  }

  lemma ReadFieldHeadLocal(s: string, t: string, d: int, lo: nat, hi: nat, i: nat)
    requires Agree(s, t, d, lo, hi)
    requires lo <= i <= |s| && Ends(ReadFieldHead(s, i), hi)
    ensures ReadFieldHead(t, i + d) == Moved(ReadFieldHead(s, i), d)
  {
    hide ReadKey, ReadAssign, Skip;
    var keyAt := SkipTo(s, t, d, lo, hi, i + 1);
    ReadKeyLocal(s, t, d, lo, hi, keyAt);
    ReadAssignLocal(s, t, d, lo, hi, ReadKey(s, keyAt).value.1);
  }

  lemma {:induction false} ReadValueLocal(s: string, t: string, d: int, lo: nat, hi: nat, i: nat)
    requires Agree(s, t, d, lo, hi)
    requires lo <= i <= |s| && Ends(ReadValue(s, i), hi)
    ensures ReadValue(t, i + d) == Moved(ReadValue(s, i), d)
    decreases hi - i, 0
  {
    hide ReadString, ReadInt, NamedValue;
    if s[i] == '{' {
      ReadFieldsLocal(s, t, d, lo, hi, i + 1);
    } else if s[i] == '"' || s[i] == '\'' {
      ReadStringLocal(s, t, d, lo, hi, i + 1, s[i]);
    } else if s[i] == '-' || IsDigit(s[i]) {
      ReadIntLocal(s, t, d, lo, hi, i);
    } else {
      NameEndLocal(s, t, d, lo, hi, i);
      SliceLocal(s, t, d, lo, hi, i, NameEnd(s, i));
    }
  }

  lemma {:induction false} ReadFieldLocal(s: string, t: string, d: int, lo: nat, hi: nat, i: nat)
    requires Agree(s, t, d, lo, hi)
    requires lo <= i <= |s| && Ends(ReadField(s, i), hi)
    ensures ReadField(t, i + d) == Moved(ReadField(s, i), d)
    decreases hi - i, 1
  {
    hide ReadFieldHead, ReadValue, Skip;
    ReadFieldHeadLocal(s, t, d, lo, hi, i);
    var valueAt := SkipTo(s, t, d, lo, hi, ReadFieldHead(s, i).value.1);
    ReadValueLocal(s, t, d, lo, hi, valueAt);
  }

  lemma {:induction false} ReadFieldsLocal(s: string, t: string, d: int, lo: nat, hi: nat, i: nat)
    requires Agree(s, t, d, lo, hi)
    requires lo <= i <= |s| && Ends(ReadFields(s, i), hi)
    ensures ReadFields(t, i + d) == Moved(ReadFields(s, i), d)
    decreases hi - i, 2
  {
    hide ReadField, Skip, Agree;
    var start := SkipTo(s, t, d, lo, hi, i);
    if !At(s, start, '}') {
      ReadFieldLocal(s, t, d, lo, hi, start);
      var next := SkipTo(s, t, d, lo, hi, ReadField(s, start).value.1);
      if At(s, next, ',') || At(s, next, ';') {
        ReadFieldsLocal(s, t, d, lo, hi, next + 1);
      } else {
        assert At(t, next + d, '}');
      }
    }
  }
}
