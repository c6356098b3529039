/**
 Passes grouped by pilot: one read through all rows, newest first, with an index of the groups met so far.
*/
module PilotGroups {
  import opened Options
  import opened Sequences

  datatype Pass = Pass(
    id: int,
    name: string,
    date: string,
    grade: string,
    gradePoints: Option<real>,
    pointsAwarded: Option<bool>)

  datatype Row = Row(ucid: Option<string>, pass: Pass)

  datatype GroupKey = Ucid(ucid: string) | Name(name: string)

  datatype Pilot = Pilot(
    name: string,
    aliases: seq<string>,
    totalPasses: nat,
    gradedPasses: nat,
    avgPoints: Option<real>,
    lastPassAt: string,
    passes: seq<Pass>)

  function PassPoints(pass: Pass): Option<real> {
    if pass.pointsAwarded == Some(false) then None
    else if pass.gradePoints.Some? then pass.gradePoints
    else if pass.grade == "_OK_" then Some(5.0)
    else if pass.grade == "OK" then Some(4.0)
    else if pass.grade == "(OK)" then Some(3.0)
    else if pass.grade == "--" then Some(2.0)
    else if pass.grade == "C" then Some(0.0)
    else if pass.grade == "B" then Some(2.5)
    else if pass.grade == "WO" then Some(1.0)
    else None
  }

  // ---------------------------------------------------------------------------------------------
  // First appearances
  // ---------------------------------------------------------------------------------------------

  // The distinct elements, in the order in which they first appear.
  function Firsts<T(==)>(s: seq<T>): seq<T> {
    if s == [] then []
    else
      var before := Firsts(s[..|s| - 1]);
      if s[|s| - 1] in before then before else before + [s[|s| - 1]]
  }

  lemma {:induction false} FirstsHold<T>(s: seq<T>, x: T)
    ensures x in Firsts(s) <==> x in s
  {
    if s != [] {
      FirstsHold(s[..|s| - 1], x);
      assert s == s[..|s| - 1] + [s[|s| - 1]];
    }
  }

  lemma {:induction false} FirstsAreDistinct<T>(s: seq<T>)
    ensures Distinct(Firsts(s))
    ensures s != [] ==> Firsts(s) != [] && Firsts(s)[0] == s[0]
  {
    if s != [] {
      FirstsAreDistinct(s[..|s| - 1]);
    }
  }

  // x appears in s before any y.
  predicate AppearsBefore<T(==)>(s: seq<T>, x: T, y: T) {
    exists n :: 0 <= n < |s| && s[n] == x && y !in s[..n + 1]
  }

  // Of two elements, the one that appears first comes first.
  lemma {:induction false} FirstsInOrder<T>(s: seq<T>, i: nat, j: nat)
    requires i < j < |Firsts(s)|
    ensures AppearsBefore(s, Firsts(s)[i], Firsts(s)[j])
  {
    var before := s[..|s| - 1];
    var last := s[|s| - 1];
    if j < |Firsts(before)| {
      FirstsInOrder(before, i, j);
      var n :| 0 <= n < |before| && before[n] == Firsts(before)[i] && Firsts(before)[j] !in before[..n + 1];
      assert s[..n + 1] == before[..n + 1];
      assert s[n] == Firsts(s)[i] && Firsts(s)[j] !in s[..n + 1];
    } else {
      FirstsHold(before, last);
      FirstsHold(before, Firsts(before)[i]);
      var n :| 0 <= n < |before| && before[n] == Firsts(before)[i];
      assert s[..n + 1] == before[..n + 1];
      assert s[n] == Firsts(s)[i] && Firsts(s)[j] !in s[..n + 1];
    }
  }

  // ---------------------------------------------------------------------------------------------
  // Keys
  // ---------------------------------------------------------------------------------------------

  // The one UCID seen with each name so far; None for a name seen with several.
  function NameToUcid(rows: seq<Row>): map<string, Option<string>> {
    if rows == [] then map[]
    else
      var known, row := NameToUcid(rows[..|rows| - 1]), rows[|rows| - 1];
      match row.ucid
      case None => known
      case Some(ucid) =>
        if row.pass.name !in known then known[row.pass.name := Some(ucid)]
        else if known[row.pass.name] != Some(ucid) then known[row.pass.name := None]
        else known
  }

  function KeyOf(row: Row, known: map<string, Option<string>>): GroupKey {
    match row.ucid
    case Some(ucid) => Ucid(ucid)
    case None =>
      if row.pass.name in known && known[row.pass.name].Some? then Ucid(known[row.pass.name].value)
      else Name(row.pass.name)
  }

  // A row that shows the UCID with the name.
  predicate Shows(rows: seq<Row>, name: string, ucid: string) {
    exists i :: 0 <= i < |rows| && rows[i].ucid == Some(ucid) && rows[i].pass.name == name
  }

  lemma ShowsMore(rows: seq<Row>, name: string, ucid: string)
    requires rows != []
    ensures var last := rows[|rows| - 1];
            Shows(rows, name, ucid) <==>
            Shows(rows[..|rows| - 1], name, ucid) || (last.ucid == Some(ucid) && last.pass.name == name)
  {
    var before := rows[..|rows| - 1];
    if Shows(before, name, ucid) {
      var i :| 0 <= i < |before| && before[i].ucid == Some(ucid) && before[i].pass.name == name;
      assert rows[i] == before[i];
    }
    if Shows(rows, name, ucid) {
      var i :| 0 <= i < |rows| && rows[i].ucid == Some(ucid) && rows[i].pass.name == name;
      if i < |before| {
        assert before[i] == rows[i];
      }
    }
  }

  /** A name belongs to a UCID exactly when that is the only UCID ever seen with it, and has an entry exactly
      when some UCID was seen with it. */
  lemma {:induction false} NameToUcidIs(rows: seq<Row>, name: string, ucid: string)
    ensures var known := NameToUcid(rows);
            && (name in known && known[name] == Some(ucid) <==>
                Shows(rows, name, ucid) && forall other :: Shows(rows, name, other) ==> other == ucid)
            && (name !in known ==> !Shows(rows, name, ucid))
    ensures name in NameToUcid(rows) ==> exists seen :: Shows(rows, name, seen)
  {
    hide Shows;
    if rows == [] {
      NothingShown(name);
    } else {
      var before, last := rows[..|rows| - 1], rows[|rows| - 1];
      forall other
        ensures Shows(rows, name, other) <==>
                Shows(before, name, other) || (last.ucid == Some(other) && last.pass.name == name)
      {
        ShowsMore(rows, name, other);
      }
      forall other
        ensures name !in NameToUcid(before) ==> !Shows(before, name, other)
        ensures name in NameToUcid(before) && NameToUcid(before)[name] == Some(other) <==>
                Shows(before, name, other) && forall x :: Shows(before, name, x) ==> x == other
      {
        NameToUcidIs(before, name, other);
      }
      if last.ucid.Some? && last.pass.name == name {
        var u := last.ucid.value;
        assert Shows(rows, name, u);
        if name in NameToUcid(before) && NameToUcid(before)[name] == None {
          NameToUcidIs(before, name, u);
          var seen :| Shows(before, name, seen);
          if seen == u {
            var other :| Shows(before, name, other) && other != u;
            assert Shows(rows, name, other);
          }
          assert Shows(rows, name, seen);
        }
      } else if name in NameToUcid(before) {
        NameToUcidIs(before, name, ucid);
      }
    }
  }

  lemma NothingShown(name: string)
    ensures forall ucid :: !Shows([], name, ucid)
  {
  }

  function Keys(rows: seq<Row>, known: map<string, Option<string>>): seq<GroupKey> {
    seq(|rows|, i requires 0 <= i < |rows| => KeyOf(rows[i], known))
  }

  // ---------------------------------------------------------------------------------------------
  // Groups
  // ---------------------------------------------------------------------------------------------

  // The passes of the rows with a key, in order.
  function Members(rows: seq<Row>, known: map<string, Option<string>>, key: GroupKey): seq<Pass> {
    if rows == [] then []
    else
      var last := rows[|rows| - 1];
      Members(rows[..|rows| - 1], known, key) + if KeyOf(last, known) == key then [last.pass] else []
  }

  function Names(passes: seq<Pass>): seq<string> {
    seq(|passes|, i requires 0 <= i < |passes| => passes[i].name)
  }

  function SumPoints(passes: seq<Pass>): real {
    if passes == [] then 0.0
    else
      SumPoints(passes[..|passes| - 1]) +
      match PassPoints(passes[|passes| - 1]) case Some(points) => points case None => 0.0
  }

  function Graded(passes: seq<Pass>): nat {
    if passes == [] then 0
    else Graded(passes[..|passes| - 1]) + if PassPoints(passes[|passes| - 1]).Some? then 1 else 0
  }

  function Capped(passes: seq<Pass>, cap: Option<nat>): seq<Pass> {
    if cap.Some? && cap.value < |passes| then passes[..cap.value] else passes
  }

  // A pilot as described by all of the passes of a group, newest first.
  function PilotOf(passes: seq<Pass>, cap: Option<nat>): Pilot
    requires passes != []
  {
    FirstsAreDistinct(Names(passes));
    Pilot(
      passes[0].name,
      Firsts(Names(passes))[1..],
      |passes|,
      Graded(passes),
      if Graded(passes) > 0 then Some(SumPoints(passes) / Graded(passes) as real) else None,
      passes[0].date,
      Capped(passes, cap))
  }

  lemma {:induction false} MembersOfKey(rows: seq<Row>, known: map<string, Option<string>>, key: GroupKey)
    ensures key in Keys(rows, known) <==> Members(rows, known, key) != []
  {
    if rows != [] {
      var before, last := rows[..|rows| - 1], rows[|rows| - 1];
      MembersOfKey(before, known, key);
      assert Keys(rows, known) == Keys(before, known) + [KeyOf(last, known)];
    }
  }

  function KeyList(rows: seq<Row>, known: map<string, Option<string>>): seq<GroupKey> {
    Firsts(Keys(rows, known))
  }

  // One pilot for every key, in the order in which the keys first appear.
  function Grouped(rows: seq<Row>, cap: Option<nat>): seq<Pilot> {
    var known := NameToUcid(rows);
    var keys := KeyList(rows, known);
    seq(|keys|, i requires 0 <= i < |keys| => PilotOfKey(rows, known, keys[i], cap))
  }

  function PilotOfKey(rows: seq<Row>, known: map<string, Option<string>>, key: GroupKey, cap: Option<nat>): Pilot
    requires key in KeyList(rows, known)
  {
    FirstsHold(Keys(rows, known), key);
    MembersOfKey(rows, known, key);
    PilotOf(Members(rows, known, key), cap)
  }

  lemma KeysPush(rows: seq<Row>, known: map<string, Option<string>>, i: nat)
    requires i < |rows|
    ensures Keys(rows[..i + 1], known) == Keys(rows[..i], known) + [KeyOf(rows[i], known)]
    ensures KeyList(rows[..i + 1], known) ==
            var keys, key := KeyList(rows[..i], known), KeyOf(rows[i], known);
            if key in keys then keys else keys + [key]
  {
    assert rows[..i + 1] == rows[..i] + [rows[i]];
    assert Keys(rows[..i + 1], known) == Keys(rows[..i], known) + [KeyOf(rows[i], known)];
  }

  lemma MembersPush(rows: seq<Row>, known: map<string, Option<string>>, i: nat, key: GroupKey)
    requires i < |rows|
    ensures Members(rows[..i + 1], known, key) ==
            Members(rows[..i], known, key) + if KeyOf(rows[i], known) == key then [rows[i].pass] else []
  {
    assert rows[..i + 1][..i] == rows[..i];
  }

  // A group as it is kept while its rows come in: everything but the average, which waits for the end.
  function Unfinished(passes: seq<Pass>, cap: Option<nat>): Pilot
    requires passes != []
  {
    PilotOf(passes, cap).(avgPoints := None)
  }

  // One more pass of a pilot.
  function AddPass(pilot: Pilot, pass: Pass, cap: Option<nat>): Pilot {
    pilot.(
      aliases := if pass.name != pilot.name && pass.name !in pilot.aliases
                 then pilot.aliases + [pass.name] else pilot.aliases,
      totalPasses := pilot.totalPasses + 1,
      gradedPasses := if PassPoints(pass).Some? then pilot.gradedPasses + 1 else pilot.gradedPasses,
      passes := if cap.None? || |pilot.passes| < cap.value then pilot.passes + [pass] else pilot.passes)
  }

  function NewPilot(pass: Pass): Pilot {
    Pilot(pass.name, [], 0, 0, None, pass.date, [])
  }

  // A new pilot's first pass, and every later one, keep the record of the passes so far.
  lemma AddPassKeeps(passes: seq<Pass>, pass: Pass, cap: Option<nat>)
    ensures AddPass(if passes == [] then NewPilot(pass) else Unfinished(passes, cap), pass, cap) ==
            Unfinished(passes + [pass], cap)
    ensures SumPoints(passes + [pass]) ==
            SumPoints(passes) + match PassPoints(pass) case Some(points) => points case None => 0.0
  {
    hide PassPoints, Names, Firsts, Distinct, Graded, SumPoints, Capped;
    AliasesPush(passes, pass);
    CappedPush(passes, pass, cap);
    TotalsPush(passes, pass, cap);
    if passes == [] {
      assert (passes + [pass])[0] == pass && [pass.name][1..] == [];
    } else {
      assert (passes + [pass])[0] == passes[0];
    }
  }

  lemma TotalsPush(passes: seq<Pass>, pass: Pass, cap: Option<nat>)
    ensures Graded(passes + [pass]) == Graded(passes) + if PassPoints(pass).Some? then 1 else 0
    ensures SumPoints(passes + [pass]) ==
            SumPoints(passes) + match PassPoints(pass) case Some(points) => points case None => 0.0
    ensures passes == [] ==> Graded(passes) == 0 && Capped(passes, cap) == []
  {
    hide PassPoints;
    assert (passes + [pass])[..|passes|] == passes;
  }

  lemma AliasesPush(passes: seq<Pass>, pass: Pass)
    ensures var firsts, more := Firsts(Names(passes)), Firsts(Names(passes + [pass]));
            if passes == [] then more == [pass.name]
            else
              && firsts != [] && firsts[0] == passes[0].name && more != []
              && more[1..] == if pass.name != passes[0].name && pass.name !in firsts[1..]
                              then firsts[1..] + [pass.name] else firsts[1..]
  {
    var names := Names(passes);
    assert Names(passes + [pass]) == names + [pass.name];
    assert (names + [pass.name])[..|names|] == names;
    FirstsAreDistinct(names);
    var firsts := Firsts(names);
    if passes != [] {
      assert firsts == [firsts[0]] + firsts[1..];
    }
  }

  lemma CappedPush(passes: seq<Pass>, pass: Pass, cap: Option<nat>)
    ensures Capped(passes + [pass], cap) ==
            if cap.None? || |Capped(passes, cap)| < cap.value then Capped(passes, cap) + [pass] else Capped(passes, cap)
  {
  }

  // ---------------------------------------------------------------------------------------------
  // The one read through the rows
  // ---------------------------------------------------------------------------------------------

  /** The first loop: which names belong to one UCID. */
  method LearnNames(rows: seq<Row>) returns (nameToUcid: map<string, Option<string>>)
    ensures nameToUcid == NameToUcid(rows)
  {
    nameToUcid := map[];
    for i := 0 to |rows|
      invariant nameToUcid == NameToUcid(rows[..i])
    {
      assert rows[..i + 1][..i] == rows[..i];
      var row := rows[i];
      if row.ucid.Some? {
        var name, ucid := row.pass.name, row.ucid.value;
        if name in nameToUcid {
          if nameToUcid[name] != Some(ucid) {
            nameToUcid := nameToUcid[name := None];
          }
        } else {
          nameToUcid := nameToUcid[name := Some(ucid)];
        }
      }
    }
    assert rows[..|rows|] == rows;
  }

  // What the second loop keeps: the groups met so far, their point sums, and where each key is.
  ghost predicate Grouping(rows: seq<Row>, known: map<string, Option<string>>, cap: Option<nat>,
                           pilots: seq<Pilot>, sums: seq<real>, index: map<GroupKey, nat>)
  {
    var keys := KeyList(rows, known);
    && |pilots| == |sums| == |keys|
    && (forall key :: key in index <==> key in keys)
    && (forall key :: key in index ==> index[key] < |keys| && keys[index[key]] == key)
    && (forall j :: 0 <= j < |keys| ==> GroupKept(Members(rows, known, keys[j]), cap, pilots[j], sums[j]))
  }

  predicate GroupKept(passes: seq<Pass>, cap: Option<nat>, pilot: Pilot, sum: real) {
    passes != [] && pilot == Unfinished(passes, cap) && sum == SumPoints(passes)
  }

  /** The whole grouping, equal to the declarative one. */
  method ListByPilot(rows: seq<Row>, cap: Option<nat>) returns (pilots: seq<Pilot>, totalPasses: nat)
    ensures totalPasses == |rows|
    ensures pilots == Grouped(rows, cap)
  {
    hide NameToUcid, KeyOf, PassPoints, KeyList, Members, GroupKept, Unfinished, AddPass;
    totalPasses := |rows|;
    var known := LearnNames(rows);
    pilots := [];
    var index: map<GroupKey, nat> := map[];
    var pointSums: seq<real> := [];
    NothingGrouped(known, cap);
    assert rows[..0] == [];
    for i := 0 to |rows|
      invariant Grouping(rows[..i], known, cap, pilots, pointSums, index)
    {
      var pass := rows[i].pass;
      var key := KeyOf(rows[i], known);
      ghost var before, sumsBefore, indexBefore := pilots, pointSums, index;
      var slot;
      if key in index {
        slot := index[key];
      } else {
        slot := |pilots|;
        index := index[key := slot];
        pilots := pilots + [NewPilot(pass)];
        pointSums := pointSums + [0.0];
      }
      pilots := pilots[slot := AddPass(pilots[slot], pass, cap)];
      match PassPoints(pass) {
        case Some(points) =>
          pointSums := pointSums[slot := pointSums[slot] + points];
        case None =>
      }
      RowGrouped(rows, known, cap, before, sumsBefore, indexBefore, i);
      GroupingStep(pilots, pointSums, index, before, sumsBefore, indexBefore, pass, key, cap);
    }
    assert rows[..|rows|] == rows;
    ghost var last := pilots;
    for j := 0 to |pilots|
      invariant |pilots| == |last| && forall k :: j <= k < |pilots| ==> pilots[k] == last[k]
      invariant forall k :: 0 <= k < j ==> pilots[k] == Finished(last[k], pointSums[k])
    {
      if pilots[j].gradedPasses > 0 {
        pilots := pilots[j := pilots[j].(avgPoints := Some(pointSums[j] / pilots[j].gradedPasses as real))];
      }
    }
    AllFinished(rows, known, cap, last, pointSums, index);
  }

  function Finished(pilot: Pilot, sum: real): Pilot {
    if pilot.gradedPasses > 0 then pilot.(avgPoints := Some(sum / pilot.gradedPasses as real)) else pilot
  }

  lemma NothingGrouped(known: map<string, Option<string>>, cap: Option<nat>)
    ensures Grouping([], known, cap, [], [], map[])
  {
    assert Keys([], known) == [];
  }

  // The groups after one row.
  function Later(pilots: seq<Pilot>, sums: seq<real>, index: map<GroupKey, nat>, pass: Pass, key: GroupKey,
                 cap: Option<nat>): (seq<Pilot>, seq<real>, map<GroupKey, nat>)
    requires |pilots| == |sums| && (key in index ==> index[key] < |pilots|)
  {
    var points := match PassPoints(pass) case Some(points) => points case None => 0.0;
    if key in index then
      var slot := index[key];
      (pilots[slot := AddPass(pilots[slot], pass, cap)], sums[slot := sums[slot] + points], index)
    else
      (pilots + [AddPass(NewPilot(pass), pass, cap)], sums + [0.0 + points], index[key := |pilots|])
  }

  lemma GroupingStep(pilots: seq<Pilot>, sums: seq<real>, index: map<GroupKey, nat>,
                     before: seq<Pilot>, sumsBefore: seq<real>, indexBefore: map<GroupKey, nat>,
                     pass: Pass, key: GroupKey, cap: Option<nat>)
    requires |before| == |sumsBefore| && (key in indexBefore ==> indexBefore[key] < |before|)
    requires key in indexBefore ==>
               var slot := indexBefore[key];
               && pilots == before[slot := AddPass(before[slot], pass, cap)] && index == indexBefore
               && sums == (match PassPoints(pass) case Some(points) => sumsBefore[slot := sumsBefore[slot] + points]
                                                  case None => sumsBefore)
    requires key !in indexBefore ==>
               && pilots == before + [AddPass(NewPilot(pass), pass, cap)] && index == indexBefore[key := |before|]
               && sums == (match PassPoints(pass) case Some(points) => sumsBefore + [0.0 + points]
                                                  case None => sumsBefore + [0.0])
    ensures (pilots, sums, index) == Later(before, sumsBefore, indexBefore, pass, key, cap)
  {
    hide PassPoints, AddPass;
    if key in indexBefore {
      var slot := indexBefore[key];
      assert sumsBefore[slot := sumsBefore[slot] + 0.0] == sumsBefore;
    }
  }

  lemma RowGrouped(rows: seq<Row>, known: map<string, Option<string>>, cap: Option<nat>,
                   pilots: seq<Pilot>, sums: seq<real>, index: map<GroupKey, nat>, i: nat)
    requires i < |rows| && Grouping(rows[..i], known, cap, pilots, sums, index)
    ensures |pilots| == |sums|
    ensures var pass, key := rows[i].pass, KeyOf(rows[i], known);
            && (key in index ==> index[key] < |pilots|)
            && var (pilots2, sums2, index2) := Later(pilots, sums, index, pass, key, cap);
               Grouping(rows[..i + 1], known, cap, pilots2, sums2, index2)
  {
    hide KeyOf, PassPoints, KeyList, Members, GroupKept, Unfinished, AddPass, Distinct, Firsts;
    var pass, key := rows[i].pass, KeyOf(rows[i], known);
    var keys := KeyList(rows[..i], known);
    KeysPush(rows, known, i);
    var keys2 := KeyList(rows[..i + 1], known);
    var (pilots2, sums2, index2) := Later(pilots, sums, index, pass, key, cap);
    forall j | 0 <= j < |keys2|
      ensures GroupKept(Members(rows[..i + 1], known, keys2[j]), cap, pilots2[j], sums2[j])
    {
      MembersPush(rows, known, i, keys2[j]);
      KeyListDistinct(rows[..i], known);
      if keys2[j] == key {
        KeyHasNoMembers(rows[..i], known, key);
        GroupGrows(Members(rows[..i], known, key), cap, pass, if key in index then pilots[j] else NewPilot(pass),
                   if key in index then sums[j] else 0.0);
      } else {
        assert Members(rows[..i], known, keys2[j]) + [] == Members(rows[..i], known, keys2[j]);
      }
    }
  }

  lemma KeyListDistinct(rows: seq<Row>, known: map<string, Option<string>>)
    ensures var keys := KeyList(rows, known); forall i, j :: 0 <= i < j < |keys| ==> keys[i] != keys[j]
  {
    FirstsAreDistinct(Keys(rows, known));
  }

  lemma KeyHasNoMembers(rows: seq<Row>, known: map<string, Option<string>>, key: GroupKey)
    ensures key in KeyList(rows, known) <==> Members(rows, known, key) != []
  {
    FirstsHold(Keys(rows, known), key);
    MembersOfKey(rows, known, key);
  }

  lemma GroupGrows(passes: seq<Pass>, cap: Option<nat>, pass: Pass, pilot: Pilot, sum: real)
    requires if passes == [] then pilot == NewPilot(pass) && sum == 0.0 else GroupKept(passes, cap, pilot, sum)
    ensures var points := match PassPoints(pass) case Some(points) => points case None => 0.0;
            GroupKept(passes + [pass], cap, AddPass(pilot, pass, cap), sum + points)
  {
    hide PassPoints, AddPass, Unfinished;
    AddPassKeeps(passes, pass, cap);
  }

  lemma AllFinished(rows: seq<Row>, known: map<string, Option<string>>, cap: Option<nat>,
                    pilots: seq<Pilot>, sums: seq<real>, index: map<GroupKey, nat>)
    requires known == NameToUcid(rows) && Grouping(rows, known, cap, pilots, sums, index)
    ensures |pilots| == |sums| == |Grouped(rows, cap)|
    ensures forall k :: 0 <= k < |pilots| ==> Finished(pilots[k], sums[k]) == Grouped(rows, cap)[k]
  {
    hide KeyOf, PassPoints, Members, Distinct, Firsts;
  }

  // ---------------------------------------------------------------------------------------------
  // What the grouping means
  // ---------------------------------------------------------------------------------------------

  /** A row's key is a UCID exactly when the row carries it, or carries none and its name was only ever seen
      with that UCID; otherwise it is the name. */
  lemma KeyIs(rows: seq<Row>, row: Row, ucid: string)
    ensures var key := KeyOf(row, NameToUcid(rows));
            && (key == Ucid(ucid) <==>
                row.ucid == Some(ucid)
                || (row.ucid == None && Shows(rows, row.pass.name, ucid)
                    && forall other :: Shows(rows, row.pass.name, other) ==> other == ucid))
            && (key.Name? ==> key.name == row.pass.name && row.ucid == None)
  {
    hide NameToUcid, Shows;
    NameToUcidIs(rows, row.pass.name, ucid);
  }

  function PilotIndex(rows: seq<Row>, i: nat): (slot: nat)
    requires i < |rows|
    ensures slot < |KeyList(rows, NameToUcid(rows))|
    ensures KeyList(rows, NameToUcid(rows))[slot] == KeyOf(rows[i], NameToUcid(rows))
  {
    var known := NameToUcid(rows);
    var key := KeyOf(rows[i], known);
    assert Keys(rows, known)[i] == key;
    FirstsHold(Keys(rows, known), key);
    IndexOf(KeyList(rows, known), key)
  }

  function IndexOf<T(==)>(s: seq<T>, x: T): (i: nat)
    requires x in s
    ensures i < |s| && s[i] == x
  {
    if s[0] == x then 0 else 1 + IndexOf(s[1..], x)
  }

  lemma {:induction false} InMembers(rows: seq<Row>, known: map<string, Option<string>>, i: nat)
    requires i < |rows|
    ensures rows[i].pass in Members(rows, known, KeyOf(rows[i], known))
  {
    hide KeyOf;
    if i < |rows| - 1 {
      assert rows[..|rows| - 1][i] == rows[i];
      InMembers(rows[..|rows| - 1], known, i);
    }
  }

  lemma {:induction false} MemberRow(rows: seq<Row>, known: map<string, Option<string>>, key: GroupKey, pass: Pass)
    returns (i: nat)
    requires pass in Members(rows, known, key)
    ensures i < |rows| && rows[i].pass == pass && KeyOf(rows[i], known) == key
  {
    hide KeyOf;
    var last := |rows| - 1;
    if pass == rows[last].pass && KeyOf(rows[last], known) == key {
      i := last;
    } else {
      i := MemberRow(rows[..last], known, key, pass);
    }
  }

  // The id of a pass is a key of the table.
  predicate DistinctIds(rows: seq<Row>) {
    forall i, j :: 0 <= i < j < |rows| ==> rows[i].pass.id != rows[j].pass.id
  }

  predicate Holds(rows: seq<Row>, slot: nat, i: nat)
    requires slot < |Grouped(rows, None)| && i < |rows|
  {
    rows[i].pass in Grouped(rows, None)[slot].passes
  }

  lemma HeldByKey(rows: seq<Row>, slot: nat, i: nat)
    requires slot < |Grouped(rows, None)| && i < |rows| && DistinctIds(rows)
    ensures slot < |KeyList(rows, NameToUcid(rows))|
    ensures Holds(rows, slot, i) <==> KeyOf(rows[i], NameToUcid(rows)) == KeyList(rows, NameToUcid(rows))[slot]
  {
    hide NameToUcid, KeyOf, Members, Firsts, KeyList, Grouped;
    var known := NameToUcid(rows);
    SlotsAreKeys(rows);
    GroupedPasses(rows, slot);
    InMembers(rows, known, i);
    if Holds(rows, slot, i) {
      var k := MemberRow(rows, known, KeyList(rows, known)[slot], rows[i].pass);
      assert k == i;
    }
  }

  lemma SlotsAreKeys(rows: seq<Row>)
    ensures |Grouped(rows, None)| == |KeyList(rows, NameToUcid(rows))|
  {
    hide NameToUcid, KeyOf, Members, Firsts, KeyList;
  }

  /** Two rows share a pilot exactly when their keys agree: the slots of their keys are the same, and so is any
      slot whose passes hold the one and the other. */
  lemma RowsShare(rows: seq<Row>, i: nat, j: nat)
    requires i < |rows| && j < |rows|
    ensures var known := NameToUcid(rows);
            && (PilotIndex(rows, i) == PilotIndex(rows, j) <==> KeyOf(rows[i], known) == KeyOf(rows[j], known))
            && PilotIndex(rows, i) < |Grouped(rows, None)| && Holds(rows, PilotIndex(rows, i), i)
    ensures DistinctIds(rows) ==>
              forall slot :: 0 <= slot < |Grouped(rows, None)| && Holds(rows, slot, i) ==>
                (Holds(rows, slot, j) <==> KeyOf(rows[i], NameToUcid(rows)) == KeyOf(rows[j], NameToUcid(rows)))
  {
    hide NameToUcid, KeyOf, Members, Firsts, KeyList, PilotIndex, DistinctIds;
    var known := NameToUcid(rows);
    KeyListDistinct(rows, known);
    InMembers(rows, known, i);
    GroupedPasses(rows, PilotIndex(rows, i));
    hide Grouped;
    if DistinctIds(rows) {
      forall slot | 0 <= slot < |Grouped(rows, None)| && Holds(rows, slot, i)
        ensures Holds(rows, slot, j) <==> KeyOf(rows[i], known) == KeyOf(rows[j], known)
      {
        hide Holds;
        HeldByKey(rows, slot, i);
        HeldByKey(rows, slot, j);
      }
    }
  }

  lemma GroupedPasses(rows: seq<Row>, slot: nat)
    requires slot < |KeyList(rows, NameToUcid(rows))|
    ensures slot < |Grouped(rows, None)|
    ensures Grouped(rows, None)[slot].passes ==
            Members(rows, NameToUcid(rows), KeyList(rows, NameToUcid(rows))[slot])
  {
    hide NameToUcid, KeyOf, Members, Firsts, KeyList;
  }

  // The pilots come in the order of their newest pass: the rows are newest first, and the key of an earlier
  // pilot appears before that of a later one.
  lemma PilotsInOrder(rows: seq<Row>, i: nat, j: nat)
    requires i < j < |Grouped(rows, None)|
    ensures var known := NameToUcid(rows);
            var keys := KeyList(rows, known);
            AppearsBefore(Keys(rows, known), keys[i], keys[j])
  {
    hide NameToUcid, KeyOf, Members, Firsts, AppearsBefore;
    FirstsInOrder(Keys(rows, NameToUcid(rows)), i, j);
  }

  function SumSizes(rows: seq<Row>, known: map<string, Option<string>>, keys: seq<GroupKey>): nat {
    if keys == [] then 0 else |Members(rows, known, keys[0])| + SumSizes(rows, known, keys[1..])
  }

  // One more row adds one to the sizes exactly when its key is listed.
  lemma {:induction false} SizesPush(rows: seq<Row>, known: map<string, Option<string>>, keys: seq<GroupKey>)
    requires rows != [] && Distinct(keys)
    ensures var before, key := rows[..|rows| - 1], KeyOf(rows[|rows| - 1], known);
            SumSizes(rows, known, keys) == SumSizes(before, known, keys) + if key in keys then 1 else 0
    decreases |keys|
  {
    hide KeyOf;
    if keys != [] {
      assert Distinct(keys[1..]) by {
        forall i, j | 0 <= i < j < |keys[1..]| ensures keys[1..][i] != keys[1..][j] {
          assert keys[i + 1] != keys[j + 1];
        }
      }
      SizesPush(rows, known, keys[1..]);
      assert keys == [keys[0]] + keys[1..];
      assert keys[0] !in keys[1..];
    }
  }

  lemma {:induction false} SizesAddUp(rows: seq<Row>, known: map<string, Option<string>>, keys: seq<GroupKey>)
    requires Distinct(keys) && forall i :: 0 <= i < |rows| ==> KeyOf(rows[i], known) in keys
    ensures SumSizes(rows, known, keys) == |rows|
    decreases |rows|
  {
    hide KeyOf;
    if rows == [] {
      NoSizes(known, keys);
    } else {
      SizesPush(rows, known, keys);
      SizesAddUp(rows[..|rows| - 1], known, keys);
    }
  }

  lemma {:induction false} NoSizes(known: map<string, Option<string>>, keys: seq<GroupKey>)
    ensures SumSizes([], known, keys) == 0
  {
    if keys != [] {
      NoSizes(known, keys[1..]);
    }
  }

  function SumTotals(pilots: seq<Pilot>): nat {
    if pilots == [] then 0 else pilots[0].totalPasses + SumTotals(pilots[1..])
  }

  lemma {:induction false} TotalsAreSizes(rows: seq<Row>, known: map<string, Option<string>>, keys: seq<GroupKey>,
                                          pilots: seq<Pilot>)
    requires |pilots| == |keys|
    requires forall i :: 0 <= i < |keys| ==> pilots[i].totalPasses == |Members(rows, known, keys[i])|
    ensures SumTotals(pilots) == SumSizes(rows, known, keys)
    decreases |keys|
  {
    hide Members;
    if keys != [] {
      TotalsAreSizes(rows, known, keys[1..], pilots[1..]);
    }
  }

  /** The groups partition the rows: their sizes add up to the number of rows, whatever the cap. */
  lemma TotalsAddUp(rows: seq<Row>, cap: Option<nat>)
    ensures SumTotals(Grouped(rows, cap)) == |rows|
  {
    hide NameToUcid, KeyOf, Members, Firsts, Distinct, Graded, SumPoints;
    var known := NameToUcid(rows);
    var keys := KeyList(rows, known);
    FirstsAreDistinct(Keys(rows, known));
    forall i | 0 <= i < |rows|
      ensures KeyOf(rows[i], known) in keys
    {
      assert Keys(rows, known)[i] == KeyOf(rows[i], known);
      FirstsHold(Keys(rows, known), KeyOf(rows[i], known));
    }
    SizesAddUp(rows, known, keys);
    TotalsAreSizes(rows, known, keys, Grouped(rows, cap));
  }

  /** The cap only shortens the lists of passes: everything else is as without a cap. */
  lemma CapOnlyShortens(rows: seq<Row>, cap: nat, i: nat)
    requires i < |Grouped(rows, None)|
    ensures |Grouped(rows, Some(cap))| == |Grouped(rows, None)|
    ensures var all := Grouped(rows, None)[i];
            Grouped(rows, Some(cap))[i] ==
            all.(passes := if cap < |all.passes| then all.passes[..cap] else all.passes)
  {
    hide NameToUcid, KeyOf, Members, Firsts, Graded, SumPoints;
  }
}
