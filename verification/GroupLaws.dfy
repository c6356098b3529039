/**
 What the table of pilots says of each pilot, in the grades and points of the passes themselves.
*/
module GroupLaws {
  import opened Options
  import opened PilotGroups
  import opened Sequences

  // The score of a grade, for a pass that was stored without one.
  const GRADE_POINTS: map<string, real> :=
    map["_OK_" := 5.0, "OK" := 4.0, "(OK)" := 3.0, "B" := 2.5, "--" := 2.0, "WO" := 1.0, "C" := 0.0]

  // A pass that scores so many points: it was not refused them, and they are those stored with it or, if none
  // are stored, those of its grade.
  ghost predicate Scores(pass: Pass, points: real) {
    && pass.pointsAwarded != Some(false)
    && (pass.gradePoints == Some(points)
        || (pass.gradePoints == None && pass.grade in GRADE_POINTS && GRADE_POINTS[pass.grade] == points))
  }

  lemma ScoresAre(pass: Pass, points: real)
    ensures PassPoints(pass) == Some(points) <==> Scores(pass, points)
  {
  }

  // The scores of the passes that have one, in order.
  ghost predicate AreScores(passes: seq<Pass>, scores: seq<real>)
    decreases |passes|
  {
    if passes == [] then scores == []
    else if scores != [] && Scores(passes[0], scores[0]) then AreScores(passes[1..], scores[1..])
    else (forall points :: !Scores(passes[0], points)) && AreScores(passes[1..], scores)
  }

  function Sum(scores: seq<real>): real {
    if scores == [] then 0.0 else scores[0] + Sum(scores[1..])
  }

  // The scores of some passes, as the grouping reads them.
  function ScoresOf(passes: seq<Pass>): seq<real> {
    if passes == [] then []
    else
      match PassPoints(passes[0])
      case Some(points) => [points] + ScoresOf(passes[1..])
      case None => ScoresOf(passes[1..])
  }

  lemma {:induction false} ScoresOfAre(passes: seq<Pass>, scores: seq<real>)
    ensures AreScores(passes, scores) <==> scores == ScoresOf(passes)
    decreases |passes|
  {
    hide PassPoints, Scores;
    if passes != [] {
      var rest := ScoresOf(passes[1..]);
      match PassPoints(passes[0]) {
        case Some(points) =>
          ScoresAre(passes[0], points);
          assert !(forall other :: !Scores(passes[0], other));
          assert ([points] + rest)[1..] == rest;
          if scores != [] {
            ScoresAre(passes[0], scores[0]);
            ScoresOfAre(passes[1..], scores[1..]);
            assert scores == [scores[0]] + scores[1..];
          }
        case None =>
          forall other
            ensures !Scores(passes[0], other)
          {
            ScoresAre(passes[0], other);
          }
          ScoresOfAre(passes[1..], scores);
      }
    }
  }

  lemma {:induction false} SumPush(scores: seq<real>, more: seq<real>)
    ensures Sum(scores + more) == Sum(scores) + Sum(more)
  {
    if scores == [] {
      assert scores + more == more;
    } else {
      assert (scores + more)[1..] == scores[1..] + more;
      SumPush(scores[1..], more);
    }
  }

  lemma {:induction false} ScoresPush(passes: seq<Pass>, more: seq<Pass>)
    ensures ScoresOf(passes + more) == ScoresOf(passes) + ScoresOf(more)
  {
    hide PassPoints;
    if passes == [] {
      assert passes + more == more;
    } else {
      assert (passes + more)[1..] == passes[1..] + more;
      ScoresPush(passes[1..], more);
    }
  }

  lemma {:induction false} TotalsAre(passes: seq<Pass>)
    ensures Graded(passes) == |ScoresOf(passes)| && SumPoints(passes) == Sum(ScoresOf(passes))
  {
    hide PassPoints;
    if passes != [] {
      var before, last := passes[..|passes| - 1], passes[|passes| - 1];
      assert passes == before + [last];
      TotalsAre(before);
      ScoresPush(before, [last]);
      SumPush(ScoresOf(before), ScoresOf([last]));
      OneScore(last);
    }
  }

  lemma OneScore(pass: Pass)
    ensures ScoresOf([pass]) == match PassPoints(pass) case Some(points) => [points] case None => []
    ensures Sum(ScoresOf([pass])) == match PassPoints(pass) case Some(points) => points case None => 0.0
  {
    hide PassPoints;
    assert [pass][1..] == [];
  }

  /** The average of a pilot: the passes with a score are counted and their scores, from the table above or
      stored, are added up and divided by that count; without any there is no average. */
  lemma AverageIs(rows: seq<Row>, slot: nat, scores: seq<real>)
    requires slot < |Grouped(rows, None)| && AreScores(Grouped(rows, None)[slot].passes, scores)
    ensures var pilot := Grouped(rows, None)[slot];
            && pilot.gradedPasses == |scores|
            && pilot.avgPoints == if scores == [] then None else Some(Sum(scores) / |scores| as real)
  {
    var passes := Grouped(rows, None)[slot].passes;
    GroupOf(rows, slot);
    hide Grouped, PassPoints, Graded, SumPoints, AreScores, ScoresOf, Sum, Names, Firsts;
    TotalsAre(passes);
    ScoresOfAre(passes, scores);
  }

  lemma GroupOf(rows: seq<Row>, slot: nat)
    requires slot < |Grouped(rows, None)|
    ensures var pilot := Grouped(rows, None)[slot];
            pilot.passes != [] && pilot == PilotOf(pilot.passes, None)
  {
    hide NameToUcid, KeyOf, Keys, Members, Firsts, Graded, SumPoints, Names;
    var known := NameToUcid(rows);
    var key := KeyList(rows, known)[slot];
    FirstsHold(Keys(rows, known), key);
    MembersOfKey(rows, known, key);
    assert Grouped(rows, None)[slot] == PilotOf(Members(rows, known, key), None);
  }

  /** A pilot goes by the name of the newest pass, and was last seen at its date; the aliases are the other
      names of the passes, each of them once. */
  lemma NamesAre(rows: seq<Row>, slot: nat, name: string)
    requires slot < |Grouped(rows, None)|
    ensures var pilot := Grouped(rows, None)[slot];
            && pilot.passes != [] && pilot.name == pilot.passes[0].name && pilot.lastPassAt == pilot.passes[0].date
            && pilot.totalPasses == |pilot.passes|
            && Distinct([pilot.name] + pilot.aliases)
            && (name in [pilot.name] + pilot.aliases <==>
                exists k :: 0 <= k < |pilot.passes| && pilot.passes[k].name == name)
  {
    GroupOf(rows, slot);
    hide Grouped, Graded, SumPoints, Firsts, Distinct;
    var passes := Grouped(rows, None)[slot].passes;
    FirstsAreDistinct(Names(passes));
    var firsts := Firsts(Names(passes));
    assert firsts == [firsts[0]] + firsts[1..];
    FirstsHold(Names(passes), name);
    assert name in Names(passes) <==> exists k :: 0 <= k < |passes| && passes[k].name == name by {
      assert forall k :: 0 <= k < |passes| ==> Names(passes)[k] == passes[k].name;
    }
  }
}
