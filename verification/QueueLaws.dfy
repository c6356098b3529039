/**
 Queue edits of a ready file, in the loaded missions alone.
*/
module QueueLaws {
  import opened Options
  import opened LuaText
  import opened LuaPrinting
  import opened SettingsLua
  import opened QueueEdit
  import opened Sequences

  // The file can be loaded, and these are its missions.
  predicate Queues(s: string, queue: seq<string>) {
    match LoadSettings(s)
    case Some(settings) => settings.missions == Some(queue)
    case None => false
  }

  // The rest of the settings.
  predicate SameOtherwise(s: string, t: string) {
    match (LoadSettings(s), LoadSettings(t))
    case (Some(a), Some(b)) => a.scalars == b.scalars && a.advanced == b.advanced
    case _ => false
  }

  lemma ReadyQueues(s: string) returns (queue: seq<string>)
    requires Ready(s)
    ensures Queues(s, queue)
  {
    hide LoadSettings, Sees, WellSeparated;
    var span, v :| ReadyAt(s, span, v);
    SeenMissions(s, span, v);
    queue := LoadSettings(s).value.missions.value;
  }

  lemma ReadyHasMissions(s: string, queue: seq<string>)
    requires Ready(s) && MissionQueue(LoadSettings(s).value) == queue
    requires LoadSettings(s).Some?
    ensures Queues(s, queue)
  {
    hide LoadSettings, Ready;
    var missions := ReadyQueues(s);
  }

  // One request, with the queue afterwards by name.
  lemma OneRequest(s: string, queue: seq<string>, action: QueueAction, file: string) returns (t: string)
    requires Ready(s) && Queues(s, queue) && CleanPath(file)
    ensures RunFile(s, [Request(action, file)]) == Some(t) && MutatedText(s, action, file) == Some(t)
    ensures Ready(t) && Queues(t, Requested(queue, action, file)) && SameOtherwise(s, t)
  {
    hide LoadSettings, Sees, WellSeparated, MutatedText, Requested, CleanPath, Outside;
    var span, v :| ReadyAt(s, span, v);
    RequestOnReady(s, span, v, action, file);
    t := MutatedText(s, action, file).value;
    ReadyHasMissions(t, Requested(queue, action, file));
    OneStep(s, action, file);
  }

  lemma OneStep(s: string, action: QueueAction, file: string)
    ensures RunFile(s, [Request(action, file)]) == MutatedText(s, action, file)
  {
    hide MutatedText;
    assert [Request(action, file)][1..] == [];
  }

  /** An absent mission is added at the end. */
  lemma AddAppends(s: string, queue: seq<string>, file: string) returns (t: string)
    requires Ready(s) && Queues(s, queue) && CleanPath(file) && file !in queue
    ensures RunFile(s, [Request(Add, file)]) == Some(t) && Ready(t)
    ensures Queues(t, queue + [file]) && SameOtherwise(s, t)
  {
    hide LoadSettings, Ready, MutatedText, CleanPath, RunFile, Queues, SameOtherwise;
    t := OneRequest(s, queue, Add, file);
  }

  function Adds(files: seq<string>): seq<Request> {
    seq(|files|, i requires 0 <= i < |files| => Request(Add, files[i]))
  }

  lemma SameTransitive(s: string, t: string, u: string)
    requires SameOtherwise(s, t) && SameOtherwise(t, u)
    ensures SameOtherwise(s, u)
  {
    hide LoadSettings;
  }

  lemma SameItself(s: string, queue: seq<string>)
    requires Queues(s, queue)
    ensures SameOtherwise(s, s)
  {
    hide LoadSettings;
  }

  /** A run of Adds of different absent missions puts them at the end in that order. */
  lemma {:induction false} AddsAppend(s: string, queue: seq<string>, files: seq<string>) returns (t: string)
    requires Ready(s) && Queues(s, queue) && Distinct(files)
    requires forall file <- files :: CleanPath(file) && file !in queue
    ensures RunFile(s, Adds(files)) == Some(t) && Ready(t)
    ensures Queues(t, queue + files) && SameOtherwise(s, t)
    decreases |files|
  {
    hide LoadSettings, Ready, MutatedText, CleanPath, Queues, SameOtherwise;
    if files == [] {
      t := s;
      assert queue + [] == queue;
      SameItself(s, queue);
    } else {
      assert files[0] in files;
      var next := OneRequest(s, queue, Add, files[0]);
      AbsentAdd(queue, files[0]);
      assert Adds(files)[1..] == Adds(files[1..]);
      t := AddsAppend(next, queue + [files[0]], files[1..]);
      assert queue + [files[0]] + files[1..] == queue + files;
      SameTransitive(s, next, t);
    }
  }

  lemma AbsentAdd(queue: seq<string>, file: string)
    requires file !in queue
    ensures Requested(queue, Add, file) == queue + [file]
  {
  }

  /** A mission that is queued already is not added, and the text stays. */
  lemma AddPresent(s: string, queue: seq<string>, file: string)
    requires Queues(s, queue) && file in queue
    ensures RunFile(s, [Request(Add, file)]) == Some(s)
  {
    hide LoadSettings, ReplaceMissionListBlock, QueueBlock;
    OneStep(s, Add, file);
  }

  /** Removing takes out the first occurrence and keeps the rest in order. */
  lemma RemoveTakesFirst(s: string, before: seq<string>, file: string, after: seq<string>) returns (t: string)
    requires Ready(s) && Queues(s, before + [file] + after) && CleanPath(file) && file !in before
    ensures RunFile(s, [Request(Remove, file)]) == Some(t) && Ready(t)
    ensures Queues(t, before + after) && SameOtherwise(s, t)
  {
    hide LoadSettings, Ready, MutatedText, CleanPath, RunFile, Queues, SameOtherwise;
    var queue := before + [file] + after;
    t := OneRequest(s, queue, Remove, file);
    assert queue[..|before|] == before && queue[|before| + 1..] == after;
    RemoveFirstAt(queue, file, |before|);
  }

  /** Removing an absent mission leaves the missions as they are. */
  lemma RemoveAbsent(s: string, queue: seq<string>, file: string) returns (t: string)
    requires Ready(s) && Queues(s, queue) && CleanPath(file) && file !in queue
    ensures RunFile(s, [Request(Remove, file)]) == Some(t) && Ready(t)
    ensures Queues(t, queue) && SameOtherwise(s, t)
  {
    hide LoadSettings, Ready, MutatedText, CleanPath, RunFile, Queues, SameOtherwise;
    t := OneRequest(s, queue, Remove, file);
    RemoveFirstAbsent(queue, file);
  }

  /** A file that cannot be loaded is not edited; nor is one without the text of the block's key, unless the mission
      to be added is queued already. */
  lemma NotEdited(s: string, action: QueueAction, file: string)
    ensures LoadSettings(s) == None ==> RunFile(s, [Request(action, file)]) == None
    ensures LoadSettings(s).Some? && (forall i :: 0 <= i <= |s| ==> !OccursAt(s, "[\"missionList\"]", i)) &&
            !(action == Add && LoadSettings(s).value.missions.Some? && file in LoadSettings(s).value.missions.value) ==>
              RunFile(s, [Request(action, file)]) == None
  {
    hide LoadSettings, QueueBlock, OccursAt;
    OneStep(s, action, file);
    if forall i :: 0 <= i <= |s| ==> !OccursAt(s, "[\"missionList\"]", i) {
      if Find(s, BLOCK_KEY, 0).Some? {
        FoundOccurs(s, BLOCK_KEY, 0);
      }
    }
  }
}
