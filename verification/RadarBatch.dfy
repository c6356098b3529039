/**
 The radar stream of the deck view: messages gathered into a pending batch, and the batch applied to the
 snapshot when the timer fires.
*/
module RadarBatch {
  import opened Options
  import opened Sequences

  type Id = string

  // A unit as the stream reports it; the id is missing when the message has none.
  datatype Unit = Unit(id: Option<Id>, details: string)

  datatype Sample = Sample(time: Option<int>, unit: Unit)

  type Samples = map<Id, Sample>

  // A message with its frame time already read.
  datatype Message = Message(update: string, time: Option<int>, unit: Option<Unit>, gone: Option<Option<Id>>)

  datatype Batch = Batch(updates: Samples, gone: seq<Id>)

  function IdSet(s: seq<Id>): set<Id> {
    set id | id in s
  }

  function CreateRadarBatch(message: Message): Option<Batch> {
    if message.update == "unit" && message.unit.Some? && message.unit.value.id.Some? then
      Some(Batch(map[message.unit.value.id.value := Sample(message.time, message.unit.value)], []))
    else if message.update == "gone" && message.gone.Some? && message.gone.value.Some? then
      Some(Batch(map[], [message.gone.value.value]))
    else
      None
  }

  // A unit is either updated or gone, and gone once.
  ghost predicate WellFormed(batch: Batch) {
    batch.updates.Keys !! IdSet(batch.gone) && Distinct(batch.gone)
  }

  function Applied(samples: Samples, batch: Batch): Samples {
    (samples + batch.updates) - IdSet(batch.gone)
  }

  /** What one message by itself does to the snapshot. */
  function Seen(samples: Samples, message: Message): Samples {
    match message.update
    case "unit" =>
      if message.unit.Some? && message.unit.value.id.Some?
      then samples[message.unit.value.id.value := Sample(message.time, message.unit.value)]
      else samples
    case "gone" =>
      if message.gone.Some? && message.gone.value.Some? then samples - {message.gone.value.value} else samples
    case _ => samples
  }

  function Fold(samples: Samples, messages: seq<Message>): Samples
    decreases |messages|
  {
    if messages == [] then samples else Fold(Seen(samples, messages[0]), messages[1..])
  }

  lemma CreatedIs(samples: Samples, message: Message)
    ensures match CreateRadarBatch(message)
            case Some(batch) => WellFormed(batch) && Applied(samples, batch) == Seen(samples, message)
            case None => Seen(samples, message) == samples
  {
  }

  // ---------------------------------------------------------------------------------------------
  // Gathering
  // ---------------------------------------------------------------------------------------------

  function Other(gone: seq<Id>, ids: set<Id>): seq<Id> {
    if gone == [] then [] else (if gone[0] in ids then [] else [gone[0]]) + Other(gone[1..], ids)
  }

  function WithGone(gone: seq<Id>, more: seq<Id>): seq<Id>
    decreases |more|
  {
    if more == [] then gone
    else WithGone(if more[0] in gone then gone else gone + [more[0]], more[1..])
  }

  function Merged(batch: Batch, addition: Batch): Batch {
    Batch((batch.updates + addition.updates) - IdSet(addition.gone),
          WithGone(Other(batch.gone, addition.updates.Keys), addition.gone))
  }

  lemma {:induction false} OtherLaw(gone: seq<Id>, ids: set<Id>)
    ensures IdSet(Other(gone, ids)) == IdSet(gone) - ids
    ensures Distinct(gone) ==> Distinct(Other(gone, ids))
  {
    if gone != [] {
      var rest := gone[1..];
      OtherLaw(rest, ids);
      assert gone == [gone[0]] + rest;
      assert IdSet(gone) == {gone[0]} + IdSet(rest);
      if gone[0] in ids {
        assert Other(gone, ids) == Other(rest, ids);
      } else {
        FirstIn(gone[0], Other(rest, ids));
      }
      assert Distinct(gone) ==> Distinct(rest) && gone[0] !in IdSet(rest);
    }
  }

  lemma FirstIn(id: Id, s: seq<Id>)
    ensures IdSet([id] + s) == {id} + IdSet(s)
    ensures Distinct(s) && id !in IdSet(s) ==> Distinct([id] + s)
  {
  }

  lemma {:induction false} WithGoneLaw(gone: seq<Id>, more: seq<Id>)
    ensures IdSet(WithGone(gone, more)) == IdSet(gone) + IdSet(more)
    ensures Distinct(gone) ==> Distinct(WithGone(gone, more))
    decreases |more|
  {
    if more != [] {
      var next := if more[0] in gone then gone else gone + [more[0]];
      WithGoneLaw(next, more[1..]);
      assert more == [more[0]] + more[1..];
      assert IdSet(next) == IdSet(gone) + {more[0]};
      assert IdSet(more) == {more[0]} + IdSet(more[1..]);
    }
  }

  /** Gathering is sound: the merged batch is well formed, and applying it is applying the one batch and then
      the other, whatever the two hold. */
  lemma MergedLaw(samples: Samples, batch: Batch, addition: Batch)
    requires WellFormed(batch) && WellFormed(addition)
    ensures WellFormed(Merged(batch, addition))
    ensures Applied(samples, Merged(batch, addition)) == Applied(Applied(samples, batch), addition)
  {
    hide Other, WithGone, IdSet;
    var kept := Other(batch.gone, addition.updates.Keys);
    OtherLaw(batch.gone, addition.updates.Keys);
    WithGoneLaw(kept, addition.gone);
    assert Distinct(batch.gone);
    var merged := Merged(batch, addition);
    assert IdSet(merged.gone) == (IdSet(batch.gone) - addition.updates.Keys) + IdSet(addition.gone);
    assert Applied(samples, merged) == Applied(Applied(samples, batch), addition);
  }

  // The pending batch, which is added to in place.
  class PendingBatch {
    var sampleUpdates: Samples
    var goneIds: seq<Id>

    constructor (batch: Batch)
      ensures Value() == batch
    {
      sampleUpdates := batch.updates;
      goneIds := batch.gone;
    }

    function Value(): Batch
      reads this
    {
      Batch(sampleUpdates, goneIds)
    }

    /** `appendToRadarBatch`: the message is taken as it would be on its own, after what is pending. */
    method Append(message: Message) returns (added: bool)
      requires WellFormed(Value())
      modifies this
      ensures added <==> CreateRadarBatch(message).Some?
      ensures Value() == if added then Merged(old(Value()), CreateRadarBatch(message).value) else old(Value())
      ensures WellFormed(Value())
      ensures forall samples :: Applied(samples, Value()) == Seen(Applied(samples, old(Value())), message)
    {
      hide Other, WithGone, Applied, Seen, Merged, CreateRadarBatch, WellFormed, IdSet;
      AppendedLaw(Value(), message);
      var addition := CreateRadarBatch(message);
      if addition.None? {
        return false;
      }
      AddUpdates(addition.value.updates);
      AddGone(addition.value.gone);
      MergedIs(old(Value()), addition.value);
      return true;
    }

    // Each added update replaces the pending one, and its unit is no longer gone.
    method AddUpdates(updates: Samples)
      modifies this
      ensures sampleUpdates == old(sampleUpdates) + updates
      ensures goneIds == Other(old(goneIds), updates.Keys)
    {
      hide Other, Among;
      var ids := updates.Keys;
      ghost var done: set<Id> := {};
      OtherNone(goneIds);
      AmongNone(sampleUpdates, updates);
      while ids != {}
        invariant ids + done == updates.Keys && ids !! done
        invariant sampleUpdates == old(sampleUpdates) + Among(updates, done)
        invariant goneIds == Other(old(goneIds), done)
        decreases |ids|
      {
        var id :| id in ids;
        sampleUpdates := sampleUpdates[id := updates[id]];
        OtherOther(old(goneIds), done, {id});
        AmongMore(old(sampleUpdates), updates, done, id);
        goneIds := Other(goneIds, {id});
        ids := ids - {id};
        done := done + {id};
      }
      assert done == updates.Keys;
      AmongAll(updates);
    }

    // Each added gone unit loses its pending update, and is listed once.
    method AddGone(gone: seq<Id>)
      modifies this
      ensures sampleUpdates == old(sampleUpdates) - IdSet(gone)
      ensures goneIds == WithGone(old(goneIds), gone)
    {
      hide IdSet;
      NoIds(gone);
      for i := 0 to |gone|
        invariant sampleUpdates == old(sampleUpdates) - IdSet(gone[..i])
        invariant WithGone(goneIds, gone[i..]) == WithGone(old(goneIds), gone)
      {
        var id := gone[i];
        OneMore(gone, i);
        assert gone[i..][1..] == gone[i + 1..];
        sampleUpdates := sampleUpdates - {id};
        if id !in goneIds {
          goneIds := goneIds + [id];
        }
      }
      assert gone[..|gone|] == gone;
    }
  }

  // The updates of some units.
  ghost function Among(updates: Samples, ids: set<Id>): Samples {
    map id | id in updates && id in ids :: updates[id]
  }

  lemma AmongNone(samples: Samples, updates: Samples)
    ensures samples + Among(updates, {}) == samples
  {
  }

  lemma AmongMore(samples: Samples, updates: Samples, ids: set<Id>, id: Id)
    requires id in updates
    ensures samples + Among(updates, ids + {id}) == (samples + Among(updates, ids))[id := updates[id]]
  {
  }

  lemma AmongAll(updates: Samples)
    ensures Among(updates, updates.Keys) == updates
  {
  }

  lemma MergedIs(batch: Batch, addition: Batch)
    ensures Merged(batch, addition) ==
            Batch((batch.updates + addition.updates) - IdSet(addition.gone),
                  WithGone(Other(batch.gone, addition.updates.Keys), addition.gone))
  {
  }

  lemma NoIds(s: seq<Id>)
    ensures IdSet(s[..0]) == {} && s[0..] == s
  {
  }

  lemma OneMore(s: seq<Id>, i: nat)
    requires i < |s|
    ensures IdSet(s[..i + 1]) == IdSet(s[..i]) + {s[i]}
  {
    assert s[..i + 1] == s[..i] + [s[i]];
  }

  lemma AppendedLaw(batch: Batch, message: Message)
    requires WellFormed(batch)
    ensures match CreateRadarBatch(message)
            case None => forall samples :: Applied(samples, batch) == Seen(Applied(samples, batch), message)
            case Some(addition) =>
              && WellFormed(Merged(batch, addition))
              && forall samples :: Applied(samples, Merged(batch, addition)) == Seen(Applied(samples, batch), message)
  {
    hide Applied, WellFormed, Merged, Seen, CreateRadarBatch;
    CreatedIs(map[], message);
    if CreateRadarBatch(message).Some? {
      MergedLaw(map[], batch, CreateRadarBatch(message).value);
    }
    forall samples
      ensures match CreateRadarBatch(message)
              case None => Applied(samples, batch) == Seen(Applied(samples, batch), message)
              case Some(addition) => Applied(samples, Merged(batch, addition)) == Seen(Applied(samples, batch), message)
    {
      CreatedIs(Applied(samples, batch), message);
      if CreateRadarBatch(message).Some? {
        MergedLaw(samples, batch, CreateRadarBatch(message).value);
      }
    }
  }

  lemma {:induction false} OtherNone(gone: seq<Id>)
    ensures Other(gone, {}) == gone
  {
    if gone != [] {
      OtherNone(gone[1..]);
    }
  }

  lemma {:induction false} OtherOther(gone: seq<Id>, a: set<Id>, b: set<Id>)
    ensures Other(Other(gone, a), b) == Other(gone, a + b)
  {
    if gone != [] {
      OtherOther(gone[1..], a, b);
      assert ([gone[0]] + Other(gone[1..], a))[1..] == Other(gone[1..], a);
      assert gone[0] in a ==> Other(gone, a) == Other(gone[1..], a);
      assert gone[0] in a + b ==> Other(gone, a + b) == Other(gone[1..], a + b);
      assert gone[0] in b ==> Other([gone[0]] + Other(gone[1..], a), b) == Other(Other(gone[1..], a), b);
    }
  }

  /** `applyRadarBatch`: the deletions are made on a fresh copy. */
  method ApplyRadarBatch(samples: Samples, batch: Batch) returns (next: Samples)
    ensures next == Applied(samples, batch)
  {
    next := samples + batch.updates;
    for i := 0 to |batch.gone|
      invariant next == (samples + batch.updates) - IdSet(batch.gone[..i])
    {
      assert batch.gone[..i + 1] == batch.gone[..i] + [batch.gone[i]];
      next := next - {batch.gone[i]};
    }
    assert batch.gone[..|batch.gone|] == batch.gone;
  }

  // ---------------------------------------------------------------------------------------------
  // The stream
  // ---------------------------------------------------------------------------------------------

  // What is on screen, what is pending, and whether a commit is scheduled.
  datatype State = State(samples: Samples, pending: Option<Batch>, scheduled: bool)

  datatype Event = Arrive(message: Message) | Fire

  function Step(state: State, event: Event): State {
    match event
    case Arrive(message) =>
      (match CreateRadarBatch(message)
       case None => state
       case Some(batch) =>
         State(state.samples,
               Some(if state.pending.None? then batch else Merged(state.pending.value, batch)), true))
    case Fire =>
      State(if state.pending.None? then state.samples else Applied(state.samples, state.pending.value), None, false)
  }

  function Run(state: State, events: seq<Event>): State
    decreases |events|
  {
    if events == [] then state else Run(Step(state, events[0]), events[1..])
  }

  // The snapshot as it will be once what is pending is applied.
  function Current(state: State): Samples {
    if state.pending.None? then state.samples else Applied(state.samples, state.pending.value)
  }

  ghost predicate Sound(state: State) {
    state.pending.Some? ==> WellFormed(state.pending.value) && state.scheduled
  }

  function Messages(events: seq<Event>): seq<Message>
    decreases |events|
  {
    if events == [] then []
    else (if events[0].Arrive? then [events[0].message] else []) + Messages(events[1..])
  }

  lemma StepLaw(state: State, event: Event)
    requires Sound(state)
    ensures Sound(Step(state, event))
    ensures Current(Step(state, event)) == if event.Arrive? then Seen(Current(state), event.message) else Current(state)
  {
    hide Applied, WellFormed, Merged, Seen, CreateRadarBatch;
    if event.Arrive? {
      CreatedIs(Current(state), event.message);
      CreatedIs(state.samples, event.message);
      if state.pending.Some? && CreateRadarBatch(event.message).Some? {
        MergedLaw(state.samples, state.pending.value, CreateRadarBatch(event.message).value);
      }
    }
  }

  /** Batching cannot be seen: over every interleaving of messages and timer commits, the snapshot with the
      pending batch applied is what the messages give one at a time; the pending batch never holds a unit both
      as updated and as gone, or gone twice; and a pending batch always has a commit to come. */
  lemma {:induction false} BatchingIsInvisible(state: State, events: seq<Event>)
    requires Sound(state)
    ensures Current(Run(state, events)) == Fold(Current(state), Messages(events))
    ensures Sound(Run(state, events))
    decreases |events|
  {
    hide Step, Sound, Current, Seen;
    if events != [] {
      StepLaw(state, events[0]);
      BatchingIsInvisible(Step(state, events[0]), events[1..]);
      var rest := Messages(events[1..]);
      if events[0].Arrive? {
        assert Messages(events) == [events[0].message] + rest;
        assert ([events[0].message] + rest)[1..] == rest;
      } else {
        assert Messages(events) == rest;
      }
    }
  }

  /** After a commit, what is on screen is exactly what every message so far gives one at a time. */
  lemma CommittedIsCurrent(state: State, events: seq<Event>)
    requires Sound(state)
    ensures Run(state, events + [Fire]).samples == Fold(Current(state), Messages(events))
    ensures Run(state, events + [Fire]).pending == None
  {
    hide Applied, WellFormed, Merged, Seen, CreateRadarBatch;
    BatchingIsInvisible(state, events);
    RunConcat(state, events, Fire);
  }

  lemma {:induction false} RunConcat(state: State, events: seq<Event>, last: Event)
    ensures Run(state, events + [last]) == Step(Run(state, events), last)
    decreases |events|
  {
    hide Step;
    if events == [] {
      assert events + [last] == [last];
      assert Run(Step(state, last), [last][1..]) == Step(state, last);
    } else {
      assert (events + [last])[1..] == events[1..] + [last];
      RunConcat(Step(state, events[0]), events[1..], last);
    }
  }

  // The page that listens: the pending batch and the timer are references it replaces.
  class RadarView {
    var samples: Samples
    var pending: PendingBatch?
    var timer: bool

    ghost predicate Valid()
      reads this, pending
    {
      Sound(Value())
    }

    ghost function Value(): State
      reads this, pending
    {
      State(samples, if pending == null then None else Some(pending.Value()), timer)
    }

    constructor ()
      ensures Valid() && Value() == State(map[], None, false)
    {
      samples := map[];
      pending := null;
      timer := false;
    }

    method OnMessage(message: Message)
      requires Valid()
      modifies this, pending
      ensures Valid() && Value() == Step(old(Value()), Arrive(message))
      ensures pending == old(pending) || fresh(pending)
    {
      StepLaw(Value(), Arrive(message));
      var nextBatch := CreateRadarBatch(message);
      if nextBatch.None? {
        return;
      }
      if pending == null {
        pending := new PendingBatch(nextBatch.value);
      } else {
        var _ := pending.Append(message);
      }
      timer := true;
    }

    method Commit()
      requires Valid()
      modifies this
      ensures Valid() && Value() == Step(old(Value()), Fire)
      ensures samples == Current(old(Value())) && pending == null
    {
      timer := false;
      var batch := pending;
      if batch == null {
        return;
      }
      pending := null;
      samples := ApplyRadarBatch(samples, batch.Value());
    }
  }
}
