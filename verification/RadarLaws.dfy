/**
 What the radar view shows of each unit after a commit: the last word of the stream about it.
*/
module RadarLaws {
  import opened Options
  import opened RadarBatch

  // The message reports the unit, or says that it is gone.
  predicate Reports(message: Message, id: Id) {
    message.update == "unit" && message.unit.Some? && message.unit.value.id == Some(id)
  }

  predicate SaysGone(message: Message, id: Id) {
    message.update == "gone" && message.gone == Some(Some(id))
  }

  predicate Speaks(message: Message, id: Id) {
    Reports(message, id) || SaysGone(message, id)
  }

  predicate Silent(messages: seq<Message>, id: Id) {
    forall k :: 0 <= k < |messages| ==> !Speaks(messages[k], id)
  }

  // The two snapshots have the same of the unit.
  predicate SameOf(id: Id, a: Samples, b: Samples) {
    (id in a <==> id in b) && (id in a ==> a[id] == b[id])
  }

  lemma OneMessage(samples: Samples, message: Message, id: Id)
    ensures Reports(message, id) ==>
              id in Seen(samples, message) && Seen(samples, message)[id] == Sample(message.time, message.unit.value)
    ensures SaysGone(message, id) ==> id !in Seen(samples, message)
    ensures !Speaks(message, id) ==> SameOf(id, Seen(samples, message), samples)
  {
  }

  lemma {:induction false} SilenceKeeps(samples: Samples, messages: seq<Message>, id: Id)
    requires Silent(messages, id)
    ensures SameOf(id, Fold(samples, messages), samples)
    decreases |messages|
  {
    hide Seen, Speaks;
    if messages != [] {
      OneMessage(samples, messages[0], id);
      SilenceKeeps(Seen(samples, messages[0]), messages[1..], id);
    }
  }

  lemma {:induction false} FoldConcat(samples: Samples, a: seq<Message>, b: seq<Message>)
    ensures Fold(samples, a + b) == Fold(Fold(samples, a), b)
    decreases |a|
  {
    hide Seen;
    if a == [] {
      assert a + b == b;
    } else {
      assert (a + b)[1..] == a[1..] + b;
      FoldConcat(Seen(samples, a[0]), a[1..], b);
    }
  }

  lemma LastOfMessages(samples: Samples, messages: seq<Message>, n: nat, id: Id)
    requires n < |messages| && Speaks(messages[n], id) && Silent(messages[n + 1..], id)
    ensures var shown := Fold(samples, messages);
            && (Reports(messages[n], id) ==>
                  id in shown && shown[id] == Sample(messages[n].time, messages[n].unit.value))
            && (SaysGone(messages[n], id) ==> id !in shown)
  {
    hide Seen, Silent, Reports, SaysGone, Fold;
    var before := Fold(samples, messages[..n]);
    assert messages == messages[..n] + ([messages[n]] + messages[n + 1..]);
    FoldConcat(samples, messages[..n], [messages[n]] + messages[n + 1..]);
    FoldFirst(before, messages[n], messages[n + 1..]);
    OneMessage(before, messages[n], id);
    SilenceKeeps(Seen(before, messages[n]), messages[n + 1..], id);
  }

  lemma FoldFirst(samples: Samples, message: Message, rest: seq<Message>)
    ensures Fold(samples, [message] + rest) == Fold(Seen(samples, message), rest)
  {
    hide Seen;
    assert ([message] + rest)[1..] == rest;
  }

  /** However messages and commits interleave, after a commit the view shows a unit exactly when the last message
      that speaks of it reports it, and then with the sample of that message. */
  lemma LastWord(state: State, events: seq<Event>, n: nat, id: Id)
    requires Sound(state)
    requires n < |Messages(events)| && Speaks(Messages(events)[n], id) && Silent(Messages(events)[n + 1..], id)
    ensures var shown, last := Run(state, events + [Fire]).samples, Messages(events)[n];
            && (id in shown <==> Reports(last, id))
            && (id in shown ==> shown[id] == Sample(last.time, last.unit.value))
  {
    hide Seen, Silent, Run, Fold, Current, Messages, Sound;
    CommittedIsCurrent(state, events);
    LastOfMessages(Current(state), Messages(events), n, id);
  }

  /** And of a unit that no message speaks of, it shows what it had. */
  lemma NoWord(state: State, events: seq<Event>, id: Id)
    requires Sound(state) && Silent(Messages(events), id)
    ensures SameOf(id, Run(state, events + [Fire]).samples, Current(state))
  {
    hide Seen, Silent, Run, Fold, Current, Messages, Sound;
    CommittedIsCurrent(state, events);
    SilenceKeeps(Current(state), Messages(events), id);
  }
}
