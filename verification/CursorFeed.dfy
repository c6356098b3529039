/**
 The chat page's polled feeds: a server log read through a cursor, and the browser's copy of it.
*/
module CursorFeed {
  import opened Options

  const MAX_FEED_LINES := 500

  // A message knows the mission it was logged in; ids count from 1 in every mission.
  datatype Message = Message(mission: nat, id: nat, text: string)

  // The last n elements, or all of them.
  function Tail<T>(s: seq<T>, n: nat): (r: seq<T>)
    ensures |r| == if |s| <= n then |s| else n
  {
    if |s| <= n then s else s[|s| - n..]
  }

  // ---------------------------------------------------------------------------------------------
  // The screen-message buffer of the mission script
  // ---------------------------------------------------------------------------------------------

  /** The ring buffer: a new entry is appended and the oldest ones go. */
  class MessageBuffer {
    const maxBuffer: nat
    var buffer: seq<Message>
    var nextId: nat
    ghost var log: seq<Message>

    ghost predicate Valid()
      reads this
    {
      && nextId == |log| + 1
      && (forall i :: 0 <= i < |log| ==> log[i].id == i + 1)
      && buffer == Tail(log, maxBuffer)
    }

    constructor (max: nat)
      ensures Valid() && log == [] && maxBuffer == max
    {
      maxBuffer := max;
      buffer := [];
      nextId := 1;
      log := [];
    }

    method Record(mission: nat, text: string)
      requires Valid()
      modifies this
      ensures Valid()
      ensures log == old(log) + [Message(mission, |old(log)| + 1, text)]
    {
      var message := Message(mission, nextId, text);
      nextId := nextId + 1;
      buffer := buffer + [message];
      ghost var full := buffer;
      while |buffer| > maxBuffer
        invariant nextId == old(nextId) + 1 && log == old(log)
        invariant |Tail(full, maxBuffer)| <= |buffer| <= |full| && buffer == Tail(full, |buffer|)
      {
        buffer := buffer[1..];
      }
      TailOfJoin(log, [message], maxBuffer);
      log := log + [message];
    }

    /** The entries after the cursor; a cursor ahead of the log counts as 0. */
    method Since(fromId: nat) returns (messages: seq<Message>, last: nat)
      requires Valid()
      ensures last == |log|
      ensures var from := if fromId > last then 0 else fromId;
              messages == log[Start(maxBuffer, |log|, from)..]
    {
      hide Tail, Start;
      TailIs(log, maxBuffer);
      last := nextId - 1;
      var from := if fromId > last then 0 else fromId;
      messages := [];
      ghost var dropped: nat := |log| - |buffer|;
      ghost var start := Start(maxBuffer, |log|, from);
      StartIs(maxBuffer, |log|, from);
      for i := 0 to |buffer|
        invariant messages == if dropped + i <= start then [] else log[start..dropped + i]
      {
        assert buffer[i] == log[dropped + i] && log[dropped + i].id == dropped + i + 1;
        if buffer[i].id > from {
          messages := messages + [buffer[i]];
        }
        StretchPush(log, start, dropped + i);
      }
      assert log[start..|log|] == log[start..];
    }
  }

  lemma TailIs<T>(s: seq<T>, n: nat)
    ensures |Tail(s, n)| <= |s| && Tail(s, n) == s[|s| - |Tail(s, n)|..]
    ensures |Tail(s, n)| == if |s| <= n then |s| else n
  {
  }

  lemma StartIs(maxBuffer: nat, count: nat, from: nat)
    requires from <= count
    ensures var dropped := if count <= maxBuffer then 0 else count - maxBuffer;
            Start(maxBuffer, count, from) == if from <= dropped then dropped else from
  {
  }

  lemma StretchPush(log: seq<Message>, a: nat, b: nat)
    requires a <= |log| && b < |log|
    ensures a <= b ==> log[a..b + 1] == log[a..b] + [log[b]]
    ensures b + 1 <= a ==> a - b >= 1
    ensures log[b..b] == []
  {
  }

  // The index of the first entry after the cursor that is still in the buffer.
  function Start(maxBuffer: nat, count: nat, from: nat): (r: nat)
    requires from <= count
    ensures from <= r <= count
  {
    if from + maxBuffer <= count then count - maxBuffer else from
  }

  // ---------------------------------------------------------------------------------------------
  // Servers
  // ---------------------------------------------------------------------------------------------

  // The screen-message log, or the chat log, which is kept in full.
  datatype Feed = Screen(maxBuffer: nat) | Chat

  datatype Reply = Reply(messages: seq<Message>, last: nat)

  // The screen log answers a cursor that is ahead with everything it has. The chat log then answers with
  // nothing; and when it is empty it names no last line, for which the caller's cursor is put in.
  function Answer(feed: Feed, log: seq<Message>, from: nat): Reply {
    match feed
    case Screen(maxBuffer) =>
      Reply(log[Start(maxBuffer, |log|, if from > |log| then 0 else from)..], |log|)
    case Chat =>
      Reply(if from > |log| then [] else log[from..], if log == [] then from else |log|)
  }

  // ---------------------------------------------------------------------------------------------
  // The client
  // ---------------------------------------------------------------------------------------------

  datatype Line = Line(message: Message, key: nat)

  datatype Client = Client(items: seq<Line>, cursor: nat, nextKey: nat)

  function Keyed(messages: seq<Message>, key: nat): seq<Line> {
    seq(|messages|, i requires 0 <= i < |messages| => Line(messages[i], key + i))
  }

  // A last line below the cursor means that the log has started over.
  predicate Restarted(client: Client, reply: Reply) {
    reply.last < client.cursor
  }

  function Received(client: Client, reply: Reply): Client {
    var kept := if Restarted(client, reply) then [] else client.items;
    Client(
      if reply.messages == [] then kept else Tail(kept + Keyed(reply.messages, client.nextKey), MAX_FEED_LINES),
      if Restarted(client, reply) && reply.messages == [] then 0 else reply.last,
      client.nextKey + |reply.messages|)
  }

  // Whether a reply to the first attempt calls for a second one.
  predicate AsksAgain(client: Client, reply: Reply) {
    Restarted(client, reply) && Received(client, reply).cursor == 0
  }

  // One poll: a reply to the first attempt, and one to the second if it is asked for; None is a failed request.
  function Polled(client: Client, first: Option<Reply>, second: Option<Reply>): Client {
    match first
    case None => client
    case Some(reply) =>
      var next := Received(client, reply);
      if AsksAgain(client, reply) && second.Some? then Received(next, second.value) else next
  }

  /** The hook's references and its list. */
  class FeedHook {
    var items: seq<Line>
    var cursor: nat
    var key: nat

    function State(): Client
      reads this
    {
      Client(items, cursor, key)
    }

    constructor ()
      ensures State() == Client([], 0, 1)
    {
      items, cursor, key := [], 0, 1;
    }

    /** At most two attempts; the second one only to read a log again that started over. After a restart, of either
        server, the feed is what the server has of its new log; otherwise what it has after the cursor is put behind
        the lines; and nothing changes when the first request fails. */
    method Poll(first: Option<Reply>, second: Option<Reply>)
      modifies this
      ensures State() == Polled(old(State()), first, second)
      ensures first == None ==> items == old(items) && cursor == old(cursor) && key == old(key)
      ensures forall feed, log ::
                log != [] && |log| < old(cursor)
                && first == Some(Answer(feed, log, old(cursor))) && second == Some(Answer(feed, log, 0)) ==>
                  cursor == |log| && Messages(items) == Tail(Kept(feed, log), 500)
      ensures forall feed, log ::
                |old(items)| <= 500 && old(cursor) <= |log|
                && first == Some(Answer(feed, log, old(cursor))) ==>
                  && cursor == |log|
                  && Messages(items) == Tail(Messages(old(items)) + Newer(feed, log, old(cursor)), 500)
    {
      ghost var start := State();
      for attempt := 0 to 2
        invariant attempt == 0 ==> State() == start
        invariant attempt == 1 ==>
                    first.Some? && AsksAgain(start, first.value) && State() == Received(start, first.value)
        invariant attempt == 2 ==> first.Some? && AsksAgain(start, first.value) && second.Some? &&
                                   State() == Received(Received(start, first.value), second.value)
      {
        ghost var before := State();
        var fetched := if attempt == 0 then first else second;
        if fetched.None? {
          PolledIs(start, first, second);
          return;
        }
        var body := fetched.value;
        var restarted := body.last < cursor;
        if restarted {
          items := [];
        }
        if |body.messages| > 0 {
          var lines := TakeKeys(body.messages);
          items := Tail((if restarted then [] else items) + lines, MAX_FEED_LINES);
        }
        cursor := if restarted && |body.messages| == 0 then 0 else body.last;
        assert State() == Received(before, body);
        if cursor != 0 || !restarted {
          PolledIs(start, first, second);
          return;
        }
      }
      PolledIs(start, first, second);
    }

    method TakeKeys(messages: seq<Message>) returns (lines: seq<Line>)
      modifies this`key
      ensures lines == Keyed(messages, old(key)) && key == old(key) + |messages|
    {
      lines := [];
      for i := 0 to |messages|
        invariant key == old(key) + i && lines == Keyed(messages[..i], old(key))
      {
        lines := lines + [Line(messages[i], key)];
        key := key + 1;
      }
      assert messages[..|messages|] == messages;
    }

    method Clear()
      modifies this`items
      ensures State() == old(State()).(items := [])
    {
      items := [];
    }
  }

  predicate RestartedLog(client: Client, feed: Feed, log: seq<Message>, first: Option<Reply>, second: Option<Reply>) {
    && log != [] && |log| < client.cursor
    && first == Some(Answer(feed, log, client.cursor)) && second == Some(Answer(feed, log, 0))
  }

  // What a poll leaves, by what the server has.
  lemma PolledIs(client: Client, first: Option<Reply>, second: Option<Reply>)
    ensures forall feed, log :: RestartedLog(client, feed, log, first, second) ==>
              var next := Polled(client, first, second);
              next.cursor == |log| && Messages(next.items) == Tail(Kept(feed, log), MAX_FEED_LINES)
    ensures forall feed, log ::
              |client.items| <= MAX_FEED_LINES && client.cursor <= |log| &&
              first == Some(Answer(feed, log, client.cursor)) ==>
                var next := Polled(client, first, second);
                && next.cursor == |log|
                && Messages(next.items) ==
                   Tail(Messages(client.items) + Newer(feed, log, client.cursor), MAX_FEED_LINES)
  {
    hide Polled, Answer, Kept, Newer, Messages, Tail, RestartedLog;
    forall feed, log | RestartedLog(client, feed, log, first, second)
      ensures Polled(client, first, second).cursor == |log|
      ensures Messages(Polled(client, first, second).items) == Tail(Kept(feed, log), MAX_FEED_LINES)
    {
      PolledAfterRestart(client, feed, log, first, second);
    }
    forall feed, log | |client.items| <= MAX_FEED_LINES && client.cursor <= |log| &&
                       first == Some(Answer(feed, log, client.cursor))
      ensures Polled(client, first, second).cursor == |log|
      ensures Messages(Polled(client, first, second).items) ==
              Tail(Messages(client.items) + Newer(feed, log, client.cursor), MAX_FEED_LINES)
    {
      PolledOn(client, feed, log, second);
    }
  }

  // After a restart: the first answer brings the whole buffer, or empties the feed; then the second one brings it.
  lemma PolledAfterRestart(client: Client, feed: Feed, log: seq<Message>, first: Option<Reply>, second: Option<Reply>)
    requires RestartedLog(client, feed, log, first, second)
    ensures var next := Polled(client, first, second);
            next.cursor == |log| && Messages(next.items) == Tail(Kept(feed, log), MAX_FEED_LINES)
  {
    hide Answer, Kept, Messages, Tail, Received;
    var reply := first.value;
    var next := Received(client, reply);
    ReceivedCursor(client, reply);
    KeptIsAnswer(feed, log, client.cursor);
    KeptIsAnswer(feed, log, 0);
    if reply.messages == [] {
      ReceivedRestart(client, reply);
      ReceivedAnew(next, second.value);
      ReceivedCursor(next, second.value);
    } else {
      ReceivedAnew(client, reply);
    }
  }

  // With a cursor that the log has reached.
  lemma PolledOn(client: Client, feed: Feed, log: seq<Message>, second: Option<Reply>)
    requires |client.items| <= MAX_FEED_LINES && client.cursor <= |log|
    ensures var next := Polled(client, Some(Answer(feed, log, client.cursor)), second);
            && next.cursor == |log|
            && Messages(next.items) == Tail(Messages(client.items) + Newer(feed, log, client.cursor), MAX_FEED_LINES)
  {
    hide Answer, Newer, Messages, Tail, Received;
    var reply := Answer(feed, log, client.cursor);
    NewerIsAnswer(feed, log, client.cursor);
    ReceivedCursor(client, reply);
    ShortIsTail(client.items);
    ReceivedMessages(client, reply, Messages(client.items));
  }

  /** A poll of a server is what the client comes to over asking, answer and delivery, and once more if it is asked
      again; in between, the log may grow and start over. */
  lemma PollIsRun(feed: Feed, w: World, later: World)
    requires w.logs != [] && later.logs != [] && w.phase == Idle
    requires var asked := Run(feed, w, [Ask, Serve, Deliver]);
             later.client == asked.client && later.phase == asked.phase
    ensures var second := Answer(feed, CurrentLog(later), later.client.cursor);
            Polled(w.client, Some(Answer(feed, CurrentLog(w), w.client.cursor)), Some(second)) ==
            if later.phase == Idle then later.client else Run(feed, later, [Serve, Deliver]).client
  {
    hide Received, Answer;
    var asking := Step(feed, w, Ask);
    assert [Ask, Serve, Deliver][1..] == [Serve, Deliver];
    ServeAndDeliver(feed, asking);
    if later.phase != Idle {
      ServeAndDeliver(feed, later);
    }
  }

  // ---------------------------------------------------------------------------------------------
  // Server and client together
  // ---------------------------------------------------------------------------------------------

  // No request is out; one is out that the server has not seen; or its answer is on the way. The answer
  // carries the mission it was given in.
  datatype Phase = Idle | Asking(again: bool) | Answered(again: bool, reply: Reply, mission: nat)

  // The logs of all missions so far, the last one being the current one. The last four fields are history
  // that the code does not keep: the mission the cursor belongs to, the messages delivered since the feed
  // was last emptied, where in the log they start, and whether any were dropped before they were asked for.
  datatype World = World(
    logs: seq<seq<Message>>,
    client: Client,
    phase: Phase,
    home: nat,
    delivered: seq<Message>,
    base: nat,
    gap: bool)

  // The server logs, drops old messages and restarts at any time; the client asks, the server answers from
  // the state it is in when it is asked, and the answer is processed later. Requests fail, and the user clears
  // the feed, at any point in between.
  datatype Event = Log(text: string) | Restart | Ask | Serve | Deliver | Fail | Clear

  const INITIAL := World([[]], Client([], 0, 1), Idle, 0, [], 0, false)

  predicate Restarts(w: World) {
    w.phase.Answered? && Restarted(w.client, w.phase.reply)
  }

  function Step(feed: Feed, w: World, event: Event): World
    requires w.logs != []
  {
    var now := |w.logs| - 1;
    match event
    case Log(text) => w.(logs := w.logs[now := w.logs[now] + [Message(now, |w.logs[now]| + 1, text)]])
    case Restart => w.(logs := w.logs + [[]])
    case Ask => if w.phase.Idle? then w.(phase := Asking(false)) else w
    case Serve =>
      if w.phase.Asking? then
        w.(phase := Answered(w.phase.again, Answer(feed, w.logs[now], w.client.cursor), now))
      else w
    case Deliver =>
      if w.phase.Answered? then
        var reply := w.phase.reply;
        var restarted := Restarted(w.client, reply);
        var anew := w.client.cursor == 0 || restarted;
        var kept := if anew then [] else w.delivered;
        World(
          w.logs,
          Received(w.client, reply),
          if !w.phase.again && AsksAgain(w.client, reply) then Asking(true) else Idle,
          if anew then w.phase.mission else w.home,
          kept + reply.messages,
          if anew then 0 else w.base,
          if restarted && reply.messages == [] then false
          else (if anew then false else w.gap) || |reply.messages| < reply.last - (if anew then 0 else w.client.cursor))
      else w
    case Fail => w.(phase := Idle)
    case Clear => w.(client := w.client.(items := []), delivered := [], base := w.client.cursor)
  }

  function Run(feed: Feed, w: World, events: seq<Event>): World
    requires w.logs != []
    decreases |events|
  {
    if events == [] then w else Run(feed, Step(feed, w, events[0]), events[1..])
  }

  // A request that is answered by another mission than the cursor's can be told apart: the new log is
  // shorter than the cursor.
  predicate Detectable(w: World, event: Event)
    requires w.logs != []
  {
    var now := |w.logs| - 1;
    event == Serve && w.phase.Asking? && w.client.cursor != 0 && w.home != now ==>
      |w.logs[now]| < w.client.cursor
  }

  predicate AllDetectable(feed: Feed, w: World, events: seq<Event>)
    requires w.logs != []
    decreases |events|
  {
    events != [] ==>
      Detectable(w, events[0]) && AllDetectable(feed, Step(feed, w, events[0]), events[1..])
  }

  // ---------------------------------------------------------------------------------------------
  // What every step keeps
  // ---------------------------------------------------------------------------------------------

  predicate LogsCount(logs: seq<seq<Message>>) {
    forall m, i {:trigger logs[m][i]} :: 0 <= m < |logs| && 0 <= i < |logs[m]| ==>
      logs[m][i].mission == m && logs[m][i].id == i + 1
  }

  // Consecutive lines have consecutive keys, all below the next one.
  predicate Ordered(items: seq<Line>, next: nat) {
    && (forall i, j :: 0 <= i < j < |items| ==> items[i].key < items[j].key)
    && (forall i :: 0 <= i < |items| ==> items[i].key < next)
  }

  predicate KeysOrdered(client: Client) {
    Ordered(client.items, client.nextKey)
  }

  function Messages(items: seq<Line>): seq<Message> {
    seq(|items|, i requires 0 <= i < |items| => items[i].message)
  }

  // Messages of one log: ids rise, and the last of them is not above the limit.
  predicate Rising(messages: seq<Message>, log: seq<Message>, limit: nat) {
    && limit <= |log|
    && (forall i :: 0 <= i < |messages| ==> 1 <= messages[i].id <= limit && messages[i] == log[messages[i].id - 1])
    && (forall i, j :: 0 <= i < j < |messages| ==> messages[i].id < messages[j].id)
  }

  // The feed is the capped tail of what was delivered, in the order of the log and up to the cursor; with
  // nothing dropped, what was delivered is the log from where the feed was emptied up to the cursor.
  predicate FeedSafe(w: World) {
    && w.home < |w.logs|
    && Messages(w.client.items) == Tail(w.delivered, MAX_FEED_LINES)
    && Rising(w.delivered, w.logs[w.home], w.client.cursor)
    && w.base <= w.client.cursor
    && (!w.gap ==> w.delivered == w.logs[w.home][w.base..w.client.cursor])
  }

  // The answer that an empty chat log gives to a cursor: no messages, and the cursor itself.
  predicate SaysNothing(feed: Feed, client: Client, reply: Reply) {
    feed.Chat? && reply == Reply([], client.cursor)
  }

  // The answer is a stretch of the log, fitting the cursor or telling of a restart.
  predicate IsStretch(w: World, reply: Reply, m: nat) {
    && m < |w.logs| && reply.last <= |w.logs[m]| && |reply.messages| <= reply.last
    && reply.messages == w.logs[m][reply.last - |reply.messages|..reply.last]
    && (!Restarted(w.client, reply) ==>
          && (w.client.cursor != 0 ==> m == w.home)
          && |reply.messages| <= reply.last - w.client.cursor)
  }

  predicate AnswerFits(feed: Feed, w: World) {
    w.phase.Answered? ==>
      IsStretch(w, w.phase.reply, w.phase.mission)
      || (w.client.cursor != 0 && SaysNothing(feed, w.client, w.phase.reply))
  }

  predicate Inv(feed: Feed, w: World) {
    && w.logs != [] && LogsCount(w.logs)
    && FeedSafe(w)
    && AnswerFits(feed, w)
  }

  lemma RisingStretch(log: seq<Message>, m: nat, logs: seq<seq<Message>>, lo: nat, hi: nat)
    requires LogsCount(logs) && m < |logs| && log == logs[m] && lo <= hi <= |log|
    ensures Rising(log[lo..hi], log, hi)
    ensures forall i :: 0 <= i < hi - lo ==> log[lo..hi][i].id == lo + i + 1
  {
    forall i | 0 <= i < hi - lo
      ensures log[lo..hi][i] == log[lo + i] && log[lo + i].id == lo + i + 1
    {
      assert logs[m][lo + i].id == lo + i + 1;
    }
  }

  lemma RisingJoin(a: seq<Message>, b: seq<Message>, log: seq<Message>, mid: nat, limit: nat)
    requires Rising(a, log, mid) && Rising(b, log, limit) && mid <= limit
    requires forall i :: 0 <= i < |b| ==> b[i].id > mid
    ensures Rising(a + b, log, limit)
  {
  }

  lemma TailOfJoin<T>(a: seq<T>, b: seq<T>, n: nat)
    ensures Tail(Tail(a, n) + b, n) == Tail(a + b, n)
  {
  }

  lemma MessagesOfTail(items: seq<Line>, n: nat)
    ensures Messages(Tail(items, n)) == Tail(Messages(items), n)
  {
  }

  lemma MessagesOfJoin(items: seq<Line>, messages: seq<Message>, key: nat)
    ensures Messages(items + Keyed(messages, key)) == Messages(items) + messages
  {
  }

  // The feed after a reply, as messages.
  lemma ReceivedMessages(client: Client, reply: Reply, delivered: seq<Message>)
    requires Messages(client.items) == Tail(delivered, MAX_FEED_LINES)
    ensures var kept := if Restarted(client, reply) then [] else delivered;
            Messages(Received(client, reply).items) == Tail(kept + reply.messages, MAX_FEED_LINES)
  {
    var items := if Restarted(client, reply) then [] else client.items;
    var kept := if Restarted(client, reply) then [] else delivered;
    assert Messages(items) == Tail(kept, MAX_FEED_LINES);
    assert kept + [] == kept;
    MessagesOfJoin(items, reply.messages, client.nextKey);
    MessagesOfTail(items + Keyed(reply.messages, client.nextKey), MAX_FEED_LINES);
    TailOfJoin(kept, reply.messages, MAX_FEED_LINES);
  }

  lemma RisingIsPositive(messages: seq<Message>, log: seq<Message>, limit: nat)
    requires Rising(messages, log, limit) && messages != []
    ensures limit >= 1
  {
    assert messages[0].id >= 1;
  }

  lemma EmptyAtZero(w: World)
    requires FeedSafe(w) && w.client.cursor == 0
    ensures w.delivered == [] && w.client.items == [] && w.base == 0
  {
    if w.delivered != [] {
      RisingIsPositive(w.delivered, w.logs[w.home], w.client.cursor);
    }
    assert |Messages(w.client.items)| == |w.client.items|;
  }

  // The feed is emptied, or was empty, and now holds the answer.
  lemma DeliverAnew(feed: Feed, w: World)
    requires Inv(feed, w) && w.phase.Answered?
    requires w.client.cursor == 0 || Restarts(w)
    ensures FeedSafe(Step(feed, w, Deliver))
  {
    hide LogsCount, Rising, Received, Messages, Tail;
    var reply, log := w.phase.reply, w.logs[w.phase.mission];
    ReceivedMessages(w.client, reply, w.delivered);
    ReceivedCursor(w.client, reply);
    RisingStretch(log, w.phase.mission, w.logs, reply.last - |reply.messages|, reply.last);
    if w.client.cursor == 0 {
      EmptyAtZero(w);
    }
    assert [] + reply.messages == reply.messages;
    RisingNothing(log);
    assert log[0..0] == [];
  }

  // The answer goes on from the cursor.
  lemma DeliverOn(feed: Feed, w: World)
    requires Inv(feed, w) && w.phase.Answered?
    requires w.client.cursor != 0 && !Restarts(w)
    ensures FeedSafe(Step(feed, w, Deliver))
  {
    hide LogsCount, Rising, Received, Messages, Tail;
    var reply, log := w.phase.reply, w.logs[w.home];
    ReceivedMessages(w.client, reply, w.delivered);
    ReceivedCursor(w.client, reply);
    if IsStretch(w, reply, w.phase.mission) {
      var lo := reply.last - |reply.messages|;
      RisingStretch(log, w.home, w.logs, lo, reply.last);
      RisingJoin(w.delivered, reply.messages, log, w.client.cursor, reply.last);
      if lo == w.client.cursor {
        StretchJoin(log, w.base, w.client.cursor, reply.last);
      }
    } else {
      assert w.delivered + [] == w.delivered;
    }
  }

  lemma DeliverKeepsInv(feed: Feed, w: World)
    requires Inv(feed, w) && w.phase.Answered?
    ensures Inv(feed, Step(feed, w, Deliver))
  {
    hide FeedSafe, LogsCount;
    if w.client.cursor == 0 || Restarts(w) {
      DeliverAnew(feed, w);
    } else {
      DeliverOn(feed, w);
    }
  }

  lemma ReceivedCursor(client: Client, reply: Reply)
    ensures Received(client, reply).cursor == if Restarted(client, reply) && reply.messages == [] then 0 else reply.last
  {
  }

  lemma RisingNothing(log: seq<Message>)
    ensures Rising([], log, 0)
  {
  }

  lemma StretchJoin(log: seq<Message>, a: nat, b: nat, c: nat)
    requires a <= b <= c <= |log|
    ensures log[a..b] + log[b..c] == log[a..c]
  {
  }

  lemma ServeKeepsInv(feed: Feed, w: World)
    requires Inv(feed, w) && w.phase.Asking? && Detectable(w, Serve)
    ensures Inv(feed, Step(feed, w, Serve))
  {
    hide LogsCount, FeedSafe, Answer, IsStretch, SaysNothing, Detectable;
    FeedSafeAnyPhase(w, Step(feed, w, Serve).phase);
    ServedFits(feed, w, Step(feed, w, Serve).phase);
  }

  lemma ServedFits(feed: Feed, w: World, phase: Phase)
    requires w.logs != [] && FeedSafe(w) && w.phase.Asking? && Detectable(w, Serve)
    ensures var now := |w.logs| - 1;
            var reply := Answer(feed, w.logs[now], w.client.cursor);
            IsStretch(w.(phase := phase), reply, now)
            || (w.client.cursor != 0 && SaysNothing(feed, w.client, reply))
  {
    hide FeedSafe, Answer;
    var now := |w.logs| - 1;
    var log := w.logs[now];
    CursorInLog(w);
    if w.client.cursor > |log| && log == [] && feed.Chat? {
      EmptyChatSaysNothing(w.client);
    } else {
      AnswerIsStretch(feed, log, w.client.cursor);
      assert w.client.cursor <= |log| ==> w.client.cursor == 0 || w.home == now;
    }
  }

  lemma FeedSafeAnyPhase(w: World, phase: Phase)
    requires FeedSafe(w)
    ensures FeedSafe(w.(phase := phase))
  {
  }

  lemma EmptyChatSaysNothing(client: Client)
    ensures SaysNothing(Chat, client, Answer(Chat, [], client.cursor))
  {
  }

  lemma AnswerIsStretch(feed: Feed, log: seq<Message>, from: nat)
    requires from <= |log| || log != [] || feed.Screen?
    ensures var reply := Answer(feed, log, from);
            && reply.last == |log| && |reply.messages| <= reply.last
            && reply.messages == log[reply.last - |reply.messages|..reply.last]
            && (from <= |log| ==> |reply.messages| <= reply.last - from)
  {
  }

  lemma CursorInLog(w: World)
    requires FeedSafe(w)
    ensures w.home < |w.logs| && w.client.cursor <= |w.logs[w.home]|
  {
  }

  // Later messages and later missions change nothing for what was read before.
  lemma LogsGrow(feed: Feed, w: World, logs: seq<seq<Message>>)
    requires Inv(feed, w) && LogsCount(logs)
    requires |w.logs| <= |logs| && forall m :: 0 <= m < |w.logs| ==> w.logs[m] <= logs[m]
    ensures Inv(feed, w.(logs := logs))
  {
    hide LogsCount, Rising, Messages, Tail, IsStretch;
    assert w.logs[w.home] <= logs[w.home];
    RisingGrows(w.delivered, w.logs[w.home], logs[w.home], w.client.cursor);
    StretchGrows(w.logs[w.home], logs[w.home], w.base, w.client.cursor);
    if w.phase.Answered? && IsStretch(w, w.phase.reply, w.phase.mission) {
      StretchHasLog(w, w.phase.reply, w.phase.mission);
      assert w.logs[w.phase.mission] <= logs[w.phase.mission];
      AnswerGrows(w, logs, w.phase.reply, w.phase.mission);
    }
  }

  lemma StretchHasLog(w: World, reply: Reply, m: nat)
    requires IsStretch(w, reply, m)
    ensures m < |w.logs|
  {
  }

  lemma AnswerGrows(w: World, logs: seq<seq<Message>>, reply: Reply, m: nat)
    requires IsStretch(w, reply, m) && m < |logs| && w.logs[m] <= logs[m]
    ensures IsStretch(w.(logs := logs), reply, m)
  {
    StretchGrows(w.logs[m], logs[m], reply.last - |reply.messages|, reply.last);
  }

  lemma StretchGrows(log: seq<Message>, longer: seq<Message>, a: nat, b: nat)
    requires log <= longer && a <= b
    ensures b <= |log| ==> log[a..b] == longer[a..b]
  {
  }

  lemma RisingGrows(messages: seq<Message>, log: seq<Message>, longer: seq<Message>, limit: nat)
    requires Rising(messages, log, limit) && log <= longer
    ensures Rising(messages, longer, limit) && limit <= |log|
  {
  }

  lemma StepKeepsInv(feed: Feed, w: World, event: Event)
    requires Inv(feed, w) && Detectable(w, event)
    ensures Inv(feed, Step(feed, w, event))
  {
    hide FeedSafe, AnswerFits;
    match event
    case Log(text) =>
      LogsGrow(feed, w, Step(feed, w, event).logs);
    case Restart =>
      LogsGrow(feed, w, Step(feed, w, event).logs);
    case Serve =>
      if w.phase.Asking? {
        ServeKeepsInv(feed, w);
      }
    case Deliver =>
      if w.phase.Answered? {
        DeliverKeepsInv(feed, w);
      }
    case Clear =>
      ClearKeepsInv(feed, w);
    case _ =>
      PhaseKeepsInv(feed, w, Step(feed, w, event).phase);
  }

  lemma ClearKeepsInv(feed: Feed, w: World)
    requires Inv(feed, w)
    ensures Inv(feed, Step(feed, w, Clear))
  {
  }

  lemma PhaseKeepsInv(feed: Feed, w: World, phase: Phase)
    requires Inv(feed, w) && (phase == w.phase || !phase.Answered?)
    ensures Inv(feed, w.(phase := phase))
  {
  }

  lemma InvHasLogs(feed: Feed, w: World)
    requires Inv(feed, w)
    ensures w.logs != []
  {
  }

  /** Safety over every run, with any number of restarts, as long as no answer comes from a new log that has
      already reached the old cursor: the feed is always the capped
      tail of what was delivered, one mission's messages with strictly rising ids up to the cursor; and if no
      message was dropped before it was asked for, exactly the log from the last emptying to the cursor. */
  lemma {:induction false} RunIsSafe(feed: Feed, w: World, events: seq<Event>)
    requires Inv(feed, w) && AllDetectable(feed, w, events)
    ensures Inv(feed, Run(feed, w, events))
    decreases |events|
  {
    hide Inv, Step, Detectable;
    InvHasLogs(feed, w);
    if events != [] {
      StepKeepsInv(feed, w, events[0]);
      InvHasLogs(feed, Step(feed, w, events[0]));
      RunIsSafe(feed, Step(feed, w, events[0]), events[1..]);
    }
  }

  lemma InitialInv(feed: Feed)
    ensures Inv(feed, INITIAL)
  {
  }

  // ---------------------------------------------------------------------------------------------
  // Nothing lost
  // ---------------------------------------------------------------------------------------------

  // When the server answers, it still has everything after the cursor.
  predicate NotOverrun(feed: Feed, w: World, event: Event)
    requires w.logs != []
  {
    var count, cursor := |w.logs[|w.logs| - 1]|, w.client.cursor;
    event == Serve && w.phase.Asking? && feed.Screen? ==>
      count - (if cursor > count then 0 else cursor) <= feed.maxBuffer
  }

  predicate NeverOverrun(feed: Feed, w: World, events: seq<Event>)
    requires w.logs != []
    decreases |events|
  {
    events != [] ==>
      NotOverrun(feed, w, events[0]) && NeverOverrun(feed, Step(feed, w, events[0]), events[1..])
  }

  // Nothing was dropped so far, nor from the answer on its way.
  predicate Whole(w: World) {
    && !w.gap
    && (w.phase.Answered? ==>
          var reply := w.phase.reply;
          if Restarts(w) then reply.messages == [] || |reply.messages| == reply.last
          else |reply.messages| == reply.last - w.client.cursor)
  }

  lemma StepKeepsWhole(feed: Feed, w: World, event: Event)
    requires w.logs != [] && Whole(w) && NotOverrun(feed, w, event)
    ensures Whole(Step(feed, w, event))
  {
    hide Received, Keyed, Tail;
    match event
    case Serve =>
    case Deliver =>
      if w.phase.Answered? {
        ReceivedCursor(w.client, w.phase.reply);
      }
    case _ =>
  }

  /** Nothing lost: if the buffer never overruns between answers, every run leaves a feed that is the capped
      tail of exactly the log from where it was last emptied up to the cursor. */
  lemma {:induction false} RunIsWhole(feed: Feed, w: World, events: seq<Event>)
    requires Inv(feed, w) && AllDetectable(feed, w, events)
    requires Whole(w) && NeverOverrun(feed, w, events)
    ensures var r := Run(feed, w, events);
            && FeedSafe(r) && !r.gap
            && Messages(r.client.items) == Tail(r.logs[r.home][r.base..r.client.cursor], MAX_FEED_LINES)
    decreases |events|
  {
    hide Inv, Step, Detectable, NotOverrun, FeedSafe, Whole;
    InvHasLogs(feed, w);
    if events == [] {
      InvIsSafe(feed, w);
      WholeFeed(w);
    } else {
      StepKeepsInv(feed, w, events[0]);
      StepKeepsWhole(feed, w, events[0]);
      InvHasLogs(feed, Step(feed, w, events[0]));
      RunIsWhole(feed, Step(feed, w, events[0]), events[1..]);
    }
  }

  lemma InvIsSafe(feed: Feed, w: World)
    requires Inv(feed, w)
    ensures FeedSafe(w)
  {
  }

  lemma WholeFeed(w: World)
    requires FeedSafe(w) && Whole(w)
    ensures !w.gap && w.home < |w.logs| && w.base <= w.client.cursor <= |w.logs[w.home]|
    ensures Messages(w.client.items) == Tail(w.logs[w.home][w.base..w.client.cursor], MAX_FEED_LINES)
  {
  }

  // ---------------------------------------------------------------------------------------------
  // Keys
  // ---------------------------------------------------------------------------------------------

  lemma ReceivedKeys(client: Client, reply: Reply)
    requires KeysOrdered(client)
    ensures KeysOrdered(Received(client, reply))
  {
    hide Ordered, Keyed, Tail;
    var kept := if Restarted(client, reply) then [] else client.items;
    NoneOrdered(client.nextKey);
    OrderedJoin(kept, reply.messages, client.nextKey);
    OrderedTail(kept + Keyed(reply.messages, client.nextKey), client.nextKey + |reply.messages|, MAX_FEED_LINES);
  }

  lemma NoneOrdered(next: nat)
    ensures Ordered([], next)
  {
  }

  lemma OrderedJoin(items: seq<Line>, messages: seq<Message>, next: nat)
    requires Ordered(items, next)
    ensures Ordered(items + Keyed(messages, next), next + |messages|)
    ensures messages == [] ==> Ordered(items, next + |messages|)
  {
    assert messages == [] ==> next + |messages| == next;
  }

  lemma OrderedTail(items: seq<Line>, next: nat, n: nat)
    requires Ordered(items, next)
    ensures Ordered(Tail(items, n), next)
  {
  }

  /** Line keys never repeat, whatever the server does, restarts that cannot be detected included. */
  lemma {:induction false} RunKeepsKeys(feed: Feed, w: World, events: seq<Event>)
    requires w.logs != [] && KeysOrdered(w.client)
    ensures KeysOrdered(Run(feed, w, events).client)
    decreases |events|
  {
    hide Received, KeysOrdered;
    if events != [] {
      if events[0] == Deliver && w.phase.Answered? {
        ReceivedKeys(w.client, w.phase.reply);
      }
      if events[0] == Clear {
        ClearedKeys(w.client);
      }
      RunKeepsKeys(feed, Step(feed, w, events[0]), events[1..]);
    }
  }

  lemma ClearedKeys(client: Client)
    requires KeysOrdered(client)
    ensures KeysOrdered(client.(items := []))
  {
  }

  // ---------------------------------------------------------------------------------------------
  // Restarts
  // ---------------------------------------------------------------------------------------------

  function CurrentLog(w: World): seq<Message>
    requires w.logs != []
  {
    w.logs[|w.logs| - 1]
  }

  // What the server has of its current log.
  function Kept(feed: Feed, log: seq<Message>): seq<Message> {
    match feed
    case Screen(maxBuffer) => Tail(log, maxBuffer)
    case Chat => log
  }

  lemma ServeAndDeliver(feed: Feed, w: World)
    requires w.logs != [] && w.phase.Asking?
    ensures var reply := Answer(feed, CurrentLog(w), w.client.cursor);
            var r := Run(feed, w, [Serve, Deliver]);
            && r.client == Received(w.client, reply) && r.logs == w.logs
            && (w.client.cursor != 0 && !Restarted(w.client, reply) ==> r.home == w.home)
            && r.phase == if !w.phase.again && AsksAgain(w.client, reply) then Asking(true) else Idle
  {
    hide Answer, Received;
    assert [Serve, Deliver][1..] == [Deliver];
    assert [Deliver][1..] == [];
  }

  /** A cursor that is ahead of a new log: the first answer either brings the whole buffer, or empties the
      feed and asks again; only the empty chat log goes unnoticed, and then the old lines stay. */
  lemma RestartNoticed(feed: Feed, w: World)
    requires w.logs != [] && w.phase == Asking(false) && w.client.cursor > |CurrentLog(w)|
    ensures var r, log := Run(feed, w, [Serve, Deliver]), CurrentLog(w);
            if feed.Chat? && log == [] then r.client == w.client && r.phase == Idle
            else if feed.Screen? && Kept(feed, log) != [] then
              && r.phase == Idle && r.client.cursor == |log|
              && Messages(r.client.items) == Tail(Kept(feed, log), MAX_FEED_LINES)
            else r.phase == Asking(true) && r.client.cursor == 0 && r.client.items == []
  {
    hide Received, Messages, Tail, Run;
    var log := CurrentLog(w);
    var reply := Answer(feed, log, w.client.cursor);
    ServeAndDeliver(feed, w);
    ReceivedCursor(w.client, reply);
    if feed.Chat? && log == [] {
      ReceivedNothing(w.client, reply);
    } else if reply.messages == [] {
      ReceivedRestart(w.client, reply);
      KeptIsAnswer(feed, log, w.client.cursor);
    } else {
      KeptIsAnswer(feed, log, w.client.cursor);
      ReceivedAnew(w.client, reply);
    }
  }

  // What the server has of its current log after a cursor.
  function Newer(feed: Feed, log: seq<Message>, from: nat): seq<Message>
    requires from <= |log|
  {
    match feed
    case Screen(maxBuffer) => Tail(log[from..], maxBuffer)
    case Chat => log[from..]
  }

  lemma NewerIsAnswer(feed: Feed, log: seq<Message>, from: nat)
    requires from <= |log|
    ensures Answer(feed, log, from) == Reply(Newer(feed, log, from), |log|)
  {
  }

  /** A new log that has reached the cursor goes unnoticed, whatever mission the feed is of: the lines stay, and what
      the new log has after the cursor comes after them; if that is nothing, nothing changes. */
  lemma RestartUnnoticed(feed: Feed, w: World)
    requires w.logs != [] && w.phase == Asking(false) && 0 < w.client.cursor <= |CurrentLog(w)|
    requires |w.client.items| <= MAX_FEED_LINES
    ensures var r, log := Run(feed, w, [Serve, Deliver]), CurrentLog(w);
            && r.phase == Idle && r.home == w.home && r.client.cursor == |log|
            && Messages(r.client.items) ==
               Tail(Messages(w.client.items) + Newer(feed, log, w.client.cursor), MAX_FEED_LINES)
            && (w.client.cursor == |log| ==> r.client == w.client)
  {
    hide Received, Run, Answer, Newer, Messages, Tail;
    var log := CurrentLog(w);
    var reply := Answer(feed, log, w.client.cursor);
    ServeAndDeliver(feed, w);
    NewerIsAnswer(feed, log, w.client.cursor);
    ReceivedCursor(w.client, reply);
    ShortIsTail(w.client.items);
    ReceivedMessages(w.client, reply, Messages(w.client.items));
    if w.client.cursor == |log| {
      NothingNewer(feed, log);
      ReceivedNothing(w.client, reply);
    }
  }

  lemma ShortIsTail(items: seq<Line>)
    requires |items| <= MAX_FEED_LINES
    ensures Messages(items) == Tail(Messages(items), MAX_FEED_LINES)
  {
  }

  lemma NothingNewer(feed: Feed, log: seq<Message>)
    ensures Newer(feed, log, |log|) == []
  {
  }

  lemma RunFrom(feed: Feed, w: World, events: seq<Event>, i: nat)
    requires w.logs != [] && i < |events|
    ensures Run(feed, w, events[i..]) == Run(feed, Step(feed, w, events[i]), events[i + 1..])
  {
    assert events[i..][1..] == events[i + 1..];
  }

  /** A line of the old mission that stays: after the restart the page asks a chat log that is still empty. */
  lemma StaleLine(text: string)
    ensures var w := Run(Chat, INITIAL, [Log(text), Ask, Serve, Deliver, Restart, Ask, Serve, Deliver]);
            && |w.logs| == 2 && w.phase == Idle && w.home == 0
            && w.client.items == [Line(Message(0, 1, text), 1)] && w.client.cursor == 1
  {
    hide Run;
    var events := [Log(text), Ask, Serve, Deliver, Restart, Ask, Serve, Deliver];
    var m := Message(0, 1, text);
    var w1 := World([[m]], Client([], 0, 1), Idle, 0, [], 0, false);
    var w2 := w1.(phase := Answered(false, Reply([m], 1), 0));
    var w3 := World([[m]], Client([Line(m, 1)], 1, 2), Idle, 0, [m], 0, false);
    assert INITIAL.logs[0] + [m] == [m];
    assert INITIAL.logs[0 := [m]] == [[m]];
    assert Step(Chat, INITIAL, Log(text)) == w1;
    assert Step(Chat, Step(Chat, w1, Ask), Serve) == w2;
    assert Step(Chat, w2, Deliver) == w3;
    var w4 := w3.(logs := [[m]] + [[]]);
    var w5 := w4.(phase := Asking(false));
    assert events[0..] == events && events[6..] == [Serve, Deliver];
    RunFrom(Chat, INITIAL, events, 0);
    RunFrom(Chat, w1, events, 1);
    RunFrom(Chat, Step(Chat, w1, Ask), events, 2);
    RunFrom(Chat, w2, events, 3);
    RunFrom(Chat, w3, events, 4);
    RunFrom(Chat, w4, events, 5);
    RestartNoticed(Chat, w5);
    StaleEnd(w5);
  }

  lemma StaleEnd(w: World)
    requires w.logs != [] && w.phase == Asking(false)
    ensures var r := Run(Chat, w, [Serve, Deliver]);
            |r.logs| == |w.logs| && (w.client.cursor > 0 && CurrentLog(w) == [] ==> r.home == w.home)
  {
    ServeAndDeliver(Chat, w);
    assert [Serve, Deliver][1..] == [Deliver];
    assert [Deliver][1..] == [];
  }

  // A run without a restart and without a failed request.
  predicate Calm(events: seq<Event>) {
    events != [] ==> events[0] != Restart && events[0] != Fail && Calm(events[1..])
  }

  // How many answers a run delivers, and the last line that the last of them names.
  function Deliveries(feed: Feed, w: World, events: seq<Event>): nat
    requires w.logs != []
    decreases |events|
  {
    if events == [] then 0
    else
      (if events[0] == Deliver && w.phase.Answered? then 1 else 0)
      + Deliveries(feed, Step(feed, w, events[0]), events[1..])
  }

  function LastNamed(feed: Feed, w: World, events: seq<Event>, before: nat): nat
    requires w.logs != []
    decreases |events|
  {
    if events == [] then before
    else
      LastNamed(feed, Step(feed, w, events[0]), events[1..],
                if events[0] == Deliver && w.phase.Answered? then w.phase.reply.last else before)
  }

  // The feed shows the current mission, and so does an answer on its way.
  predicate Settled(w: World) {
    && w.home + 1 == |w.logs|
    && (w.phase.Asking? ==> !w.phase.again)
    && (w.phase.Answered? ==> !w.phase.again && w.phase.mission == w.home && !Restarts(w))
  }

  // The stages of a recovery, by the number of answers delivered: the first request, whose answer tells of the
  // restart; the second one, from the top; and done.
  predicate Recovering(feed: Feed, w: World, answers: nat) {
    && w.logs != []
    && (Settled(w)
        || (match w.phase
            case Idle => false
            case Asking(again) =>
              if again then answers == 1 && w.client.cursor == 0
              else
                && answers == 0 && w.client.cursor != 0 && w.home + 1 != |w.logs|
                && (feed.Chat? ==> CurrentLog(w) != [])
            case Answered(again, reply, m) =>
              && m + 1 == |w.logs|
              && if again then answers == 1 && w.client.cursor == 0
                 else answers == 0 && Restarted(w.client, reply) && (reply.messages != [] ==> reply.last > 0)))
  }

  lemma RecoveryStep(feed: Feed, w: World, event: Event, answers: nat, named: nat)
    requires Inv(feed, w) && Recovering(feed, w, answers) && Detectable(w, event)
    requires event != Restart && event != Fail
    requires Settled(w) ==> w.client.cursor == named
    ensures var next, delivers := Step(feed, w, event), event == Deliver && w.phase.Answered?;
            && Recovering(feed, next, answers + if delivers then 1 else 0)
            && (Settled(next) ==> next.client.cursor == if delivers then w.phase.reply.last else named)
  {
    hide LogsCount, FeedSafe, Received, Answer;
    CursorInLog(w);
    match event
    case Serve =>
      if w.phase.Asking? {
        ServedAnswer(feed, CurrentLog(w), w.client.cursor);
      }
    case Deliver =>
      if w.phase.Answered? {
        ReceivedCursor(w.client, w.phase.reply);
      }
    case _ =>
  }

  lemma ServedAnswer(feed: Feed, log: seq<Message>, from: nat)
    ensures var reply := Answer(feed, log, from);
            && (log != [] || from == 0 || feed.Screen? ==> reply.last == |log|)
            && (from <= |log| ==> reply.last >= from)
            && (reply.messages != [] ==> reply.last > 0)
  {
  }

  lemma {:induction false} RecoveryRun(feed: Feed, w: World, events: seq<Event>, answers: nat, named: nat)
    requires Inv(feed, w) && Recovering(feed, w, answers) && AllDetectable(feed, w, events) && Calm(events)
    requires Settled(w) ==> w.client.cursor == named
    ensures var r := Run(feed, w, events);
            && Inv(feed, r) && Recovering(feed, r, answers + Deliveries(feed, w, events))
            && (Settled(r) ==> r.client.cursor == LastNamed(feed, w, events, named))
    decreases |events|
  {
    hide Inv, Recovering, Settled, Detectable, Step;
    InvHasLogs(feed, w);
    if events != [] {
      var event := events[0];
      var delivers := event == Deliver && w.phase.Answered?;
      StepKeepsInv(feed, w, event);
      InvHasLogs(feed, Step(feed, w, event));
      RecoveryStep(feed, w, event, answers, named);
      RecoveryRun(feed, Step(feed, w, event), events[1..], answers + if delivers then 1 else 0,
                  if delivers then w.phase.reply.last else named);
    }
  }

  /** Recovery from a restart, for both servers: from a request of a client whose cursor is ahead of the new log
      (which has a line already, for the chat), whatever is logged, cleared or asked meanwhile, the feed shows
      the new mission and only it as soon as the poll is over, and that takes at most two answers; the cursor is
      then the last line that the last answer named. */
  lemma RestartRecovered(feed: Feed, w: World, events: seq<Event>)
    requires Inv(feed, w) && w.phase == Asking(false)
    requires w.client.cursor > |CurrentLog(w)| && (feed.Chat? ==> CurrentLog(w) != [])
    requires AllDetectable(feed, w, events) && Calm(events)
    ensures var r := Run(feed, w, events);
            r.phase.Idle? || Deliveries(feed, w, events) >= 2 ==>
              && r.home + 1 == |r.logs| == |w.logs|
              && (forall item <- r.client.items :: item.message.mission == r.home)
              && r.client.cursor == LastNamed(feed, w, events, 0)
  {
    hide Inv;
    InvIsSafe(feed, w);
    CursorInLog(w);
    RecoveryRun(feed, w, events, 0, 0);
    SameMissions(feed, w, events);
    ItemsOfHome(feed, Run(feed, w, events));
  }

  lemma {:induction false} SameMissions(feed: Feed, w: World, events: seq<Event>)
    requires w.logs != [] && Calm(events)
    ensures |Run(feed, w, events).logs| == |w.logs|
    decreases |events|
  {
    if events != [] {
      SameMissions(feed, Step(feed, w, events[0]), events[1..]);
    }
  }

  lemma ItemsOfHome(feed: Feed, w: World)
    requires Inv(feed, w)
    ensures forall item <- w.client.items :: item.message.mission == w.home
  {
    hide FeedSafe, AnswerFits, LogsCount;
    forall item | item in w.client.items
      ensures item.message.mission == w.home
    {
      var i :| 0 <= i < |w.client.items| && w.client.items[i] == item;
      ItemOfHome(w, i);
    }
  }

  lemma ItemOfHome(w: World, i: nat)
    requires FeedSafe(w) && LogsCount(w.logs) && i < |w.client.items|
    ensures w.client.items[i].message.mission == w.home
  {
    hide Tail, Messages;
    MessageAt(w.client.items, i);
    TailIs(w.delivered, MAX_FEED_LINES);
    var m := w.delivered[|w.delivered| - |w.client.items| + i];
    assert m == w.client.items[i].message;
    assert w.logs[w.home][m.id - 1] == m;
  }

  lemma MessageAt(items: seq<Line>, i: nat)
    requires i < |items|
    ensures |Messages(items)| == |items| && Messages(items)[i] == items[i].message
  {
  }

  lemma KeptIsAnswer(feed: Feed, log: seq<Message>, from: nat)
    requires from == 0 || (from > |log| && feed.Screen?) || (from > |log| && log != [])
    ensures from == 0 || feed.Screen? ==> Answer(feed, log, from) == Reply(Kept(feed, log), |log|)
    ensures from > |log| && feed.Chat? ==> Answer(feed, log, from) == Reply([], |log|)
  {
  }

  lemma ReceivedNothing(client: Client, reply: Reply)
    requires reply.messages == [] && reply.last == client.cursor
    ensures Received(client, reply) == client
  {
  }

  lemma ReceivedRestart(client: Client, reply: Reply)
    requires Restarted(client, reply) && reply.messages == []
    ensures Received(client, reply).items == [] && AsksAgain(client, reply)
  {
  }

  lemma ReceivedAnew(client: Client, reply: Reply)
    requires Restarted(client, reply) || client.items == []
    ensures Messages(Received(client, reply).items) == Tail(reply.messages, MAX_FEED_LINES)
  {
    var lines := Keyed(reply.messages, client.nextKey);
    assert [] + lines == lines;
    MessagesOfTail(lines, MAX_FEED_LINES);
    assert Messages(lines) == reply.messages;
  }
}
