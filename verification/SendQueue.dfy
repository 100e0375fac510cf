/**
 A websocket's send queue.

 Writes complete later, as events. A message's completion is a future: its callbacks run inside the completion and may
 send more messages (`replies`).
 */
module SendQueue {

  type Message = nat

  datatype Event =
    | Sends(message: Message)
    | Written(ok: bool, replies: seq<Message>)   // the write that was started first completes

  datatype State = State(
    queue: seq<Message>,
    sending: bool,
    inFlight: seq<Message>,              // writes started and not completed
    sent: seq<Message>,                  // everything given to `send`
    started: seq<Message>,               // everything given to `async_write`
    completed: seq<Message>,             // completions fulfilled with a value
    errors: seq<Message>)                // completions fulfilled with an error

  const START := State([], false, [], [], [], [], [])

  function SendNext(s: State): State
    requires s.queue != []
  {
    s.(sending := true, inFlight := s.inFlight + [s.queue[0]], started := s.started + [s.queue[0]])
  }

  function Send(s: State, message: Message): State {
    var t := s.(queue := s.queue + [message], sent := s.sent + [message]);
    if s.sending then t else SendNext(t)
  }

  function SendAll(s: State, messages: seq<Message>): State
    decreases messages
  {
    if messages == [] then s else SendAll(Send(s, messages[0]), messages[1..])
  }

  /** `on_send` */
  function OnSend(s: State, ok: bool, replies: seq<Message>): State {
    if s.queue == [] then s
    else if !ok then SendAll(s.(errors := s.errors + [s.queue[0]]), replies)
    else
      var t := SendAll(s.(completed := s.completed + [s.queue[0]]), replies);
      if t.queue == [] then t
      else
        var u := t.(queue := t.queue[1..]);
        if u.queue == [] then u.(sending := false) else SendNext(u)
  }

  function Step(s: State, event: Event): State {
    match event
    case Sends(message) => Send(s, message)
    case Written(ok, replies) =>
      if s.inFlight == [] then s else OnSend(s.(inFlight := s.inFlight[1..]), ok, replies)
  }

  function Run(s: State, events: seq<Event>): State
    decreases events
  {
    if events == [] then s else Run(Step(s, events[0]), events[1..])
  }

  /** Only the first of the queue is ever in flight; after an error it stays there for good. */
  predicate Inv(s: State) {
    && s.sent == s.completed + s.queue
    && s.sending == (s.queue != [])
    && s.inFlight == (if s.sending && s.errors == [] then [s.queue[0]] else [])
    && s.started == s.completed + (if s.sending then [s.queue[0]] else [])
    && (s.errors == [] || (s.sending && s.errors == [s.queue[0]]))
  }

  /** While one is being sent, sending more only queues it. */
  lemma {:induction false} SendAllQueues(s: State, messages: seq<Message>)
    requires s.sending
    ensures SendAll(s, messages) == s.(queue := s.queue + messages, sent := s.sent + messages)
    decreases messages
  {
    if messages == [] {
      assert s.queue + messages == s.queue && s.sent + messages == s.sent;
    } else {
      SendAllQueues(Send(s, messages[0]), messages[1..]);
      assert [messages[0]] + messages[1..] == messages;
      assert s.queue + [messages[0]] + messages[1..] == s.queue + messages;
      assert s.sent + [messages[0]] + messages[1..] == s.sent + messages;
    }
  }

  lemma SendKeepsInv(s: State, message: Message)
    requires Inv(s)
    ensures Inv(Send(s, message))
  {
    assert s.completed + s.queue + [message] == s.completed + (s.queue + [message]);
  }

  /** What a completion does: the first leaves the queue and the next one is written, or nothing is ever again. */
  lemma WrittenIs(s: State, ok: bool, replies: seq<Message>)
    requires Inv(s) && s.inFlight != []
    ensures var t := Step(s, Written(ok, replies));
      && Inv(t)
      && t.sent == s.sent + replies
      && (ok ==> t.errors == s.errors && t.completed == s.completed + [s.queue[0]] && t.queue == s.queue[1..] + replies)
      && (!ok ==> t.errors == [s.queue[0]] && t.completed == s.completed && t.queue == s.queue + replies
                  && t.inFlight == [])
  {
    var first, rest := s.queue[0], s.queue[1..];
    var a := s.(inFlight := []);
    assert s.inFlight[1..] == [];
    SendAllQueues(a.(completed := s.completed + [first]), replies);
    SendAllQueues(a.(errors := s.errors + [first]), replies);
    assert s.queue == [first] + rest;
    assert (s.queue + replies)[1..] == rest + replies;
    assert s.completed + s.queue + replies == s.completed + (s.queue + replies);
    assert s.completed + [first] + (rest + replies) == s.completed + s.queue + replies;
  }

  lemma StepKeepsInv(s: State, event: Event)
    requires Inv(s)
    ensures Inv(Step(s, event))
  {
    match event
    case Sends(message) => SendKeepsInv(s, message);
    case Written(ok, replies) => if s.inFlight != [] { WrittenIs(s, ok, replies); }
  }

  lemma {:induction false} RunKeepsInv(s: State, events: seq<Event>)
    requires Inv(s)
    ensures Inv(Run(s, events))
    decreases events
  {
    if events != [] {
      StepKeepsInv(s, events[0]);
      RunKeepsInv(Step(s, events[0]), events[1..]);
    }
  }

  /** What an event gives to `send`: from outside, or from the callbacks of a completion. */
  function GivenBy(s: State, event: Event): seq<Message> {
    match event
    case Sends(message) => [message]
    case Written(_, replies) => if s.inFlight == [] then [] else replies
  }

  function Given(s: State, events: seq<Event>): seq<Message>
    decreases events
  {
    if events == [] then [] else GivenBy(s, events[0]) + Given(Step(s, events[0]), events[1..])
  }

  lemma StepGiven(s: State, event: Event)
    requires Inv(s)
    ensures Step(s, event).sent == s.sent + GivenBy(s, event)
  {
    if event.Written? && s.inFlight != [] { WrittenIs(s, event.ok, event.replies); }
  }

  lemma {:induction false} NothingIsDropped(s: State, events: seq<Event>)
    requires Inv(s)
    ensures Run(s, events).sent == s.sent + Given(s, events)
    decreases events
  {
    if events != [] {
      var t := Step(s, events[0]);
      StepKeepsInv(s, events[0]);
      StepGiven(s, events[0]);
      NothingIsDropped(t, events[1..]);
      Associates(s.sent, GivenBy(s, events[0]), Given(t, events[1..]));
    }
  }

  lemma Associates(a: seq<Message>, b: seq<Message>, c: seq<Message>)
    ensures (a + b) + c == a + (b + c) && [] + c == c
  {
  }

  lemma StartedInOrder(s: State)
    requires Inv(s)
    ensures |s.inFlight| <= 1 && s.completed <= s.started <= s.sent && |s.started| <= |s.completed| + 1
  {
    if s.sending { assert s.sent == s.started + s.queue[1..]; }
  }

  /** In every run at most one write is in flight; writes start and complete in the order of sending; and what was
      given to `send`, also by callbacks, is what was completed and, behind it, what is queued. */
  lemma SentInOrder(events: seq<Event>)
    ensures var s := Run(START, events);
      && |s.inFlight| <= 1
      && Given(START, events) == s.sent == s.completed + s.queue
      && s.completed <= s.started <= s.sent && |s.started| <= |s.completed| + 1
      && |s.errors| <= 1 && (s.errors != [] ==> s.queue != [] && s.errors == [s.queue[0]])
  {
    RunKeepsInv(START, events);
    NothingIsDropped(START, events);
    StartedInOrder(Run(START, events));
    Associates([], [], Given(START, events));
  }

  /** With no write in flight, everything sent has been written if and only if no write has failed. */
  lemma AllWrittenUnlessOneFailed(events: seq<Event>)
    requires Run(START, events).inFlight == []
    ensures var s := Run(START, events); s.completed == Given(START, events) <==> s.errors == []
  {
    RunKeepsInv(START, events);
    NothingIsDropped(START, events);
    var s := Run(START, events);
    assert |s.sent| == |s.completed| + |s.queue|;
    if s.queue == [] { assert s.sent == s.completed; }
  }

  /** After a failed write nothing is written or completed any more: what is sent piles up. */
  lemma {:induction false} NothingAfterAnError(s: State, events: seq<Event>)
    requires Inv(s) && s.errors != []
    ensures var t := Run(s, events);
      && t.started == s.started && t.completed == s.completed && t.errors == s.errors && t.inFlight == []
      && s.sent <= t.sent
    decreases events
  {
    if events != [] {
      var t := Step(s, events[0]);
      StepKeepsInv(s, events[0]);
      assert t.started == s.started && t.completed == s.completed && t.errors == s.errors;
      NothingAfterAnError(t, events[1..]);
    }
  }

  function Successes(n: nat): seq<Event> {
    if n == 0 then [] else [Written(true, [])] + Successes(n - 1)
  }

  /** As many successful completions as there are messages queued empty the queue, in order. */
  lemma {:induction false} Drains(s: State)
    requires Inv(s) && s.errors == []
    ensures var t := Run(s, Successes(|s.queue|)); t.queue == [] && !t.sending && t.completed == s.sent == t.sent
    decreases |s.queue|
  {
    if s.queue != [] {
      var event := Written(true, []);
      var t := Step(s, event);
      WrittenIs(s, true, []);
      assert t.queue == s.queue[1..] && t.sent == s.sent;
      Drains(t);
      assert Successes(|s.queue|)[0] == event && Successes(|s.queue|)[1..] == Successes(|t.queue|);
    } else {
      assert s.sent == s.completed;
    }
  }

  // ---------------------------------------------------------------- the connection

  class Sender {
    var queue: seq<Message>
    var sending: bool
    var inFlight: seq<Message>
    var sent: seq<Message>
    var started: seq<Message>
    var completed: seq<Message>
    var errors: seq<Message>

    ghost function View(): State
      reads this
    {
      State(queue, sending, inFlight, sent, started, completed, errors)
    }

    constructor ()
      ensures View() == START
    {
      queue, sending, inFlight, sent, started, completed, errors := [], false, [], [], [], [], [];
    }

    /** `send`: the message goes to the end of the queue and is written at once exactly if nothing was queued. */
    method SendMessage(message: Message)
      requires Inv(View())
      modifies this
      ensures View() == Step(old(View()), Sends(message)) && Inv(View())
      ensures queue == old(queue) + [message] && completed == old(completed) && errors == old(errors)
      ensures started == if old(queue) == [] then old(started) + [message] else old(started)
      ensures |inFlight| <= 1
    {
      SendKeepsInv(View(), message);
      Enqueue(message);
    }

    method Enqueue(message: Message)
      modifies this
      ensures View() == Send(old(View()), message)
    {
      queue := queue + [message];
      sent := sent + [message];
      if !sending { SendNextFromQueue(); }
    }

    method SendNextFromQueue()
      requires queue != []
      modifies this`sending, this`inFlight, this`started
      ensures View() == SendNext(old(View()))
    {
      sending := true;
      var item := queue[0];
      inFlight := inFlight + [item];
      started := started + [item];
    }

    /** The callbacks of a completion. */
    method Callbacks(replies: seq<Message>)
      modifies this
      ensures View() == SendAll(old(View()), replies)
    {
      var i := 0;
      while i < |replies|
        invariant i <= |replies| && SendAll(View(), replies[i..]) == SendAll(old(View()), replies)
      {
        Enqueue(replies[i]);
        assert replies[i..][1..] == replies[i + 1..];
        i := i + 1;
      }
    }

    /** A write completes. */
    method HandleSent(ok: bool, replies: seq<Message>)
      requires Inv(View()) && inFlight != []
      modifies this
      ensures View() == Step(old(View()), Written(ok, replies)) && Inv(View())
    {
      WrittenIs(View(), ok, replies);
      inFlight := inFlight[1..];
      var didSend := queue[0];
      if !ok {
        errors := errors + [didSend];
        Callbacks(replies);
        return;
      }
      completed := completed + [didSend];
      SendAllQueues(View(), replies);
      Callbacks(replies);
      queue := queue[1..];
      if queue == [] {
        sending := false;
        return;
      }
      SendNextFromQueue();
    }
  }
}
