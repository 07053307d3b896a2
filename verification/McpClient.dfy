/** The stdio client of a JSON-RPC server: a reader thread and one requester share a queue, a list of notifications
    and a counter. Every interleaving of their steps is a sequence of events. */
module McpClient {
  import opened Wrappers

  // ----- messages -----

  datatype Id = Number(n: int) | Other(text: string)

  /** A decoded line: an object with or without an id and with or without the end mark, or a JSON text or list. */
  datatype Message = Object(id: Option<Id>, marked: bool, body: string) | NonObject(mentionsId: bool, body: string)

  /** What a line of the server's output holds. */
  datatype Line = Blank | Undecodable | Scalar | Says(message: Message)

  /** `"id" in message` */
  predicate HasId(m: Message) {
    if m.Object? then m.id.Some? else m.mentionsId
  }

  /** What the reader queues when the stream ends. */
  const END := Object(None, true, "")

  predicate Answers(m: Message, id: int) {
    m.Object? && m.id == Some(Number(id))
  }

  /** A queued message the requester cannot use: it looks like the end mark, or is not an object. */
  predicate Unusable(m: Message) {
    HasId(m) && (m.NonObject? || m.marked)
  }

  // ----- state and steps -----

  datatype Requester = Idle | Waiting(id: nat)

  datatype Outcome =
    | Replied(id: nat, message: Message)
    | TimedOut(id: nat)
    | Ended(id: nat)
    | Crashed(id: nat)
    | NotSent(id: nat)

  /** The client's three fields, where its two threads stand, and what happened so far. */
  datatype State = State(
    ident: nat, queue: seq<Message>, notifications: seq<Message>, reading: bool, requester: Requester,
    decoded: seq<Message>, lost: seq<Message>, outcomes: seq<Outcome>)

  const START := State(0, [], [], true, Idle, [], [], [])

  datatype Event = Arrives(line: Line) | StreamEnds | Begins(sent: bool) | Takes | GivesUp

  /** One turn of the reader's loop. */
  function Arrive(s: State, line: Line): State {
    if !s.reading then s
    else match line
      case Blank => s
      case Undecodable => s
      case Scalar => s.(reading := false)
      case Says(m) =>
        if HasId(m) then s.(decoded := s.decoded + [m], queue := s.queue + [m])
        else s.(decoded := s.decoded + [m], notifications := s.notifications + [m])
  }

  function EndStream(s: State): State {
    if s.reading then s.(reading := false, queue := s.queue + [END]) else s
  }

  /** The counter moves on; writing may fail. */
  function Begin(s: State, sent: bool): State {
    if s.requester.Waiting? then s
    else if sent then s.(ident := s.ident + 1, requester := Waiting(s.ident + 1))
    else s.(ident := s.ident + 1, outcomes := s.outcomes + [NotSent(s.ident + 1)])
  }

  function Close(s: State, outcome: Outcome): State {
    s.(requester := Idle, outcomes := s.outcomes + [outcome])
  }

  /** One turn of the requester's loop, with a message in the queue. */
  function Take(s: State): State {
    if !s.requester.Waiting? || s.queue == [] then s
    else
      var id, m := s.requester.id, s.queue[0];
      var rest := s.(queue := s.queue[1..]);
      if m.NonObject? then Close(rest.(lost := s.lost + [m]), Crashed(id))
      else if m.marked then Close(rest.(lost := if HasId(m) then s.lost + [m] else s.lost), Ended(id))
      else if Answers(m, id) then Close(rest, Replied(id, m))
      else rest.(notifications := s.notifications + [m])
  }

  /** The wait on an empty queue runs out. */
  function GiveUp(s: State): State {
    if s.requester.Waiting? && s.queue == [] then Close(s, TimedOut(s.requester.id)) else s
  }

  function Step(s: State, e: Event): State {
    match e
    case Arrives(line) => Arrive(s, line)
    case StreamEnds => EndStream(s)
    case Begins(sent) => Begin(s, sent)
    case Takes => Take(s)
    case GivesUp => GiveUp(s)
  }

  function Run(s: State, events: seq<Event>): State
    decreases |events|
  {
    if events == [] then s else Step(Run(s, events[..|events| - 1]), events[|events| - 1])
  }

  lemma {:induction false} RunAppend(s: State, a: seq<Event>, b: seq<Event>)
    ensures Run(s, a + b) == Run(Run(s, a), b)
    decreases |b|
  {
    if b == [] {
      assert a + b == a;
    } else {
      var n := |b| - 1;
      RunAppend(s, a, b[..n]);
      assert (a + b)[..|a + b| - 1] == a + b[..n];
    }
  }

  lemma RunStep(s: State, events: seq<Event>, e: Event)
    ensures Run(s, events + [e]) == Step(Run(s, events), e)
  {
    assert (events + [e])[..|events|] == events;
  }

  // ----- correlation -----

  /** An outcome of a request made so far; a reply carries the request's id. */
  predicate Fits(o: Outcome, bound: int) {
    0 < o.id <= bound && (o.Replied? ==> Answers(o.message, o.id))
  }

  predicate AllFit(outcomes: seq<Outcome>, bound: int) {
    forall i | 0 <= i < |outcomes| :: Fits(outcomes[i], bound)
  }

  predicate Ordered(outcomes: seq<Outcome>) {
    forall i, j | 0 <= i < j < |outcomes| :: outcomes[i].id < outcomes[j].id
  }

  /** Requests end in the order they were made, each at most once; the one waited for has not ended. */
  predicate Correlated(s: State) {
    && (s.requester.Waiting? ==> 0 < s.requester.id == s.ident)
    && AllFit(s.outcomes, if s.requester.Waiting? then s.ident - 1 else s.ident) && Ordered(s.outcomes)
  }

  lemma OneMore(outcomes: seq<Outcome>, o: Outcome)
    requires AllFit(outcomes, o.id - 1) && Ordered(outcomes) && Fits(o, o.id)
    ensures AllFit(outcomes + [o], o.id) && Ordered(outcomes + [o])
  {
    hide Answers;
  }

  lemma CloseCorrelates(s: State, o: Outcome)
    requires Correlated(s) && s.requester.Waiting? && Fits(o, s.ident) && o.id == s.ident
    ensures Correlated(Close(s, o))
  {
    hide Answers;
    OneMore(s.outcomes, o);
  }

  lemma StepCorrelates(s: State, e: Event)
    requires Correlated(s)
    ensures Correlated(Step(s, e)) && s.outcomes <= Step(s, e).outcomes
  {
    hide AllFit, Ordered, Answers;
    var t := Step(s, e);
    match e
    case Arrives(line) =>
    case StreamEnds =>
    case Begins(sent) =>
      if !s.requester.Waiting? {
        Raised(s.outcomes, s.ident);
        if !sent { OneMore(s.outcomes, NotSent(s.ident + 1)); }
      }
    case Takes =>
      if s.requester.Waiting? && s.queue != [] {
        var rest := s.(queue := t.queue, notifications := t.notifications, lost := t.lost);
        if t.requester.Idle? { CloseCorrelates(rest, t.outcomes[|s.outcomes|]); }
      }
    case GivesUp =>
      if s.requester.Waiting? && s.queue == [] { CloseCorrelates(s, TimedOut(s.ident)); }
  }

  lemma Raised(outcomes: seq<Outcome>, bound: int)
    requires AllFit(outcomes, bound)
    ensures AllFit(outcomes, bound + 1)
  {
    hide Answers;
  }

  lemma {:induction false} RunCorrelates(s: State, events: seq<Event>)
    requires Correlated(s)
    ensures Correlated(Run(s, events)) && s.outcomes <= Run(s, events).outcomes
    decreases |events|
  {
    hide Step, Correlated;
    if events != [] {
      var n := |events| - 1;
      RunCorrelates(s, events[..n]);
      StepCorrelates(Run(s, events[..n]), events[n]);
    }
  }

  /** Main result: in every interleaving a request that returns, returns a message with its own id; requests end at
      most once, in the order of their ids. */
  lemma RepliesCarryTheirOwnId(events: seq<Event>, i: nat)
    requires i < |Run(START, events).outcomes|
    ensures var o := Run(START, events).outcomes[i];
            && 0 < o.id <= Run(START, events).ident
            && (o.Replied? ==> o.message.Object? && o.message.id == Some(Number(o.id)))
    ensures forall j | i < j < |Run(START, events).outcomes| ::
              Run(START, events).outcomes[i].id < Run(START, events).outcomes[j].id
  {
    StartCorrelates();
    RunCorrelates(START, events);
  }

  // ----- conservation -----

  /** The messages with an id, or those without, in their order. */
  function Select(ms: seq<Message>, tagged: bool): seq<Message> {
    if ms == [] then [] else (if HasId(ms[0]) == tagged then [ms[0]] else []) + Select(ms[1..], tagged)
  }

  /** The queue without the reader's end mark. */
  function Pending(queue: seq<Message>): seq<Message> {
    Select(queue, true)
  }

  lemma {:induction false} SelectAppend(ms: seq<Message>, m: Message, tagged: bool)
    ensures Select(ms + [m], tagged) == Select(ms, tagged) + if HasId(m) == tagged then [m] else []
  {
    if ms != [] {
      SelectAppend(ms[1..], m, tagged);
      assert (ms + [m])[1..] == ms[1..] + [m];
    }
  }

  /** The messages requests returned. */
  function Returned(outcomes: seq<Outcome>): seq<Message> {
    if outcomes == [] then []
    else
      var last := outcomes[|outcomes| - 1];
      Returned(outcomes[..|outcomes| - 1]) + if last.Replied? then [last.message] else []
  }

  lemma ReturnedOneMore(outcomes: seq<Outcome>, o: Outcome)
    ensures Returned(outcomes + [o]) == Returned(outcomes) + if o.Replied? then [o.message] else []
  {
    assert (outcomes + [o])[..|outcomes|] == outcomes;
  }

  /** Every decoded message is in exactly one place. */
  predicate Balanced(s: State) {
    multiset(s.decoded) ==
    multiset(Returned(s.outcomes)) + multiset(s.notifications) + multiset(Pending(s.queue)) + multiset(s.lost)
  }

  /** The queue holds messages with an id and the reader's end mark; only unusable messages were lost. */
  predicate Sorted(s: State) {
    && (forall i | 0 <= i < |s.queue| :: HasId(s.queue[i]) || s.queue[i] == END)
    && (forall i | 0 <= i < |s.lost| :: Unusable(s.lost[i]))
  }

  lemma StepSorted(s: State, e: Event)
    requires Sorted(s)
    ensures Sorted(Step(s, e))
  {
  }

  lemma ArrivalBalanced(s: State, line: Line)
    requires Balanced(s)
    ensures Balanced(Arrive(s, line)) && Balanced(EndStream(s))
  {
    hide Select, Returned;
    SelectAppend(s.queue, END, true);
    assert Pending(s.queue) + [] == Pending(s.queue);
    if line.Says? {
      var m := line.message;
      SelectAppend(s.queue, m, true);
      assert multiset(s.decoded + [m]) == multiset(s.decoded) + multiset{m};
    }
  }

  lemma TakeBalanced(s: State)
    requires Balanced(s) && Sorted(s) && s.requester.Waiting? && s.queue != []
    ensures Balanced(Take(s))
  {
    hide Unusable, Balanced, Answers, Pending, Returned;
    var m, t := s.queue[0], Take(s);
    PendingFirst(s.queue);
    assert HasId(m) || m == END;
    if t.requester.Idle? { ReturnedOneMore(s.outcomes, t.outcomes[|s.outcomes|]); }
    MessageMoved(s, t, m);
  }

  lemma PendingFirst(queue: seq<Message>)
    requires queue != []
    ensures Pending(queue) == (if HasId(queue[0]) then [queue[0]] else []) + Pending(queue[1..])
  {
  }

  /** A message taken from the queue turns up in exactly one other place. */
  lemma MessageMoved(s: State, t: State, m: Message)
    requires Balanced(s) && t.decoded == s.decoded
    requires Pending(s.queue) == (if HasId(m) then [m] else []) + Pending(t.queue)
    requires var returned, replied := Returned(s.outcomes), Returned(t.outcomes);
             || (!HasId(m) && replied == returned && t.notifications == s.notifications && t.lost == s.lost)
             || (HasId(m) && (replied == returned + [m] && t.notifications == s.notifications && t.lost == s.lost))
             || (HasId(m) && (replied == returned && t.notifications == s.notifications + [m] && t.lost == s.lost))
             || (HasId(m) && (replied == returned && t.notifications == s.notifications && t.lost == s.lost + [m]))
    ensures Balanced(t)
  {
    hide HasId, Pending, Returned;
    assert multiset(Pending(s.queue)) == multiset(if HasId(m) then [m] else []) + multiset(Pending(t.queue));
  }

  lemma StepBalanced(s: State, e: Event)
    requires Balanced(s) && Sorted(s)
    ensures Balanced(Step(s, e))
  {
    hide Balanced, Sorted, Arrive, EndStream, Take;
    match e
    case Arrives(line) => ArrivalBalanced(s, line);
    case StreamEnds => ArrivalBalanced(s, Blank);
    case Begins(sent) =>
      ClosingBalanced(s, NotSent(s.ident + 1));
      assert Beside(s, Step(s, e), NotSent(s.ident + 1));
    case Takes =>
      if s.requester.Waiting? && s.queue != [] { TakeBalanced(s); } else { NothingToTake(s); }
    case GivesUp =>
      var o := TimedOut(if s.requester.Waiting? then s.requester.id else 0);
      ClosingBalanced(s, o);
      assert Beside(s, Step(s, e), o);
  }

  lemma NothingToTake(s: State)
    requires !s.requester.Waiting? || s.queue == []
    ensures Take(s) == s
  {
  }

  /** Two states that differ in no message; `t` may have one outcome more. */
  predicate Beside(s: State, t: State, o: Outcome) {
    && t.decoded == s.decoded && t.notifications == s.notifications && t.queue == s.queue && t.lost == s.lost
    && (t.outcomes == s.outcomes || t.outcomes == s.outcomes + [o])
  }

  lemma ClosingBalanced(s: State, o: Outcome)
    requires Balanced(s) && !o.Replied?
    ensures forall t: State | Beside(s, t, o) :: Balanced(t)
  {
    ReturnedOneMore(s.outcomes, o);
    assert Returned(s.outcomes) + [] == Returned(s.outcomes);
  }

  lemma {:induction false} RunAccounted(events: seq<Event>)
    ensures Balanced(Run(START, events)) && Sorted(Run(START, events))
    decreases |events|
  {
    hide Step, Balanced, Sorted;
    if events == [] {
      StartBalanced();
    } else {
      var n := |events| - 1;
      RunAccounted(events[..n]);
      StepBalanced(Run(START, events[..n]), events[n]);
      StepSorted(Run(START, events[..n]), events[n]);
    }
  }

  lemma StartBalanced()
    ensures Balanced(START) && Sorted(START)
  {
  }

  // ----- order and delivery -----

  predicate IsSuffix(a: seq<Message>, b: seq<Message>) {
    |a| <= |b| && b[|b| - |a|..] == a
  }

  /** The queue is the unread end of the arrived messages with an id, in order of arrival; those without an id were
      set aside in order of arrival. */
  predicate InOrder(s: State) {
    IsSuffix(Pending(s.queue), Select(s.decoded, true)) && Select(s.notifications, false) == Select(s.decoded, false)
  }

  lemma SuffixSteps(a: seq<Message>, b: seq<Message>, m: Message)
    requires IsSuffix(a, b)
    ensures IsSuffix(a + [m], b + [m]) && (a != [] ==> IsSuffix(a[1..], b))
  {
  }

  lemma StepInOrder(s: State, e: Event)
    requires InOrder(s) && Sorted(s)
    ensures InOrder(Step(s, e))
  {
    hide Unusable, Answers, IsSuffix, Select;
    match e
    case Arrives(line) =>
      if line.Says? {
        var m := line.message;
        SelectAppend(s.decoded, m, true);
        SelectAppend(s.decoded, m, false);
        SelectAppend(s.queue, m, true);
        SelectAppend(s.notifications, m, false);
        SuffixSteps(Pending(s.queue), Select(s.decoded, true), m);
        assert Select(s.decoded, true) + [] == Select(s.decoded, true);
        assert Select(s.decoded, false) + [] == Select(s.decoded, false);
      }
    case StreamEnds =>
      SelectAppend(s.queue, END, true);
      assert Pending(s.queue) + [] == Pending(s.queue);
    case Begins(sent) =>
    case Takes =>
      if s.queue != [] {
        var m := s.queue[0];
        PendingFirst(s.queue);
        SelectAppend(s.notifications, m, false);
        SuffixSteps(Pending(s.queue), Select(s.decoded, true), m);
        assert HasId(m) ==> ([m] + Pending(s.queue[1..]))[1..] == Pending(s.queue[1..]);
        assert [] + Pending(s.queue[1..]) == Pending(s.queue[1..]);
        assert Select(s.notifications, false) + [] == Select(s.notifications, false);
      }
    case GivesUp =>
  }

  /** Main result: in every interleaving messages with an id are read in order of arrival, and messages without one are
      set aside in order of arrival. */
  lemma {:induction false} MessagesKeepTheirOrder(events: seq<Event>)
    ensures InOrder(Run(START, events))
    decreases |events|
  {
    hide Step, InOrder, Sorted, Balanced;
    if events == [] {
      StartInOrder();
    } else {
      var n := |events| - 1;
      MessagesKeepTheirOrder(events[..n]);
      RunAccounted(events[..n]);
      StepInOrder(Run(START, events[..n]), events[n]);
    }
  }

  lemma StartInOrder()
    ensures InOrder(START)
  {
  }

  /** A queued message that a request for `id` reads past. */
  predicate PassedOver(m: Message, id: int) {
    m.Object? && !m.marked && !Answers(m, id)
  }

  /** Messages read past are set aside in their order, and the request goes on waiting. */
  lemma {:induction false} PassingOver(s: State, k: nat)
    requires s.requester.Waiting? && k <= |s.queue|
    requires forall j | 0 <= j < k :: PassedOver(s.queue[j], s.requester.id)
    ensures Run(s, seq(k, n => Takes)) == s.(queue := s.queue[k..], notifications := s.notifications + s.queue[..k])
    decreases k
  {
    hide Answers, Run;
    if k == 0 {
      NothingToRun(s);
      assert s.notifications + s.queue[..0] == s.notifications && s.queue[0..] == s.queue;
    } else {
      var first := Take(s);
      assert PassedOver(s.queue[0], s.requester.id);
      assert first == s.(queue := s.queue[1..], notifications := s.notifications + [s.queue[0]]);
      assert forall j | 0 <= j < k - 1 :: first.queue[j] == s.queue[j + 1];
      PassingOver(first, k - 1);
      TakeThenRest(s, k - 1);
      assert first.notifications + first.queue[..k - 1] == s.notifications + s.queue[..k];
      assert first.queue[k - 1..] == s.queue[k..];
    }
  }

  lemma PassThenTake(s: State, k: nat)
    ensures Run(s, seq(k + 1, n => Takes)) == Take(Run(s, seq(k, n => Takes)))
  {
    assert seq(k + 1, n => Takes) == seq(k, n => Takes) + [Takes];
    RunStep(s, seq(k, n => Takes), Takes);
  }

  /** Main result: a waiting request with a queued reply returns that reply after reading up to it, having set aside
      exactly what was queued before it. */
  lemma QueuedRepliesAreDelivered(s: State, i: nat)
    requires s.requester.Waiting? && i < |s.queue|
    requires forall j | 0 <= j < i :: PassedOver(s.queue[j], s.requester.id)
    requires s.queue[i].Object? && !s.queue[i].marked && Answers(s.queue[i], s.requester.id)
    ensures Run(s, seq(i + 1, n => Takes)) ==
            s.(requester := Idle, queue := s.queue[i + 1..], notifications := s.notifications + s.queue[..i],
               outcomes := s.outcomes + [Replied(s.requester.id, s.queue[i])])
  {
    hide Answers, Run;
    PassingOver(s, i);
    PassThenTake(s, i);
    assert s.queue[i..][1..] == s.queue[i + 1..];
  }

  /** Main result: when the stream ends while a request waits and nothing queued answers it, the request ends with that
      error after reading past the queue, and everything queued was set aside. */
  lemma StreamEndEndsTheRequest(s: State)
    requires s.reading && s.requester.Waiting?
    requires forall j | 0 <= j < |s.queue| :: PassedOver(s.queue[j], s.requester.id)
    ensures Run(s, [StreamEnds] + seq(|s.queue| + 1, n => Takes)) ==
            s.(reading := false, requester := Idle, queue := [], notifications := s.notifications + s.queue,
               outcomes := s.outcomes + [Ended(s.requester.id)])
  {
    hide Answers, Run;
    var k := |s.queue|;
    var t := EndStream(s);
    assert |t.queue| == k + 1 && t.queue[..k] == s.queue && t.queue[k] == END;
    assert forall j | 0 <= j < k :: t.queue[j] == s.queue[j];
    FirstEvent(s, StreamEnds, seq(k + 1, n => Takes));
    PassingOver(t, k);
    PassThenTake(t, k);
    assert t.queue[k..] == [END] && [END][1..] == [];
  }

  lemma FirstEvent(s: State, e: Event, events: seq<Event>)
    ensures Run(s, [e] + events) == Run(Step(s, e), events)
  {
    hide Step;
    RunAppend(s, [e], events);
    assert [] + [e] == [e];
    RunStep(s, [], e);
    assert Run(s, []) == s;
  }

  lemma NothingRun(s: State)
    ensures Run(s, []) == s
  {
  }

  /** The server's words: the messages on the lines that arrive before the stream ends or a line holds a bare value. */
  function Said(events: seq<Event>): seq<Message> {
    if events == [] then []
    else match events[0]
      case StreamEnds => []
      case Arrives(Scalar) => []
      case Arrives(Says(m)) => [m] + Said(events[1..])
      case _ => Said(events[1..])
  }

  /** Main result: in every interleaving exactly the server's words are decoded, in their order. */
  lemma {:induction false} DecodedIsSaid(s: State, events: seq<Event>)
    ensures Run(s, events).decoded == s.decoded + if s.reading then Said(events) else []
    decreases |events|
  {
    hide Run, HasId, Answers;
    if events == [] {
      NothingRun(s);
      assert s.decoded + [] == s.decoded;
    } else {
      var t := Step(s, events[0]);
      assert events == [events[0]] + events[1..];
      FirstEvent(s, events[0], events[1..]);
      DecodedIsSaid(t, events[1..]);
      if s.reading && events[0].Arrives? && events[0].line.Says? {
        var m := events[0].line.message;
        assert (s.decoded + [m]) + Said(events[1..]) == s.decoded + ([m] + Said(events[1..]));
      }
    }
  }

  /** Every way a waiting request ends: the wait on an empty queue runs out, or the next queued message is its reply,
      the end mark, or no object. Nothing else ends it. */
  lemma RequestsEndExactly(s: State, e: Event)
    requires s.requester.Waiting?
    ensures var t, id := Step(s, e), s.requester.id;
            && (t.requester == s.requester && t.outcomes == s.outcomes
                <==> !(e.GivesUp? && s.queue == []) && !(e.Takes? && s.queue != [] && !PassedOver(s.queue[0], id)))
            && (e.GivesUp? && s.queue == [] ==> t == s.(requester := Idle, outcomes := s.outcomes + [TimedOut(id)]))
            && (e.Takes? && s.queue != [] && !PassedOver(s.queue[0], id) ==>
                  var m := s.queue[0];
                  && t.queue == s.queue[1..] && t.requester == Idle
                  && t.outcomes == s.outcomes + [if m.NonObject? then Crashed(id) else if m.marked then Ended(id)
                                                 else Replied(id, m)])
  {
  }

  lemma NothingToRun(s: State)
    ensures Run(s, seq(0, n => Takes)) == s
  {
  }

  lemma TakeThenRest(s: State, i: nat)
    ensures Run(s, seq(i + 1, n => Takes)) == Run(Take(s), seq(i, n => Takes))
  {
    assert seq(i + 1, n => Takes) == [Takes] + seq(i, n => Takes);
    RunAppend(s, [Takes], seq(i, n => Takes));
    assert [] + [Takes] == [Takes];
    RunStep(s, [], Takes);
    assert Run(s, []) == s;
  }

  /** Every decoded message was returned, set aside, or is still queued, exactly once. */
  predicate Conserved(s: State) {
    multiset(s.decoded) ==
    multiset(Returned(s.outcomes)) + multiset(s.notifications) + multiset(Pending(s.queue))
  }

  /** All that arrives is drawn from a vocabulary. */
  predicate Speaks(events: seq<Event>, vocabulary: set<Message>) {
    forall i | 0 <= i < |events| && events[i].Arrives? && events[i].line.Says? :: events[i].line.message in vocabulary
  }

  lemma {:induction false} DecodedAreSpoken(events: seq<Event>, vocabulary: set<Message>)
    requires Speaks(events, vocabulary)
    ensures forall m | m in Run(START, events).decoded :: m in vocabulary
    decreases |events|
  {
    if events != [] {
      var n := |events| - 1;
      assert Speaks(events[..n], vocabulary);
      DecodedAreSpoken(events[..n], vocabulary);
    }
  }

  ghost predicate AlwaysConserved(vocabulary: set<Message>) {
    forall events :: Speaks(events, vocabulary) ==> Conserved(Run(START, events))
  }

  /** Main result: over every interleaving nothing is lost or duplicated exactly when the server never sends an
      unusable message, that is one with an id that also carries the reader's own end mark or is no object. */
  lemma ConservationIsExact(vocabulary: set<Message>)
    ensures AlwaysConserved(vocabulary) <==> forall m | m in vocabulary :: !Unusable(m)
  {
    if forall m | m in vocabulary :: !Unusable(m) {
      forall events | Speaks(events, vocabulary) ensures Conserved(Run(START, events)) {
        UsableMessagesAreConserved(events, vocabulary);
      }
    } else {
      var m :| m in vocabulary && Unusable(m);
      var events := [Arrives(Says(m)), Begins(true), Takes];
      UnusableMessagesAreLost(m);
      assert Speaks(events, vocabulary);
    }
  }

  lemma UsableMessagesAreConserved(events: seq<Event>, vocabulary: set<Message>)
    requires Speaks(events, vocabulary) && forall m | m in vocabulary :: !Unusable(m)
    ensures Conserved(Run(START, events))
  {
    var s := Run(START, events);
    RunAccounted(events);
    DecodedAreSpoken(events, vocabulary);
    if s.lost != [] { LostWereDecoded(s); }
  }

  lemma LostWereDecoded(s: State)
    requires Balanced(s) && Sorted(s) && s.lost != []
    ensures exists m :: m in s.decoded && Unusable(m)
  {
    hide Unusable;
    assert s.lost[0] in multiset(s.lost) && s.lost[0] in multiset(s.decoded);
  }

  /** One unusable message is enough: the request that meets it fails, and the message is gone. */
  lemma UnusableMessagesAreLost(m: Message)
    requires Unusable(m)
    ensures !Conserved(Run(START, [Arrives(Says(m)), Begins(true), Takes]))
  {
    var events := [Arrives(Says(m)), Begins(true), Takes];
    var one := START.(decoded := [m], queue := [m]);
    var two := one.(ident := 1, requester := Waiting(1));
    assert [] + [Arrives(Says(m))] == [Arrives(Says(m))];
    RunStep(START, [], Arrives(Says(m)));
    assert Run(START, [Arrives(Says(m))]) == one;
    RunStep(START, [Arrives(Says(m))], Begins(true));
    assert [Arrives(Says(m))] + [Begins(true)] == [Arrives(Says(m)), Begins(true)];
    RunStep(START, [Arrives(Says(m)), Begins(true)], Takes);
    assert [Arrives(Says(m)), Begins(true)] + [Takes] == events;
    var three := Take(two);
    assert three.queue == [] && three.notifications == [] && |three.outcomes| == 1 && !three.outcomes[0].Replied?;
    assert Returned(three.outcomes) == [] by { ReturnedOneMore([], three.outcomes[0]); }
    assert m in multiset(three.decoded);
  }

  /** Main result: once a request has timed out, no later event delivers its reply to anyone; a usable late reply
      ends up set aside, or is still queued. */
  lemma LateRepliesAreSetAside(before: seq<Event>, after: seq<Event>, i: nat, m: Message)
    requires i < |Run(START, before).outcomes| && Run(START, before).outcomes[i].TimedOut?
    requires Answers(m, Run(START, before).outcomes[i].id)
    ensures var s := Run(START, before + after);
            && m !in Returned(s.outcomes)
            && (m in s.decoded && !Unusable(m) ==> m in s.notifications || m in s.queue)
  {
    hide Step, Unusable, Correlated;
    var s, t := Run(START, before), Run(START, before + after);
    RunAppend(START, before, after);
    StartCorrelates();
    RunCorrelates(START, before);
    RunCorrelates(s, after);
    RunAccounted(before + after);
    assert t.outcomes[i] == s.outcomes[i];
    NobodyElseGetsIt(t, i, m);
    if m in t.decoded && !Unusable(m) {
      assert m in multiset(t.decoded);
      if m in multiset(Pending(t.queue)) { PendingIsQueued(t.queue, m); }
    }
  }

  lemma StartCorrelates()
    ensures Correlated(START)
  {
  }

  /** Distinct requests have distinct ids, so the reply to one that ended without it was returned to none. */
  lemma NobodyElseGetsIt(s: State, i: nat, m: Message)
    requires Correlated(s) && i < |s.outcomes| && !s.outcomes[i].Replied? && Answers(m, s.outcomes[i].id)
    ensures m !in Returned(s.outcomes)
  {
    hide Answers;
    forall j | 0 <= j < |s.outcomes| && s.outcomes[j].Replied? ensures s.outcomes[j].message != m {
      assert Fits(s.outcomes[j], s.ident);
      DifferentIds(m, s.outcomes[i].id, s.outcomes[j].message, s.outcomes[j].id);
    }
    NotReturned(s.outcomes, m);
  }

  lemma DifferentIds(m: Message, k: int, n: Message, l: int)
    requires Answers(m, k) && Answers(n, l)
    ensures m == n ==> k == l
  {
  }

  lemma {:induction false} NotReturned(outcomes: seq<Outcome>, m: Message)
    requires forall j | 0 <= j < |outcomes| && outcomes[j].Replied? :: outcomes[j].message != m
    ensures m !in Returned(outcomes)
    decreases |outcomes|
  {
    if outcomes != [] { NotReturned(outcomes[..|outcomes| - 1], m); }
  }

  lemma {:induction false} PendingIsQueued(queue: seq<Message>, m: Message)
    requires m in Pending(queue)
    ensures m in queue
  {
    if queue[0] != m {
      PendingFirst(queue);
      PendingIsQueued(queue[1..], m);
    }
  }

  // ----- the client -----

  /** The client object. Ghost fields record where its threads stand and what happened. */
  class MCPStdioClient {
    var ident: nat
    var responses: seq<Message>
    var notifications: seq<Message>
    var reading: bool
    ghost var requester: Requester
    ghost var decoded: seq<Message>
    ghost var lost: seq<Message>
    ghost var outcomes: seq<Outcome>

    constructor ()
      ensures Observed() == START
    {
      ident, responses, notifications, reading := 0, [], [], true;
      requester, decoded, lost, outcomes := Idle, [], [], [];
    }

    ghost function Observed(): State
      reads this
    {
      State(ident, responses, notifications, reading, requester, decoded, lost, outcomes)
    }

    /** The reader thread over the lines it gets before it is interrupted. */
    method ReadStdout(lines: seq<Line>)
      modifies this
      ensures Observed() == Run(old(Observed()), seq(|lines|, i requires 0 <= i < |lines| => Arrives(lines[i])))
    {
      ghost var events := seq(|lines|, i requires 0 <= i < |lines| => Arrives(lines[i]));
      for n := 0 to |lines|
        invariant Observed() == Run(old(Observed()), events[..n])
      {
        assert events[..n + 1][..n] == events[..n];
        if reading {
          match lines[n]
          case Blank =>
          case Undecodable =>
          case Scalar => reading := false;
          case Says(m) =>
            decoded := decoded + [m];
            if HasId(m) {
              responses := responses + [m];
            } else {
              notifications := notifications + [m];
            }
        }
      }
      assert events[..|lines|] == events;
    }

    /** One look at the queue: the reply wanted, an error, or another message set aside. */
    method TakeOne() returns (done: bool, reply: Option<Message>)
      requires requester == Waiting(ident) && responses != []
      modifies this
      ensures Observed() == Take(old(Observed()))
      ensures done <==> requester.Idle?
      ensures done ==> |outcomes| == |old(outcomes)| + 1
      ensures reply == if done && outcomes[|old(outcomes)|].Replied? then Some(old(responses[0])) else None
    {
      hide Answers, HasId;
      done, reply := true, None;
      var message := responses[0];
      responses := responses[1..];
      if message.NonObject? {
        lost, requester, outcomes := lost + [message], Idle, outcomes + [Crashed(ident)];
      } else if message.marked {
        lost := if HasId(message) then lost + [message] else lost;
        requester, outcomes := Idle, outcomes + [Ended(ident)];
      } else if Answers(message, ident) {
        requester, outcomes := Idle, outcomes + [Replied(ident, message)];
        reply := Some(message);
      } else {
        done, notifications := false, notifications + [message];
      }
    }

    /** `request`, while the reader delivers one batch of lines before every look at the queue and none after the
        last batch. Returns the reply, or nothing for each of the errors raised. */
    method Request(sent: bool, batches: seq<seq<Line>>) returns (reply: Option<Message>, ghost events: seq<Event>)
      requires requester == Idle
      modifies this
      ensures requester == Idle && ident == old(ident) + 1
      ensures Observed() == Run(old(Observed()), events)
      ensures |outcomes| == |old(outcomes)| + 1
      ensures match outcomes[|old(outcomes)|]
              case Replied(id, m) => id == ident && reply == Some(m) && Answers(m, ident)
              case other => other.id == ident && reply == None
    {
      hide Run, Arrive, Take;
      events := [Begins(sent)];
      BeginRun(Observed(), sent);
      ident := ident + 1;
      if !sent {
        outcomes := outcomes + [NotSent(ident)];
        return None, events;
      }
      requester := Waiting(ident);
      var turn := 0;
      while true
        invariant requester == Waiting(ident) && ident == old(ident) + 1 && outcomes == old(outcomes)
        invariant Observed() == Run(old(Observed()), events)
        invariant turn <= |batches|
        decreases |batches| - turn, |responses|
      {
        if turn < |batches| {
          var lines := batches[turn];
          turn := turn + 1;
          ghost var arrivals := seq(|lines|, i requires 0 <= i < |lines| => Arrives(lines[i]));
          ArrivalsLeaveTheRequest(Observed(), arrivals);
          RunAppend(old(Observed()), events, arrivals);
          ReadStdout(lines);
          events := events + arrivals;
        }
        if responses == [] {
          RunStep(old(Observed()), events, GivesUp);
          events := events + [GivesUp];
          requester, outcomes := Idle, outcomes + [TimedOut(ident)];
          return None, events;
        }
        RunStep(old(Observed()), events, Takes);
        TakingEnds(Observed());
        events := events + [Takes];
        var done;
        done, reply := TakeOne();
        if done { return reply, events; }
      }
    }
  }

  /** A look at the queue that ends the request ends it with its own id. */
  lemma TakingEnds(s: State)
    requires s.requester == Waiting(s.ident) && s.queue != []
    ensures var t := Take(s);
            && t.ident == s.ident && |t.queue| < |s.queue|
            && (t.requester.Waiting? ==> t.requester == s.requester && t.outcomes == s.outcomes)
            && (t.requester.Idle? ==>
                  && |t.outcomes| == |s.outcomes| + 1 && t.outcomes[|s.outcomes|].id == s.ident
                  && (t.outcomes[|s.outcomes|].Replied? ==>
                        t.outcomes[|s.outcomes|].message == s.queue[0] && Answers(s.queue[0], s.ident)))
  {
    hide Answers;
  }

  lemma BeginRun(s: State, sent: bool)
    ensures Run(s, [Begins(sent)]) == Begin(s, sent)
  {
    assert [Begins(sent)][..0] == [];
    assert Run(s, []) == s;
  }

  lemma {:induction false} ArrivalsLeaveTheRequest(s: State, arrivals: seq<Event>)
    requires forall i | 0 <= i < |arrivals| :: arrivals[i].Arrives?
    ensures var t := Run(s, arrivals);
            t.ident == s.ident && t.requester == s.requester && t.outcomes == s.outcomes
    decreases |arrivals|
  {
    if arrivals != [] { ArrivalsLeaveTheRequest(s, arrivals[..|arrivals| - 1]); }
  }
}
