/** One turn of a chat: an agent that puts events on a queue, and a generator that takes them off and
    yields frames, in any interleaving. Models stream_chat in
    src/jenkins_watchdog/reasoning/chat_stream.py, and the stored transcripts of
    src/jenkins_watchdog/api/router.py. */
module ChatStream {

  datatype Event = Token(text: string) | ToolStart(name: string) | ToolResult(name: string, ok: bool)

  datatype Frame = Data(event: Event) | Error(message: string) | Done

  datatype Message = User(content: string) | Assistant(content: string)

  /** How the agent's run ends: with an answer, or by an exception. */
  datatype Outcome = Answer(content: string) | Failure(message: string)

  /** A turn: what the agent will emit and come to, the user's message, and which events json.dumps
      takes; what it says of one that it does not take. */
  datatype Turn = Turn(events: seq<Event>, outcome: Outcome, message: string,
                       dumps: Event -> bool, complaint: Event -> string)

  // ---------------------------------------------------------------- what a turn should yield

  function Frames(events: seq<Event>): (frames: seq<Frame>)
    ensures |frames| == |events| && forall i | 0 <= i < |events| :: frames[i] == Data(events[i])
  {
    seq(|events|, i requires 0 <= i < |events| => Data(events[i]))
  }

  /** The position of the first event that cannot be written. */
  function FirstBad(events: seq<Event>, dumps: Event -> bool): (k: nat)
    ensures k <= |events|
    ensures forall i | 0 <= i < k :: dumps(events[i])
    ensures k < |events| ==> !dumps(events[k])
  {
    if events == [] || !dumps(events[0]) then 0 else 1 + FirstBad(events[1..], dumps)
  }

  /** The answer, unless the narration has had it; and the end. */
  function Closing(t: Turn): seq<Frame> {
    match t.outcome
    case Failure(message) => [Error(message)]
    case Answer(content) =>
      (if content != "" && Token(content) !in t.events then [Data(Token(content))] else []) + [Done]
  }

  function Expected(t: Turn): seq<Frame> {
    var k := FirstBad(t.events, t.dumps);
    if k < |t.events| then Frames(t.events[..k]) + [Error(t.complaint(t.events[k]))]
    else Frames(t.events) + Closing(t)
  }

  predicate Succeeds(t: Turn) {
    FirstBad(t.events, t.dumps) == |t.events| && t.outcome.Answer?
  }

  function Transcript(t: Turn, before: seq<Message>): seq<Message> {
    if Succeeds(t) then before + [User(t.message), Assistant(t.outcome.content)] else before
  }

  predicate IsFinal(f: Frame) {
    f.Error? || f.Done?
  }

  /** A turn yields the events in order, as far as they can be written, and ends with a single final
      frame: done exactly if the turn succeeds. A successful turn's answer is among the tokens. */
  lemma ExpectedIsRight(t: Turn)
    ensures var e := Expected(t);
            && e != [] && IsFinal(e[|e| - 1]) && (e[|e| - 1].Done? <==> Succeeds(t))
            && (forall i | 0 <= i < |e| - 1 :: !IsFinal(e[i]))
            && Frames(t.events[..FirstBad(t.events, t.dumps)]) <= e
            && (Succeeds(t) && t.outcome.content != "" ==> Data(Token(t.outcome.content)) in e)
  {
    var e, k := Expected(t), FirstBad(t.events, t.dumps);
    assert t.events[..|t.events|] == t.events;
    if Succeeds(t) && t.outcome.content != "" {
      var token := Token(t.outcome.content);
      if token in t.events {
        var i :| 0 <= i < |t.events| && t.events[i] == token;
        assert e[i] == Data(token);
      } else {
        assert e[|t.events|] == Data(token);
      }
    }
  }

  // ---------------------------------------------------------------- the two sides of the queue

  datatype Item = Put(event: Event) | Sentinel

  datatype Phase = Draining | Awaiting | Ended

  /** The agent's part: what it has yet to emit, and whether it has put the sentinel and is done. The
      generator's part: where it is, what it has yielded, and the transcript. */
  datatype State = State(pending: seq<Event>, signed: bool, finished: bool, queue: seq<Item>,
                         phase: Phase, yielded: seq<Frame>, transcript: seq<Message>)

  function Start(t: Turn, transcript: seq<Message>): State {
    State(t.events, false, false, [], Draining, [], transcript)
  }

  datatype Step = Emit | Sign | Finish | Take | Join

  predicate Enabled(s: State, step: Step) {
    match step
    case Emit => s.pending != []
    case Sign => s.pending == [] && !s.signed
    case Finish => s.signed && !s.finished
    case Take => s.phase.Draining? && s.queue != []
    case Join => s.phase.Awaiting? && s.finished
  }

  function Next(t: Turn, s: State, step: Step): State
    requires Enabled(s, step)
  {
    match step
    case Emit => s.(queue := s.queue + [Put(s.pending[0])], pending := s.pending[1..])
    case Sign => s.(queue := s.queue + [Sentinel], signed := true)
    case Finish => s.(finished := true)
    case Take => Receive(t, s.(queue := s.queue[1..]), s.queue[0])
    case Join =>
      (match t.outcome
       case Failure(message) => s.(phase := Ended, yielded := s.yielded + [Error(message)])
       case Answer(content) =>
         s.(phase := Ended,
            transcript := s.transcript + [User(t.message), Assistant(content)],
            yielded := s.yielded
              + (if content != "" && Token(content) !in t.events then [Data(Token(content))] else [])
              + [Done]))
  }

  /** What the generator does with an item: an event that cannot be written ends the turn. */
  function Receive(t: Turn, s: State, item: Item): State {
    match item
    case Sentinel => s.(phase := Awaiting)
    case Put(event) =>
      if t.dumps(event) then s.(yielded := s.yielded + [Data(event)])
      else s.(phase := Ended, yielded := s.yielded + [Error(t.complaint(event))])
  }

  /** An interleaving: every step is possible when it is taken. */
  predicate Legal(t: Turn, before: seq<Message>, steps: seq<Step>)
    decreases |steps|, 0
  {
    steps == [] ||
    (Legal(t, before, steps[..|steps| - 1]) && Enabled(Run(t, before, steps[..|steps| - 1]), steps[|steps| - 1]))
  }

  function Run(t: Turn, before: seq<Message>, steps: seq<Step>): State
    requires Legal(t, before, steps)
    decreases |steps|, 1
  {
    if steps == [] then Start(t, before)
    else Next(t, Run(t, before, steps[..|steps| - 1]), steps[|steps| - 1])
  }

  // ---------------------------------------------------------------- every interleaving yields the same

  function Items(events: seq<Event>, signed: bool): (items: seq<Item>)
    ensures |items| == |events| + if signed then 1 else 0
    ensures forall i | 0 <= i < |events| :: items[i] == Put(events[i])
    ensures signed ==> items[|events|] == Sentinel
  {
    seq(|events|, i requires 0 <= i < |events| => Put(events[i])) + if signed then [Sentinel] else []
  }

  /** What has been yielded, what is on the queue, and what is still to be emitted make up the events. */
  predicate InOrder(t: Turn, s: State) {
    var taken, put := |s.yielded|, |t.events| - |s.pending|;
    && taken <= put && taken <= FirstBad(t.events, t.dumps)
    && s.yielded == Frames(t.events[..taken])
    && s.queue == Items(t.events[taken..put], s.signed)
    && s.pending == t.events[put..]
    && (s.signed ==> put == |t.events|)
  }

  predicate Invariant(t: Turn, before: seq<Message>, s: State) {
    && (s.finished ==> s.signed) && (s.signed ==> s.pending == [])
    && match s.phase
       case Draining => s.transcript == before && InOrder(t, s)
       case Awaiting =>
         s.transcript == before && s.signed && s.queue == []
         && FirstBad(t.events, t.dumps) == |t.events| && s.yielded == Frames(t.events)
       case Ended => s.yielded == Expected(t) && s.transcript == Transcript(t, before)
  }

  lemma EmitKeeps(t: Turn, before: seq<Message>, s: State)
    requires Invariant(t, before, s) && Enabled(s, Emit)
    ensures Invariant(t, before, Next(t, s, Emit))
  {
    if s.phase.Draining? {
      var taken, put := |s.yielded|, |t.events| - |s.pending|;
      assert t.events[taken..put + 1] == t.events[taken..put] + [s.pending[0]];
    }
  }

  lemma SignKeeps(t: Turn, before: seq<Message>, s: State)
    requires Invariant(t, before, s) && Enabled(s, Sign)
    ensures Invariant(t, before, Next(t, s, Sign))
  {
  }

  lemma TakeKeeps(t: Turn, before: seq<Message>, s: State)
    requires Invariant(t, before, s) && Enabled(s, Take)
    ensures Invariant(t, before, Next(t, s, Take))
  {
    hide Receive, Frames, FirstBad, Expected;
    var taken, put := |s.yielded|, |t.events| - |s.pending|;
    if taken < put {
      assert s.queue[0] == Put(t.events[taken]);
      TakeEventKeeps(t, before, s);
    } else {
      TakeSentinelKeeps(t, before, s);
    }
  }

  lemma TakeEventKeeps(t: Turn, before: seq<Message>, s: State)
    requires Invariant(t, before, s) && s.phase.Draining? && |s.yielded| < |t.events| - |s.pending|
    ensures s.queue != [] && Invariant(t, before, Next(t, s, Take))
  {
    hide Items, Legal, Run, Frames, FirstBad;
    var taken, put := |s.yielded|, |t.events| - |s.pending|;
    ItemsFirst(t.events, taken, put, s.signed);
    FramesNext(t.events, taken);
    BadNext(t.events, t.dumps, taken);
  }

  lemma FramesNext(events: seq<Event>, n: nat)
    requires n < |events|
    ensures Frames(events[..n + 1]) == Frames(events[..n]) + [Data(events[n])]
  {
  }

  lemma BadNext(events: seq<Event>, dumps: Event -> bool, n: nat)
    requires n < |events| && n <= FirstBad(events, dumps)
    ensures if dumps(events[n]) then n < FirstBad(events, dumps) else n == FirstBad(events, dumps)
  {
  }

  lemma ItemsFirst(events: seq<Event>, taken: nat, put: nat, signed: bool)
    requires taken < put <= |events|
    ensures var queue := Items(events[taken..put], signed);
            queue != [] && queue[0] == Put(events[taken]) && queue[1..] == Items(events[taken + 1..put], signed)
  {
    assert events[taken..put][1..] == events[taken + 1..put];
  }

  lemma TakeSentinelKeeps(t: Turn, before: seq<Message>, s: State)
    requires Invariant(t, before, s) && s.phase.Draining? && s.queue != [] && |s.yielded| >= |t.events| - |s.pending|
    ensures Invariant(t, before, Next(t, s, Take))
  {
    var taken := |s.yielded|;
    assert t.events[taken..taken] == [] && s.queue == Items([], s.signed);
    assert t.events[..|t.events|] == t.events;
  }

  lemma JoinKeeps(t: Turn, before: seq<Message>, s: State)
    requires Invariant(t, before, s) && Enabled(s, Join)
    ensures Invariant(t, before, Next(t, s, Join))
  {
    if t.outcome.Answer? {
      var content := t.outcome.content;
      var answer := if content != "" && Token(content) !in t.events then [Data(Token(content))] else [];
      assert s.yielded + answer + [Done] == s.yielded + (answer + [Done]);
    }
  }

  lemma {:induction false} RunKeepsInvariant(t: Turn, before: seq<Message>, steps: seq<Step>)
    requires Legal(t, before, steps)
    ensures Invariant(t, before, Run(t, before, steps))
  {
    if steps == [] {
      assert t.events[0..0] == [] && t.events[0..] == t.events;
      assert Frames(t.events[..0]) == [];
    } else {
      hide Invariant, Next;
      var front, last := steps[..|steps| - 1], steps[|steps| - 1];
      RunKeepsInvariant(t, before, front);
      var s := Run(t, before, front);
      match last {
        case Emit => EmitKeeps(t, before, s);
        case Sign => SignKeeps(t, before, s);
        case Finish => FinishKeeps(t, before, s);
        case Take => TakeKeeps(t, before, s);
        case Join => JoinKeeps(t, before, s);
      }
    }
  }

  lemma FinishKeeps(t: Turn, before: seq<Message>, s: State)
    requires Invariant(t, before, s) && Enabled(s, Finish)
    ensures Invariant(t, before, Next(t, s, Finish))
  {
  }

  lemma YieldedIsExpected(t: Turn, before: seq<Message>, s: State)
    requires Invariant(t, before, s)
    ensures s.yielded <= Expected(t)
  {
    var k := FirstBad(t.events, t.dumps);
    assert t.events[..|t.events|] == t.events;
    if s.phase.Draining? {
      FramesStart(t.events, |s.yielded|, k);
      var rest := if k < |t.events| then [Error(t.complaint(t.events[k]))] else Closing(t);
      assert Expected(t) == Frames(t.events[..k]) + rest;
    }
  }

  lemma FramesStart(events: seq<Event>, n: nat, k: nat)
    requires n <= k <= |events|
    ensures Frames(events[..n]) <= Frames(events[..k])
  {
  }

  /** In every interleaving, what has been yielded is a start of what should be, and all of it at the
      end; then, and only then, the transcript has grown by the pair if the turn succeeds. */
  lemma EveryInterleaving(t: Turn, before: seq<Message>, steps: seq<Step>)
    requires Legal(t, before, steps)
    ensures var s := Run(t, before, steps);
            && s.yielded <= Expected(t)
            && (s.phase.Ended? ==> s.yielded == Expected(t) && s.transcript == Transcript(t, before))
            && (!s.phase.Ended? ==> s.transcript == before)
  {
    hide Legal, Run, Expected, InOrder;
    RunKeepsInvariant(t, before, steps);
    YieldedIsExpected(t, before, Run(t, before, steps));
  }

  /** What is left to do. */
  function Left(s: State): nat {
    2 * |s.pending| + (if s.signed then 0 else 2) + (if s.finished then 0 else 1) + |s.queue|
    + match s.phase case Draining => 2 case Awaiting => 1 case Ended => 0
  }

  /** No interleaving goes on for ever, and none gets stuck before the turn has ended. */
  lemma EveryTurnEnds(t: Turn, before: seq<Message>, steps: seq<Step>)
    requires Legal(t, before, steps)
    ensures var s := Run(t, before, steps);
            && (forall step | Enabled(s, step) :: Left(Next(t, s, step)) < Left(s))
            && (!s.phase.Ended? ==> exists step :: Enabled(s, step))
  {
    hide Legal, Run;
    RunKeepsInvariant(t, before, steps);
    var s := Run(t, before, steps);
    forall step | Enabled(s, step)
      ensures Left(Next(t, s, step)) < Left(s)
    {
      StepLeavesLess(t, s, step);
    }
    if !s.phase.Ended? {
      SomeStep(t, before, s);
    }
  }

  lemma StepLeavesLess(t: Turn, s: State, step: Step)
    requires Enabled(s, step)
    ensures Left(Next(t, s, step)) < Left(s)
  {
  }

  lemma SomeStep(t: Turn, before: seq<Message>, s: State)
    requires Invariant(t, before, s) && !s.phase.Ended?
    ensures exists step :: Enabled(s, step)
  {
    if s.pending != [] {
      assert Enabled(s, Emit);
    } else if !s.signed {
      assert Enabled(s, Sign);
    } else if !s.finished {
      assert Enabled(s, Finish);
    } else if s.phase.Draining? {
      assert Enabled(s, Take);
    } else {
      assert Enabled(s, Join);
    }
  }

  function Drained(pending: seq<Event>, signed: bool, queue: seq<Item>, yielded: seq<Frame>,
                   transcript: seq<Message>): State {
    State(pending, signed, false, queue, Draining, yielded, transcript)
  }

  /** The agent's side of the queue, for as long as it is ahead of the generator. */
  method RunAgent(t: Turn, ghost before: seq<Message>, pending: seq<Event>, signed: bool, queue: seq<Item>,
                  ghost yielded: seq<Frame>, ahead: nat)
      returns (pending': seq<Event>, signed': bool, queue': seq<Item>)
    requires Invariant(t, before, Drained(pending, signed, queue, yielded, before)) && (queue == [] ==> !signed)
    ensures Invariant(t, before, Drained(pending', signed', queue', yielded, before)) && queue' != []
    ensures Left(Drained(pending', signed', queue', yielded, before))
         <= Left(Drained(pending, signed, queue, yielded, before))
  {
    hide InOrder, Expected, Frames;
    pending', signed', queue' := pending, signed, queue;
    var left := ahead;
    while !signed' && (queue' == [] || left > 0)
      invariant Invariant(t, before, Drained(pending', signed', queue', yielded, before))
      invariant Left(Drained(pending', signed', queue', yielded, before))
             <= Left(Drained(pending, signed, queue, yielded, before))
      invariant queue' == [] ==> !signed'
      decreases |pending'|, !signed'
    {
      left := if left > 0 then left - 1 else 0;
      if pending' != [] {
        EmitKeeps(t, before, Drained(pending', signed', queue', yielded, before));
        queue', pending' := queue' + [Put(pending'[0])], pending'[1..];
      } else {
        SignKeeps(t, before, Drained(pending', signed', queue', yielded, before));
        queue', signed' := queue' + [Sentinel], true;
      }
    }
  }

  /** The generator as it runs: it drains the queue in a loop, while the agent goes on at some pace;
      then it waits for the agent, appends to the transcript, and yields the end. */
  method StreamChat(t: Turn, before: seq<Message>, pace: seq<nat>)
      returns (yielded: seq<Frame>, transcript: seq<Message>)
    ensures yielded == Expected(t) && transcript == Transcript(t, before)
  {
    hide InOrder, Expected, Frames, Items, FirstBad, Transcript;
    var queue: seq<Item>, pending, signed, rounds := [], t.events, false, 0;
    yielded, transcript := [], before;
    RunKeepsInvariant(t, before, []);
    while true
      invariant Invariant(t, before, Drained(pending, signed, queue, yielded, before))
      invariant transcript == before && (queue == [] ==> !signed)
      decreases Left(Drained(pending, signed, queue, yielded, before))
    {
      pending, signed, queue := RunAgent(t, before, pending, signed, queue, yielded,
                                         if rounds < |pace| then pace[rounds] else 0);
      rounds := rounds + 1;
      ghost var s := Drained(pending, signed, queue, yielded, before);
      TakeKeeps(t, before, s);
      SentinelIsLast(t, before, s);
      var item := queue[0];
      queue := queue[1..];
      if item.Sentinel? {
        break;
      }
      if !t.dumps(item.event) {
        yielded := yielded + [Error(t.complaint(item.event))];
        return;
      }
      yielded := yielded + [Data(item.event)];
    }
    JoinKeeps(t, before, State(pending, true, true, [], Awaiting, yielded, before));
    match t.outcome {
      case Failure(message) => yielded := yielded + [Error(message)];
      case Answer(content) =>
        transcript := transcript + [User(t.message), Assistant(content)];
        assert yielded + [] == yielded;
        if content != "" && Token(content) !in t.events {
          yielded := yielded + [Data(Token(content))];
        }
        yielded := yielded + [Done];
    }
  }

  lemma SentinelIsLast(t: Turn, before: seq<Message>, s: State)
    requires Invariant(t, before, s) && s.phase.Draining? && s.queue != []
    ensures s.queue[0].Put? && |s.queue| == 1 ==> !s.signed
    ensures s.queue[0].Sentinel? ==> s.queue[1..] == []
  {
  }

  // ---------------------------------------------------------------- the stored transcript

  /** Questions and answers take turns, and the last question has its answer. */
  predicate Alternates(transcript: seq<Message>) {
    && |transcript| % 2 == 0
    && forall i | 0 <= i < |transcript| :: transcript[i].User? <==> i % 2 == 0
  }

  /** What the two endpoints do with the store: a request loads the transcript; a chat stores it when
      its stream has ended, or never if the client goes away; a correction stores it if it succeeds.
      The store forgets a transcript in time. */
  datatype Access =
    | Load(request: nat)
    | SaveChat(request: nat, turn: Turn)
    | SaveCorrection(request: nat, prompt: string, outcome: Outcome)
    | Leave(request: nat)
    | Expire

  datatype Store = Store(transcript: seq<Message>, loaded: map<nat, seq<Message>>)

  function Handle(s: Store, access: Access): Store {
    match access
    case Load(r) => s.(loaded := s.loaded[r := s.transcript])
    case SaveChat(r, turn) =>
      if r in s.loaded then Store(Transcript(turn, s.loaded[r]), s.loaded - {r}) else s
    case SaveCorrection(r, prompt, outcome) =>
      if r in s.loaded && outcome.Answer?
      then Store(s.loaded[r] + [User(prompt), Assistant(outcome.content)], s.loaded - {r})
      else s.(loaded := s.loaded - {r})
    case Leave(r) => s.(loaded := s.loaded - {r})
    case Expire => s.(transcript := [])
  }

  function Stored(accesses: seq<Access>): Store {
    if accesses == [] then Store([], map[])
    else Handle(Stored(accesses[..|accesses| - 1]), accesses[|accesses| - 1])
  }

  /** However chats and corrections overlap, succeed or fail, every stored transcript alternates. */
  lemma {:induction false} StoredAlternates(accesses: seq<Access>)
    ensures var s := Stored(accesses);
            Alternates(s.transcript) && forall r | r in s.loaded :: Alternates(s.loaded[r])
  {
    if accesses != [] {
      StoredAlternates(accesses[..|accesses| - 1]);
    }
  }

  /** The access is none of the request's. */
  predicate Elsewhere(access: Access, request: nat) {
    match access
    case Load(r) => r != request
    case SaveChat(r, _) => r != request
    case SaveCorrection(r, _, _) => r != request
    case Leave(r) => r != request
    case Expire => true
  }

  lemma StoredNext(accesses: seq<Access>, access: Access)
    ensures Stored(accesses + [access]) == Handle(Stored(accesses), access)
  {
    assert (accesses + [access])[..|accesses|] == accesses;
  }

  lemma {:induction false} StaysLoaded(accesses: seq<Access>, request: nat, between: seq<Access>)
    requires forall access | access in between :: Elsewhere(access, request)
    ensures var s := Stored(accesses + [Load(request)] + between);
            request in s.loaded && s.loaded[request] == Stored(accesses).transcript
    decreases |between|
  {
    var begin := accesses + [Load(request)];
    if between == [] {
      assert begin + between == begin;
      StoredNext(accesses, Load(request));
    } else {
      var front, last := between[..|between| - 1], between[|between| - 1];
      assert between == front + [last] && begin + between == (begin + front) + [last];
      assert last in between && forall access | access in front :: access in between;
      StaysLoaded(accesses, request, front);
      StoredNext(begin + front, last);
    }
  }

  /** What a chat or a correction stores is the transcript that it has loaded, with its own question and
      answer if it succeeds; whatever others have stored meanwhile. A correction that fails stores nothing. */
  lemma StoresItsTurn(accesses: seq<Access>, request: nat, between: seq<Access>, turn: Turn)
    requires forall access | access in between :: Elsewhere(access, request)
    ensures var before, begin := Stored(accesses).transcript, accesses + [Load(request)] + between;
            var pair := if turn.outcome.Answer? then [User(turn.message), Assistant(turn.outcome.content)] else [];
            && Stored(begin + [SaveChat(request, turn)]).transcript == before + (if Succeeds(turn) then pair else [])
            && Stored(begin + [SaveCorrection(request, turn.message, turn.outcome)]).transcript
               == if turn.outcome.Answer? then before + pair else Stored(begin).transcript
  {
    var begin := accesses + [Load(request)] + between;
    StaysLoaded(accesses, request, between);
    StoredNext(begin, SaveChat(request, turn));
    StoredNext(begin, SaveCorrection(request, turn.message, turn.outcome));
  }
}
