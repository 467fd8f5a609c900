/** The events of a background scan, whatever the calls that it waits for come to. Models
    _run_scan_background and _follow_active_scan in src/jenkins_watchdog/api/router.py. */
module ScanStream {
  import opened Sequences
  import opened Ordering

  datatype Event =
    | ScanStarted
    | DetectionComplete
    | TriageStart
    | TriageComplete
    | TriageSkipped
    | InvestigationPlan(count: nat)
    | InvestigationStart(index: nat, total: nat)
    | Progress
    | InvestigationComplete
    | InvestigationError
    | ScanComplete
    | ScanStopped
    | ScanError
    | Closed  // the None that ends the queue

  /** What a call comes to: a value (for an investigation, possibly none), an exception, or the
      cancellation of the scan. An answer that the scan is cancelled counts as the latter. */
  datatype Outcome = Value | NoValue | Raise | Cancel

  /** A call's outcome, and how many progress events an investigation emits meanwhile. */
  datatype Reply = Reply(outcome: Outcome, progress: nat)

  datatype Ending = Returned | Raised | Cancelled

  /** The request, and how many findings there are, are dismissed by triage, and are planned. */
  datatype Inputs = Inputs(investigateAll: bool, deep: bool, findings: nat, dismissed: nat, planned: nat)

  // ---------------------------------------------------------------- what a stream looks like

  predicate IsTerminal(e: Event) {
    e.ScanComplete? || e.ScanStopped? || e.ScanError?
  }

  function IsStart(): Event -> bool {
    (e: Event) => e.InvestigationStart?
  }

  function Numbered(n: nat, total: nat): (starts: seq<Event>)
    ensures |starts| == n && forall i | 0 <= i < n :: starts[i] == InvestigationStart(i + 1, total)
  {
    seq(n, (i: nat) => InvestigationStart(i + 1, total))
  }

  /** What a scan says before it ends: that it has started comes first, and only there; the
      investigations' starts are numbered from 1 to n, of a fixed total. */
  predicate Opening(events: seq<Event>, n: nat, total: nat) {
    && (forall k | 0 <= k < |events| :: events[k].ScanStarted? <==> k == 0)
    && (forall k | 0 <= k < |events| :: !IsTerminal(events[k]) && !events[k].Closed?)
    && Select(events, IsStart()) == Numbered(n, total)
  }

  function TerminalOf(ending: Ending): Event {
    match ending
    case Returned => ScanComplete
    case Cancelled => ScanStopped
    case Raised => ScanError
  }

  /** A whole stream: the opening, one terminal event for how the scan ended, and, if the clean-up got
      that far, the end of the queue. */
  predicate Told(events: seq<Event>, n: nat, total: nat, ending: Ending, closed: bool) {
    var tail := [TerminalOf(ending)] + if closed then [Closed] else [];
    && |events| >= |tail|
    && events[|events| - |tail|..] == tail
    && Opening(events[..|events| - |tail|], n, total)
    && n <= total && (ending.Returned? ==> n == total)
  }

  lemma StartsAfter(events: seq<Event>, e: Event)
    ensures Select(events + [e], IsStart())
         == if e.InvestigationStart? then Select(events, IsStart()) + [e] else Select(events, IsStart())
  {
    SelectJoin(events, [e], IsStart());
    assert [e][1..] == [];
    assert Select(events, IsStart()) + [] == Select(events, IsStart());
  }

  lemma OpeningGoesOn(events: seq<Event>, e: Event, n: nat, total: nat)
    requires Opening(events, n, total) && !IsTerminal(e) && !e.Closed?
    requires e.ScanStarted? <==> events == []
    requires e.InvestigationStart? ==> e == InvestigationStart(n + 1, total)
    ensures Opening(events + [e], if e.InvestigationStart? then n + 1 else n, total)
  {
    hide Select, Numbered;
    StartsAfter(events, e);
    NumberedNext(n, total);
  }

  lemma NumberedNext(n: nat, total: nat)
    ensures Numbered(n + 1, total) == Numbered(n, total) + [InvestigationStart(n + 1, total)]
  {
  }

  lemma NothingSaid(total: nat)
    ensures Opening([], 0, total)
  {
  }

  /** Before any investigation, the total can still be any. */
  lemma TotalIsOpen(events: seq<Event>, total: nat, total': nat)
    requires Opening(events, 0, total)
    ensures Opening(events, 0, total')
  {
  }

  /** What a client reads: up to the end of the queue. */
  function Follow(events: seq<Event>): seq<Event> {
    if events == [] || events[0].Closed? then [] else [events[0]] + Follow(events[1..])
  }

  lemma {:induction false} FollowAll(events: seq<Event>, rest: seq<Event>)
    requires forall k | 0 <= k < |events| :: !events[k].Closed?
    ensures Follow(events + [Closed] + rest) == events
  {
    if events == [] {
      assert [] + [Closed] + rest == [Closed] + rest;
    } else {
      FollowAll(events[1..], rest);
      assert (events + [Closed] + rest)[1..] == events[1..] + [Closed] + rest;
    }
  }

  /** There is something to be read of a closed stream up to its end, and the last event of it is the only
      one that says how the scan ended. */
  lemma FollowReadsAll(events: seq<Event>, n: nat, total: nat, ending: Ending)
    requires Told(events, n, total, ending, true)
    ensures var read := Follow(events);
            && read != [] && events == read + [Closed]
            && read[|read| - 1] == TerminalOf(ending)
            && forall k | 0 <= k < |read| - 1 :: !IsTerminal(read[k])
  {
    var front := events[..|events| - 2];
    var read := front + [TerminalOf(ending)];
    assert events == front + events[|events| - 2..];
    assert events == read + [Closed] + [];
    FollowAll(read, []);
  }

  // ---------------------------------------------------------------- several clients of one queue

  /** Each client that follows the scan takes items from the same queue: `takers` are the clients that have
      taken the items so far, in the order of the queue. A client that has taken the end takes no more. */
  predicate Dequeued(events: seq<Event>, takers: seq<nat>) {
    && |takers| <= |events|
    && forall i, j | 0 <= i < j < |takers| && events[i].Closed? :: takers[i] != takers[j]
  }

  /** What a client has read of the first n items. */
  function ReadBy(events: seq<Event>, takers: seq<nat>, client: nat, n: nat): seq<Event>
    requires n <= |takers| <= |events|
  {
    if n == 0 then []
    else
      var before := ReadBy(events, takers, client, n - 1);
      if takers[n - 1] == client && !events[n - 1].Closed? then before + [events[n - 1]] else before
  }

  /** The client's own stream has ended. Until then it is told that the connection is alive, for ever if
      need be. */
  predicate EndsFor(events: seq<Event>, takers: seq<nat>, client: nat)
    requires |takers| <= |events|
  {
    exists i | 0 <= i < |takers| :: takers[i] == client && events[i].Closed?
  }

  /** The positions of the items that a client has taken. */
  function TakenBy(takers: seq<nat>, client: nat, n: nat): (picks: seq<nat>)
    requires n <= |takers|
    ensures forall k | 0 <= k < |picks| :: picks[k] < n
    ensures forall k, l | 0 <= k < l < |picks| :: picks[k] < picks[l]
  {
    if n == 0 then []
    else if takers[n - 1] == client then TakenBy(takers, client, n - 1) + [n - 1]
    else TakenBy(takers, client, n - 1)
  }

  function IsItem(): Event -> bool {
    (e: Event) => !e.Closed?
  }

  lemma SelectOneMore(events: seq<Event>, picks: seq<nat>, k: nat)
    requires k < |events| && forall i | 0 <= i < |picks| :: picks[i] < |events|
    ensures Select(Pick(events, picks + [k]), IsItem())
         == Select(Pick(events, picks), IsItem()) + if events[k].Closed? then [] else [events[k]]
  {
    assert Pick(events, picks + [k]) == Pick(events, picks) + [events[k]];
    SelectJoin(Pick(events, picks), [events[k]], IsItem());
    assert [events[k]][1..] == [];
  }

  /** A client reads what it has taken, in order, but for the end. */
  lemma {:induction false} ReadsWhatItTook(events: seq<Event>, takers: seq<nat>, client: nat, n: nat)
    requires n <= |takers| <= |events|
    ensures ReadBy(events, takers, client, n) == Select(Pick(events, TakenBy(takers, client, n)), IsItem())
    ensures forall i | 0 <= i < n :: i in TakenBy(takers, client, n) <==> takers[i] == client
  {
    hide Select, Pick, IsItem;
    if n == 0 {
      SelectNone(Pick(events, []), IsItem());
    } else {
      ReadsWhatItTook(events, takers, client, n - 1);
      if takers[n - 1] == client {
        SelectOneMore(events, TakenBy(takers, client, n - 1), n - 1);
      }
    }
  }

  /** All that the clients below a number have read, with repetition. */
  ghost function AllRead(events: seq<Event>, takers: seq<nat>, clients: nat, n: nat): multiset<Event>
    requires n <= |takers| <= |events|
  {
    if clients == 0 then multiset{}
    else AllRead(events, takers, clients - 1, n) + multiset(ReadBy(events, takers, clients - 1, n))
  }

  lemma ReadNext(events: seq<Event>, takers: seq<nat>, client: nat, n: nat)
    requires n < |takers| <= |events|
    ensures ReadBy(events, takers, client, n + 1)
         == ReadBy(events, takers, client, n) + if takers[n] == client && !events[n].Closed? then [events[n]] else []
  {
  }

  /** One more item is read by its taker, and by nobody else. */
  lemma {:induction false} AllReadNext(events: seq<Event>, takers: seq<nat>, clients: nat, n: nat)
    requires n < |takers| <= |events|
    ensures AllRead(events, takers, clients, n + 1)
         == AllRead(events, takers, clients, n)
            + if takers[n] < clients && !events[n].Closed? then multiset{events[n]} else multiset{}
  {
    hide ReadBy;
    if clients > 0 {
      var c := clients - 1;
      AllReadNext(events, takers, c, n);
      ReadNext(events, takers, c, n);
      var taken := if takers[n] == c && !events[n].Closed? then [events[n]] else [];
      assert multiset(ReadBy(events, takers, c, n) + taken) == multiset(ReadBy(events, takers, c, n)) + multiset(taken);
    }
  }

  lemma ItemsNext(events: seq<Event>, n: nat)
    requires n < |events|
    ensures Select(events[..n + 1], IsItem())
         == Select(events[..n], IsItem()) + if events[n].Closed? then [] else [events[n]]
  {
    assert events[..n + 1] == events[..n] + [events[n]];
    SelectJoin(events[..n], [events[n]], IsItem());
    assert [events[n]][1..] == [];
  }

  /** Together, the clients read every event that has been taken, and each of them once. */
  lemma {:induction false} EveryItemIsTakenOnce(events: seq<Event>, takers: seq<nat>, clients: nat, n: nat)
    requires n <= |takers| <= |events| && forall i | 0 <= i < n :: takers[i] < clients
    ensures AllRead(events, takers, clients, n) == multiset(Select(events[..n], IsItem()))
  {
    hide AllRead, Select, IsItem;
    if n > 0 {
      EveryItemIsTakenOnce(events, takers, clients, n - 1);
      AllReadNext(events, takers, clients, n - 1);
      ItemsNext(events, n - 1);
      var e, before := events[n - 1], Select(events[..n - 1], IsItem());
      assert multiset(before + [e]) == multiset(before) + multiset{e};
    } else {
      NothingRead(events, takers, clients);
      SelectNone(events[..0], IsItem());
    }
  }

  lemma {:induction false} NothingRead(events: seq<Event>, takers: seq<nat>, clients: nat)
    requires |takers| <= |events|
    ensures AllRead(events, takers, clients, 0) == multiset{}
  {
    if clients > 0 {
      NothingRead(events, takers, clients - 1);
    }
  }

  /** A client that has come to its end has read what it took before, and takes no more. */
  lemma {:induction false} EndIsLast(events: seq<Event>, takers: seq<nat>, i: nat, n: nat)
    requires Dequeued(events, takers) && i < n <= |takers| && events[i].Closed?
    ensures ReadBy(events, takers, takers[i], n) == ReadBy(events, takers, takers[i], i)
  {
    if i < n - 1 {
      EndIsLast(events, takers, i, n - 1);
    }
  }

  /** The clients' loops, in the order in which the queue serves them. */
  method FollowActiveScan(events: seq<Event>, takers: seq<nat>) returns (read: map<nat, seq<Event>>, ended: set<nat>)
    requires Dequeued(events, takers)
    ensures forall c: nat :: (if c in read then read[c] else []) == ReadBy(events, takers, c, |takers|)
    ensures forall c: nat :: c in ended <==> EndsFor(events, takers, c)
  {
    read, ended := map[], {};
    for i := 0 to |takers|
      invariant forall c: nat :: (if c in read then read[c] else []) == ReadBy(events, takers, c, i)
      invariant forall c: nat :: c in ended <==> exists k | 0 <= k < i :: takers[k] == c && events[k].Closed?
    {
      var client := takers[i];
      if events[i].Closed? {
        ended := ended + {client};
      } else {
        read := read[client := (if client in read then read[client] else []) + [events[i]]];
      }
    }
  }

  lemma {:induction false} ReadCount(events: seq<Event>, takers: seq<nat>, client: nat, n: nat)
    requires n <= |takers| <= |events| && forall k | 0 <= k < n :: !events[k].Closed?
    ensures |ReadBy(events, takers, client, n)| <= n
    ensures |ReadBy(events, takers, client, n)| == n <==> forall k | 0 <= k < n :: takers[k] == client
    ensures |ReadBy(events, takers, client, n)| == n ==> ReadBy(events, takers, client, n) == events[..n]
  {
    if n > 0 {
      ReadCount(events, takers, client, n - 1);
      assert events[..n] == events[..n - 1] + [events[n - 1]];
    }
  }

  /** A client reads the whole of a closed stream, and comes to its end, exactly if it takes every item. */
  lemma ReadsAllExactly(events: seq<Event>, takers: seq<nat>, client: nat)
    requires events != [] && events[|events| - 1].Closed? && |takers| <= |events|
    requires forall k | 0 <= k < |events| - 1 :: !events[k].Closed?
    ensures ReadBy(events, takers, client, |takers|) == Follow(events) && EndsFor(events, takers, client)
            <==> |takers| == |events| && forall k | 0 <= k < |takers| :: takers[k] == client
  {
    var last := |events| - 1;
    assert events == events[..last] + [Closed] + [];
    FollowAll(events[..last], []);
    if |takers| == |events| {
      ReadCount(events, takers, client, last);
    } else {
      ReadCount(events, takers, client, |takers|);
    }
  }

  /** At most one client's stream ends; and none, if the queue is never closed. */
  lemma OneStreamEnds(events: seq<Event>, takers: seq<nat>, n: nat, total: nat, ending: Ending, closed: bool,
                      c: nat, d: nat)
    requires Told(events, n, total, ending, closed) && |takers| <= |events|
    requires EndsFor(events, takers, c) && EndsFor(events, takers, d)
    ensures closed && c == d
  {
    var i :| 0 <= i < |takers| && takers[i] == c && events[i].Closed?;
    var j :| 0 <= j < |takers| && takers[j] == d && events[j].Closed?;
    ClosedIsLast(events, n, total, ending, closed, i);
    ClosedIsLast(events, n, total, ending, closed, j);
  }

  lemma ClosedIsLast(events: seq<Event>, n: nat, total: nat, ending: Ending, closed: bool, k: nat)
    requires Told(events, n, total, ending, closed) && k < |events|
    ensures events[k].Closed? ==> closed && k == |events| - 1
  {
    var tail := [TerminalOf(ending)] + if closed then [Closed] else [];
    var front := events[..|events| - |tail|];
    assert k < |front| ==> events[k] == front[k];
    assert k >= |front| ==> events[k] == tail[k - |front|];
  }

  /** For example: of two clients of one scan, the first reads that it has started and never comes to an
      end, and the second only that it is complete. */
  lemma TwoClients()
    ensures var events, takers := [ScanStarted, ScanComplete, Closed], [0, 1, 1];
            && Dequeued(events, takers)
            && ReadBy(events, takers, 0, 3) == [ScanStarted] && !EndsFor(events, takers, 0)
            && ReadBy(events, takers, 1, 3) == [ScanComplete] && EndsFor(events, takers, 1)
  {
    var events, takers: seq<nat> := [ScanStarted, ScanComplete, Closed], [0, 1, 1];
    assert ReadBy(events, takers, 0, 1) == [ScanStarted] && ReadBy(events, takers, 1, 1) == [];
    assert ReadBy(events, takers, 0, 2) == [ScanStarted] && ReadBy(events, takers, 1, 2) == [ScanComplete];
    assert takers[2] == 1 && events[2].Closed?;
  }

  // ---------------------------------------------------------------- what the calls make of a scan

  predicate Fails(outcome: Outcome) {
    outcome.Raise? || outcome.Cancel?
  }

  /** What the k-th call comes to: what is not in the script, succeeds. */
  function ReplyAt(script: seq<Reply>, k: nat): Reply {
    if k < |script| then script[k] else Reply(Value, 0)
  }

  function OutcomeAt(script: seq<Reply>, k: nat): Outcome {
    ReplyAt(script, k).outcome
  }

  /** After that many calls, the scan ends as it hears: cancelled exactly when a call was, the last one; by an
      exception only if the last call raised one. */
  predicate EndsAs(ending: Ending, script: seq<Reply>, calls: nat) {
    && (ending.Cancelled? <==> exists k | 0 <= k < calls :: OutcomeAt(script, k).Cancel?)
    && (ending.Cancelled? ==> calls > 0 && OutcomeAt(script, calls - 1).Cancel?)
    && (ending.Raised? ==> calls > 0 && OutcomeAt(script, calls - 1).Raise?)
  }

  /** What is said between the start and the plan. */
  function DetectionEvents(inputs: Inputs): seq<Event> {
    [DetectionComplete] +
    if inputs.findings > 0 && !inputs.investigateAll && !inputs.deep then [TriageStart, TriageComplete]
    else if inputs.findings > 0 && inputs.deep then [TriageSkipped]
    else []
  }

  function DetectionCalls(inputs: Inputs): nat {
    if inputs.findings > 0 && !inputs.investigateAll && !inputs.deep then 5 + inputs.dismissed else 4
  }

  /** What is said before the first investigation. */
  function Preface(inputs: Inputs): seq<Event> {
    [ScanStarted] + DetectionEvents(inputs) + [InvestigationPlan(inputs.planned)]
  }

  /** The calls before the first investigation: the options, the detection, and what is stored. */
  function PrefaceCalls(inputs: Inputs): nat {
    1 + DetectionCalls(inputs) + 2
  }

  /** How an investigation ends. */
  datatype Result = Completed | Empty | Failed | Cut

  /** The result of an investigation that is the k-th call: one with a value also has to refresh the lock. */
  function ResultAt(script: seq<Reply>, k: nat): Result {
    match OutcomeAt(script, k)
    case NoValue => Empty
    case Raise => Failed
    case Cancel => Cut
    case Value =>
      match OutcomeAt(script, k + 1)
      case Raise => Failed
      case Cancel => Cut
      case _ => Completed
  }

  function CallsAt(script: seq<Reply>, k: nat): nat {
    if OutcomeAt(script, k).Value? then 2 else 1
  }

  function Progresses(n: nat): (events: seq<Event>)
    ensures |events| == n && forall i | 0 <= i < n :: events[i] == Progress
  {
    seq(n, _ => Progress)
  }

  /** What an investigation says after its start: its progress, and how it has ended, if it has a result. */
  function SaidAt(script: seq<Reply>, k: nat): seq<Event> {
    Progresses(ReplyAt(script, k).progress) +
    match ResultAt(script, k)
    case Completed => [InvestigationComplete]
    case Failed => [InvestigationError]
    case _ => []
  }

  /** What investigations say that are these calls, each after its start. */
  function AllSaid(script: seq<Reply>, at: seq<nat>, total: nat): seq<Event> {
    if at == [] then []
    else AllSaid(script, at[..|at| - 1], total) + [InvestigationStart(|at|, total)] + SaidAt(script, at[|at| - 1])
  }

  /** The call after the last of the investigations, where c is the one before the first. */
  function Behind(script: seq<Reply>, c: nat, at: seq<nat>): nat {
    if at == [] then c else at[|at| - 1] + CallsAt(script, at[|at| - 1])
  }

  /** The investigations follow each other. Before each the scan is not cancelled and the lock refreshed, and
      each but the last goes on, also after an exception. */
  predicate FollowEachOther(script: seq<Reply>, c: nat, at: seq<nat>) {
    forall i | 0 <= i < |at| ::
      && at[i] == Behind(script, c, at[..i]) + 2
      && !Fails(OutcomeAt(script, at[i] - 2)) && !Fails(OutcomeAt(script, at[i] - 1))
      && (i < |at| - 1 ==> !ResultAt(script, at[i]).Cut?)
  }

  predicate NoneCut(script: seq<Reply>, at: seq<nat>) {
    forall i | 0 <= i < |at| :: !ResultAt(script, at[i]).Cut?
  }

  lemma OneMore(script: seq<Reply>, c: nat, at: seq<nat>, total: nat)
    requires FollowEachOther(script, c, at) && NoneCut(script, at)
    requires !Fails(OutcomeAt(script, Behind(script, c, at))) && !Fails(OutcomeAt(script, Behind(script, c, at) + 1))
    ensures var k := Behind(script, c, at) + 2;
            && FollowEachOther(script, c, at + [k])
            && Behind(script, c, at + [k]) == k + CallsAt(script, k)
            && AllSaid(script, at + [k], total)
               == AllSaid(script, at, total) + [InvestigationStart(|at| + 1, total)] + SaidAt(script, k)
            && (NoneCut(script, at + [k]) <==> !ResultAt(script, k).Cut?)
  {
    hide ResultAt, CallsAt, SaidAt, OutcomeAt;
    var more := at + [Behind(script, c, at) + 2];
    assert more[..|at|] == at;
    forall i | 0 <= i < |at|
      ensures more[i] == Behind(script, c, more[..i]) + 2
    {
      assert more[..i] == at[..i];
    }
    if !ResultAt(script, more[|at|]).Cut? {
      assert NoneCut(script, more);
    } else {
      assert more[|at|] == Behind(script, c, at) + 2;
    }
  }

  /** A scan has said this before it says how it has ended: some of what comes before the investigations, or
      all of it, and then what these say. */
  predicate Says(front: seq<Event>, inputs: Inputs, script: seq<Reply>, at: seq<nat>) {
    || (at == [] && front <= Preface(inputs))
    || (front == Preface(inputs) + AllSaid(script, at, inputs.planned)
        && FollowEachOther(script, PrefaceCalls(inputs), at))
  }

  /** It has said all, with that many calls: none failed but those that cost one investigation. */
  predicate SaysAll(front: seq<Event>, inputs: Inputs, script: seq<Reply>, at: seq<nat>, calls: nat) {
    && front == Preface(inputs) + AllSaid(script, at, inputs.planned)
    && FollowEachOther(script, PrefaceCalls(inputs), at) && NoneCut(script, at) && |at| == inputs.planned
    && calls == Behind(script, PrefaceCalls(inputs), at) + 2
    && !Fails(OutcomeAt(script, calls - 2)) && !Fails(OutcomeAt(script, calls - 1))
    && forall k | 0 <= k < PrefaceCalls(inputs) :: !Fails(OutcomeAt(script, k))
  }

  function IsResult(result: Event): Event -> bool {
    e => e == result
  }

  function HasResult(script: seq<Reply>, result: Result): nat -> bool {
    (k: nat) => ResultAt(script, k) == result
  }

  /** Each completed investigation is told so once, each failed one is told of once, and nothing else is. */
  lemma {:induction false} ResultsAreTold(script: seq<Reply>, at: seq<nat>, total: nat)
    ensures |Select(AllSaid(script, at, total), IsResult(InvestigationComplete))| == |Select(at, HasResult(script, Completed))|
    ensures |Select(AllSaid(script, at, total), IsResult(InvestigationError))| == |Select(at, HasResult(script, Failed))|
  {
    hide Select, ResultAt;
    if at == [] {
      SelectNone(AllSaid(script, at, total), IsResult(InvestigationComplete));
      SelectNone(AllSaid(script, at, total), IsResult(InvestigationError));
      SelectNone(at, HasResult(script, Completed));
      SelectNone(at, HasResult(script, Failed));
    } else {
      var front, k := at[..|at| - 1], at[|at| - 1];
      assert at == front + [k];
      ResultsAreTold(script, front, total);
      ResultTold(script, front, k, total, InvestigationComplete, Completed);
      ResultTold(script, front, k, total, InvestigationError, Failed);
    }
  }

  lemma ResultTold(script: seq<Reply>, front: seq<nat>, k: nat, total: nat, told: Event, result: Result)
    requires (told, result) == (InvestigationComplete, Completed) || (told, result) == (InvestigationError, Failed)
    ensures |Select(AllSaid(script, front + [k], total), IsResult(told))|
         == |Select(AllSaid(script, front, total), IsResult(told))| + if ResultAt(script, k) == result then 1 else 0
    ensures |Select(front + [k], HasResult(script, result))|
         == |Select(front, HasResult(script, result))| + if ResultAt(script, k) == result then 1 else 0
  {
    hide Select, ResultAt, AllSaid;
    var before := AllSaid(script, front, total);
    var start := InvestigationStart(|front| + 1, total);
    var progress := Progresses(ReplyAt(script, k).progress);
    var closing := SaidAt(script, k)[|progress|..];
    assert SaidAt(script, k) == progress + closing;
    AllSaidNext(script, front, k, total);
    SelectJoin(before + [start], SaidAt(script, k), IsResult(told));
    SelectJoin(before, [start], IsResult(told));
    SelectJoin(progress, closing, IsResult(told));
    SelectNone([start], IsResult(told));
    SelectNone(progress, IsResult(told));
    SelectOne(closing, IsResult(told));
    SelectJoin(front, [k], HasResult(script, result));
    SelectOne([k], HasResult(script, result));
  }

  lemma AllSaidNext(script: seq<Reply>, front: seq<nat>, k: nat, total: nat)
    ensures AllSaid(script, front + [k], total)
         == AllSaid(script, front, total) + [InvestigationStart(|front| + 1, total)] + SaidAt(script, k)
  {
    assert (front + [k])[..|front|] == front;
  }

  lemma SelectOne<T>(s: seq<T>, p: T -> bool)
    requires |s| <= 1
    ensures Select(s, p) == if s != [] && p(s[0]) then s else []
  {
  }

  lemma {:induction false} SelectsAddUp(script: seq<Reply>, at: seq<nat>)
    requires NoneCut(script, at)
    ensures |Select(at, HasResult(script, Completed))| + |Select(at, HasResult(script, Failed))|
            + |Select(at, HasResult(script, Empty))| == |at|
  {
    hide ResultAt;
    if at != [] {
      assert forall i | 0 <= i < |at[1..]| :: at[1..][i] == at[i + 1];
      SelectsAddUp(script, at[1..]);
    }
  }

  /** Of a complete scan, the investigations told as completed, those told as failed, and those without a
      result add up to the plan. */
  lemma InvestigationsAddUp(front: seq<Event>, inputs: Inputs, script: seq<Reply>, at: seq<nat>, calls: nat)
    requires SaysAll(front, inputs, script, at, calls)
    ensures |Select(front, IsResult(InvestigationComplete))| + |Select(front, IsResult(InvestigationError))|
            + |Select(at, HasResult(script, Empty))| == inputs.planned
  {
    hide Select, ResultAt, AllSaid, FollowEachOther;
    var said := AllSaid(script, at, inputs.planned);
    ResultsAreTold(script, at, inputs.planned);
    SelectsAddUp(script, at);
    SelectJoin(Preface(inputs), said, IsResult(InvestigationComplete));
    SelectJoin(Preface(inputs), said, IsResult(InvestigationError));
    SelectNone(Preface(inputs), IsResult(InvestigationComplete));
    SelectNone(Preface(inputs), IsResult(InvestigationError));
  }

  // ---------------------------------------------------------------- the scan

  class Scan {
    /** What the calls come to, and how many there have been; the queue, and what has come of the scan. */
    const script: seq<Reply>
    var calls: nat
    var events: seq<Event>
    var locked: bool
    var runStored: bool
    var investigationsStored: bool

    constructor (script: seq<Reply>)
      ensures this.script == script && calls == 0 && events == []
      ensures locked && !runStored && !investigationsStored
    {
      this.script, calls, events := script, 0, [];
      locked, runStored, investigationsStored := true, false, false;
    }

    method Await() returns (reply: Reply)
      modifies this`calls
      ensures reply == ReplyAt(script, old(calls)) && calls == old(calls) + 1
    {
      reply := if calls < |script| then script[calls] else Reply(Value, 0);
      calls := calls + 1;
    }

    /** Waiting for one call. */
    method Call() returns (ending: Ending)
      modifies this`calls
      ensures calls == old(calls) + 1
      ensures ending.Returned? <==> !Fails(OutcomeAt(script, old(calls)))
      ensures ending.Cancelled? <==> OutcomeAt(script, old(calls)).Cancel?
      ensures EndsAs(Returned, script, old(calls)) ==> EndsAs(ending, script, calls)
    {
      var reply := Await();
      ending := match reply.outcome case Raise => Raised case Cancel => Cancelled case _ => Returned;
    }

    /** Waiting for calls, one after the other, until one fails. */
    method Calls(n: nat) returns (ending: Ending)
      requires EndsAs(Returned, script, calls)
      modifies this`calls
      ensures EndsAs(ending, script, calls) && old(calls) <= calls <= old(calls) + n
      ensures ending.Returned? <==> forall k | old(calls) <= k < calls :: !Fails(OutcomeAt(script, k))
      ensures ending.Returned? ==> calls == old(calls) + n
    {
      hide Fails, EndsAs, OutcomeAt;
      ending := Returned;
      for i := 0 to n
        invariant calls == old(calls) + i && EndsAs(Returned, script, calls)
        invariant ending.Returned? && forall k | old(calls) <= k < calls :: !Fails(OutcomeAt(script, k))
      {
        ending := Call();
        if !ending.Returned? { return; }
      }
    }

    method Put(e: Event, ghost n: nat, ghost total: nat)
      requires Opening(events, n, total) && !IsTerminal(e) && !e.Closed?
      requires e.ScanStarted? <==> events == []
      requires e.InvestigationStart? ==> e == InvestigationStart(n + 1, total)
      modifies this`events
      ensures events == old(events) + [e]
      ensures Opening(events, if e.InvestigationStart? then n + 1 else n, total)
    {
      OpeningGoesOn(events, e, n, total);
      events := events + [e];
    }

    /** From the checks up to and including triage. */
    method Detect(inputs: Inputs) returns (ending: Ending)
      requires Opening(events, 0, 0) && events != [] && EndsAs(Returned, script, calls)
      modifies this`calls, this`events
      ensures Opening(events, 0, 0) && events != [] && EndsAs(ending, script, calls)
      ensures old(calls) <= calls <= old(calls) + DetectionCalls(inputs)
      ensures old(events) <= events <= old(events) + DetectionEvents(inputs)
      ensures ending.Returned? <==> forall k | old(calls) <= k < calls :: !Fails(OutcomeAt(script, k))
      ensures ending.Returned? ==>
                events == old(events) + DetectionEvents(inputs) && calls == old(calls) + DetectionCalls(inputs)
    {
      hide Opening, Fails, EndsAs, OutcomeAt;
      ending := Call();  // the checks
      if !ending.Returned? { return; }
      ending := Call();  // the dismissed fingerprints
      if !ending.Returned? { return; }
      Put(DetectionComplete, 0, 0);
      ending := Call();  // deduplication and correlation, which may raise
      if !ending.Returned? { return; }
      ending := Call();  // the cluster's context
      if !ending.Returned? { return; }
      if inputs.findings > 0 && !inputs.investigateAll && !inputs.deep {
        Put(TriageStart, 0, 0);
        ending := Call();
        if !ending.Returned? { return; }
        ending := Calls(inputs.dismissed);  // each dismissal
        if !ending.Returned? { return; }
        Put(TriageComplete, 0, 0);
      } else if inputs.findings > 0 && inputs.deep {
        Put(TriageSkipped, 0, 0);
      }
    }

    /** The inner try statement: an exception costs this investigation, a cancellation the scan. */
    method Investigate(ghost n: nat, ghost total: nat) returns (ending: Ending)
      requires Opening(events, n, total) && events != [] && EndsAs(Returned, script, calls)
      modifies this`calls, this`events
      ensures Opening(events, n, total) && events != []
      ensures events == old(events) + SaidAt(script, old(calls))
      ensures calls == old(calls) + CallsAt(script, old(calls))
      ensures ending == if ResultAt(script, old(calls)).Cut? then Cancelled else Returned
      ensures EndsAs(ending, script, calls)
    {
      hide Opening;
      var reply := Await();
      for i := 0 to reply.progress
        invariant Opening(events, n, total) && events == old(events) + Progresses(i) && calls == old(calls) + 1
      {
        Put(Progress, n, total);
      }
      assert Progresses(reply.progress) + [] == Progresses(reply.progress);
      match reply.outcome {
        case Cancel => return Cancelled;
        case NoValue => return Returned;
        case Raise => ending := Raised;
        case Value =>
          ending := Call();  // refreshing the lock
          if ending.Returned? {
            Put(InvestigationComplete, n, total);
          }
      }
      if ending.Raised? {
        Put(InvestigationError, n, total);
        ending := Returned;
      }
    }

    method InvestigateAll(total: nat) returns (ending: Ending, ghost at: seq<nat>)
      requires Opening(events, 0, total) && events != [] && EndsAs(Returned, script, calls)
      modifies this`calls, this`events
      ensures |at| <= total && Opening(events, |at|, total) && events != [] && EndsAs(ending, script, calls)
      ensures events == old(events) + AllSaid(script, at, total) && FollowEachOther(script, old(calls), at)
      ensures calls <= Behind(script, old(calls), at) + 2
      ensures ending.Returned? ==>
                |at| == total && NoneCut(script, at) && calls == Behind(script, old(calls), at)
      ensures !ending.Returned? && |at| == total ==> calls == Behind(script, old(calls), at)
    {
      hide Opening, EndsAs, Fails, OutcomeAt, SaidAt, ResultAt, CallsAt, FollowEachOther, NoneCut, Behind, AllSaid;
      ending, at := Returned, [];
      NoInvestigations(script, calls, total);
      for index := 0 to total
        invariant |at| == index && Opening(events, index, total) && events != []
        invariant ending.Returned? && EndsAs(Returned, script, calls)
        invariant events == old(events) + AllSaid(script, at, total)
        invariant FollowEachOther(script, old(calls), at) && NoneCut(script, at)
        invariant calls == Behind(script, old(calls), at)
      {
        ghost var said := events;
        ending := Call();  // whether the scan is cancelled
        if !ending.Returned? { return; }
        ending := Call();  // refreshing the lock
        if !ending.Returned? { return; }
        OneMore(script, old(calls), at, total);
        at := at + [calls];
        Put(InvestigationStart(index + 1, total), index, total);
        ending := Investigate(index + 1, total);
        Associative(old(events), AllSaid(script, at[..index], total), [InvestigationStart(index + 1, total)]);
        Associative(old(events), AllSaid(script, at[..index], total) + [InvestigationStart(index + 1, total)],
                    SaidAt(script, at[index]));
        if !ending.Returned? { return; }
      }
    }

    /** The body of the try statement. It says that the scan is complete after both stores, and then
        nothing more. */
    method Body(inputs: Inputs) returns (ending: Ending, ghost at: seq<nat>)
      requires events == [] && calls == 0 && !runStored && !investigationsStored
      modifies this`calls, this`events, this`runStored, this`investigationsStored
      ensures EndsAs(ending, script, calls) && |at| <= inputs.planned
      ensures ending.Returned? ==>
                && |at| == inputs.planned && events != [] && events[|events| - 1] == ScanComplete
                && Opening(events[..|events| - 1], |at|, inputs.planned)
                && SaysAll(events[..|events| - 1], inputs, script, at, calls)
      ensures !ending.Returned? ==> Opening(events, |at|, inputs.planned) && Says(events, inputs, script, at)
      ensures investigationsStored <==> ending.Returned?
      ensures runStored <==>
                && |at| == inputs.planned && Behind(script, PrefaceCalls(inputs), at) < calls
                && !Fails(OutcomeAt(script, Behind(script, PrefaceCalls(inputs), at)))
    {
      hide Opening, EndsAs, Fails, OutcomeAt, FollowEachOther, NoneCut, Behind, AllSaid, DetectionEvents, DetectionCalls;
      at := [];
      NothingSaid(0);
      NothingSaid(inputs.planned);
      NoInvestigations(script, PrefaceCalls(inputs), inputs.planned);
      NoCalls(script);
      ending := Call();  // the scan's options, which may raise
      if !ending.Returned? { return; }
      Put(ScanStarted, 0, 0);
      ending := Detect(inputs);
      TotalIsOpen(events, 0, inputs.planned);
      if !ending.Returned? { return; }
      ending := Call();  // the previous findings
      if !ending.Returned? { return; }
      ending := Call();  // the stored investigations
      if !ending.Returned? { return; }
      Put(InvestigationPlan(inputs.planned), 0, inputs.planned);
      ending, at := InvestigateAll(inputs.planned);
      if !ending.Returned? { return; }
      ending := Call();
      if !ending.Returned? { return; }
      runStored := true;
      ending := Call();
      if !ending.Returned? { return; }
      investigationsStored := true;
      ghost var said := events;
      events := events + [ScanComplete];
      assert events[..|events| - 1] == said;
    }

    /** The whole scan: the body, the handlers, and the clean-up. Whatever the calls come to, the
        stream is told to its end, with each investigation as it went, and says that the scan is complete only
        after both stores, and that it was stopped exactly if a call was cancelled. The lock is released unless
        that call fails, and the queue is closed unless one of the clean-up's two calls fails. */
    method RunScan(inputs: Inputs) returns (ending: Ending, closed: bool, ghost at: seq<nat>, ghost during: nat)
      requires events == [] && calls == 0 && locked && !runStored && !investigationsStored
      modifies this
      ensures Told(events, |at|, inputs.planned, ending, closed)
      ensures var front := FrontOf(events, ending, closed);
              if ending.Returned? then SaysAll(front, inputs, script, at, during) else Says(front, inputs, script, at)
      ensures investigationsStored <==> ending.Returned?
      ensures runStored <==>
                && |at| == inputs.planned && Behind(script, PrefaceCalls(inputs), at) < during
                && !Fails(OutcomeAt(script, Behind(script, PrefaceCalls(inputs), at)))
      ensures during < calls <= during + 2 && EndsAs(ending, script, during)
      ensures locked <==> Fails(OutcomeAt(script, during))
      ensures closed <==> !locked && calls == during + 2 && !Fails(OutcomeAt(script, during + 1))
    {
      hide Opening, EndsAs, Fails, OutcomeAt, Says, SaysAll, Behind, Told;
      ending, at := Body(inputs);
      during := calls;
      ghost var front := if ending.Returned? then events[..|events| - 1] else events;
      match ending {
        case Cancelled => events := events + [ScanStopped];
        case Raised => events := events + [ScanError];
        case Returned =>
      }
      assert events == front + [TerminalOf(ending)];
      closed := false;
      var release := Call();
      if release.Returned? {
        locked := false;
        var clear := Call();
        if clear.Returned? {
          events := events + [Closed];
          closed := true;
        }
      }
      TellsAll(front, events, |at|, inputs.planned, ending, closed);
    }
  }

  lemma NoInvestigations(script: seq<Reply>, c: nat, total: nat)
    ensures AllSaid(script, [], total) == [] && FollowEachOther(script, c, []) && NoneCut(script, [])
    ensures Behind(script, c, []) == c
  {
  }

  lemma NoCalls(script: seq<Reply>)
    ensures EndsAs(Returned, script, 0)
  {
  }

  /** What a whole stream says before it says how the scan has ended. */
  function FrontOf(events: seq<Event>, ending: Ending, closed: bool): seq<Event> {
    var n := if closed then 2 else 1;
    if |events| < n then [] else events[..|events| - n]
  }

  lemma TellsAll(front: seq<Event>, events: seq<Event>, n: nat, total: nat, ending: Ending, closed: bool)
    requires Opening(front, n, total) && n <= total && (ending.Returned? ==> n == total)
    requires events == front + [TerminalOf(ending)] + if closed then [Closed] else []
    ensures Told(events, n, total, ending, closed) && FrontOf(events, ending, closed) == front
  {
    var tail := [TerminalOf(ending)] + if closed then [Closed] else [];
    assert events == front + tail;
    assert events[..|events| - |tail|] == front;
  }
}
