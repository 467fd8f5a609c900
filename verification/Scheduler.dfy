/** The loop that starts scans at intervals. Models _scheduler_loop in
    src/jenkins_watchdog/scheduler.py; times are in seconds of the monotonic clock. */
module Scheduler {

  datatype Kind = Regular | Deep

  /** What becomes of a scan: it ran, it did not (the lock was busy, or it failed inside), an exception
      got out of it, or the scheduler was stopped under it. */
  datatype Result = Ran | DidNotRun | Raised | Stopped

  /** One turn of the loop: the scan's result and length, the delays before the two clock readings that
      follow it, how much longer than asked the pause lasts, and whether the scheduler is stopped in it. */
  datatype Turn = Turn(result: Result, length: nat, delay: nat, delay2: nat, oversleep: nat, stopped: bool)

  /** What happens, in order: scans start and end; `noted` and `noted2` are the clock readings taken after a
      success, of which the latter counts for regular scans (after a regular scan there is one reading). */
  datatype Entry =
    | Started(kind: Kind, at: int)
    | Ended(kind: Kind, at: int, noted: int, noted2: int, ok: bool)

  /** The clock reading noted after the last successful deep scan, or else when the loop began. */
  function LastDeep(log: seq<Entry>, began: int): int {
    if log == [] then began
    else
      var last := log[|log| - 1];
      if last.Ended? && last.ok && last.kind == Deep then last.noted else LastDeep(log[..|log| - 1], began)
  }

  /** The clock reading noted after the last success of either kind, or else 0. */
  function LastRegular(log: seq<Entry>): int {
    if log == [] then 0
    else
      var last := log[|log| - 1];
      if last.Ended? && last.ok then last.noted2 else LastRegular(log[..|log| - 1])
  }

  predicate Success(e: Entry) {
    e.Ended? && e.ok
  }

  /** The entry at position j is no scan that starts too early. */
  predicate StartsInTime(log: seq<Entry>, j: nat, regular: int, deep: int, began: int)
    requires j < |log|
  {
    log[j].Started? ==>
      match log[j].kind
      case Regular =>
        && regular > 0
        && (forall i | 0 <= i < j && Success(log[i]) :: log[j].at - log[i].at >= regular)
        && (deep > 0 ==> log[j].at - LastDeep(log[..j], began) < deep)
      case Deep =>
        && deep > 0 && log[j].at - began >= deep
        && (forall i | 0 <= i < j && Success(log[i]) && log[i].kind == Deep :: log[j].at - log[i].at >= deep)
  }

  /** One scan at a time, in the order of the clock: what starts is what ends next. */
  predicate InTurn(log: seq<Entry>) {
    && (forall j | 0 < j < |log| && log[j].Started? :: log[j - 1].Ended?)
    && (forall j | 0 <= j < |log| && log[j].Ended? :: j > 0 && log[j - 1] == Started(log[j].kind, log[j - 1].at))
    && (forall i, j | 0 <= i < j < |log| :: log[i].at <= log[j].at)
  }

  predicate Spaced(log: seq<Entry>, regular: int, deep: int, began: int) {
    && InTurn(log)
    && forall j: nat | j < |log| :: StartsInTime(log, j, regular, deep, began)
  }

  /** What the two module variables stand for. */
  predicate Noted(log: seq<Entry>, lastRegular: int, lastDeep: int, began: int) {
    && lastDeep == LastDeep(log, began) && lastDeep >= began && lastRegular == LastRegular(log)
    && (forall i | 0 <= i < |log| && Success(log[i]) :: log[i].at <= lastRegular)
    && (forall i | 0 <= i < |log| && Success(log[i]) && log[i].kind == Deep :: log[i].at <= lastDeep)
  }

  predicate Idle(log: seq<Entry>, clock: int) {
    && (log != [] ==> log[|log| - 1].Ended?)
    && forall i | 0 <= i < |log| :: log[i].at <= clock
  }

  lemma EarlierStays(log: seq<Entry>, e: Entry, j: nat, regular: int, deep: int, began: int)
    requires j < |log|
    ensures StartsInTime(log + [e], j, regular, deep, began) <==> StartsInTime(log, j, regular, deep, began)
  {
    assert (log + [e])[j] == log[j] && (log + [e])[..j] == log[..j];
    assert forall i | 0 <= i < j :: (log + [e])[i] == log[i];
  }

  lemma SpacedNext(log: seq<Entry>, e: Entry, regular: int, deep: int, began: int)
    requires Spaced(log, regular, deep, began) && InTurn(log + [e])
    requires StartsInTime(log + [e], |log|, regular, deep, began)
    ensures Spaced(log + [e], regular, deep, began)
  {
    hide StartsInTime, InTurn;
    forall j: nat | j < |log + [e]|
      ensures StartsInTime(log + [e], j, regular, deep, began)
    {
      if j < |log| {
        EarlierStays(log, e, j, regular, deep, began);
      }
    }
  }

  predicate IsDue(kind: Kind, now: int, lastRegular: int, lastDeep: int, regular: int, deep: int) {
    match kind
    case Deep => deep > 0 && now - lastDeep >= deep
    case Regular => regular > 0 && now - lastRegular >= regular && !(deep > 0 && now - lastDeep >= deep)
  }

  /** A scan may start when the variables say that it is due. */
  lemma StartIsInTime(log: seq<Entry>, kind: Kind, now: int, lastRegular: int, lastDeep: int,
                      regular: int, deep: int, began: int)
    requires Spaced(log, regular, deep, began) && Noted(log, lastRegular, lastDeep, began) && Idle(log, now)
    requires IsDue(kind, now, lastRegular, lastDeep, regular, deep)
    ensures Spaced(log + [Started(kind, now)], regular, deep, began)
    ensures Noted(log + [Started(kind, now)], lastRegular, lastDeep, began)
  {
    hide StartsInTime, InTurn, IsDue;
    var e := Started(kind, now);
    assert (log + [e])[..|log|] == log;
    DueIsInTime(log, kind, now, lastRegular, lastDeep, regular, deep, began);
    StartsInTurn(log, kind, now);
    SpacedNext(log, e, regular, deep, began);
  }

  lemma StartsInTurn(log: seq<Entry>, kind: Kind, now: int)
    requires InTurn(log) && Idle(log, now)
    ensures InTurn(log + [Started(kind, now)])
  {
  }

  lemma DueIsInTime(log: seq<Entry>, kind: Kind, now: int, lastRegular: int, lastDeep: int,
                    regular: int, deep: int, began: int)
    requires Noted(log, lastRegular, lastDeep, began) && IsDue(kind, now, lastRegular, lastDeep, regular, deep)
    ensures StartsInTime(log + [Started(kind, now)], |log|, regular, deep, began)
  {
    var more := log + [Started(kind, now)];
    assert more[..|log|] == log;
    assert forall i | 0 <= i < |log| :: more[i] == log[i];
  }

  /** The end of a scan, and what is noted of it. */
  lemma EndIsInTime(log: seq<Entry>, e: Entry, lastRegular: int, lastDeep: int, lastRegular': int, lastDeep': int,
                    regular: int, deep: int, began: int)
    requires e.Ended? && log != [] && log[|log| - 1] == Started(e.kind, log[|log| - 1].at) && log[|log| - 1].at <= e.at
    requires Spaced(log, regular, deep, began) && Noted(log, lastRegular, lastDeep, began)
    requires if !e.ok then lastRegular' == lastRegular && lastDeep' == lastDeep
             else e.at <= e.noted <= lastRegular' == e.noted2 && lastRegular <= e.noted && lastDeep <= e.noted
                  && lastDeep' == if e.kind == Deep then e.noted else lastDeep
    ensures Spaced(log + [e], regular, deep, began) && Idle(log + [e], e.at)
    ensures Noted(log + [e], lastRegular', lastDeep', began)
  {
    var more := log + [e];
    assert more[..|log|] == log;
    assert more[|log| - 1] == log[|log| - 1];
    SpacedNext(log, e, regular, deep, began);
    assert forall i | 0 <= i < |log| :: more[i] == log[i];
  }

  // ---------------------------------------------------------------- the loop

  const PAUSE := 30
  const PAUSE_AFTER_ERROR := 60

  /** The module's variables, the intervals, the clock, and a record of what has happened. */
  class Loop {
    const regularInterval: int
    const deepInterval: int
    ghost const began: int
    var lastRegular: int
    var lastDeep: int
    var clock: int
    ghost var log: seq<Entry>

    ghost predicate Valid()
      reads this
    {
      && Spaced(log, regularInterval, deepInterval, began)
      && Noted(log, lastRegular, lastDeep, began)
      && (forall i | 0 <= i < |log| :: log[i].at <= clock)
      && lastRegular <= clock && lastDeep <= clock
    }

    /** The loop begins: a first regular scan is due once the clock has come to the interval. */
    constructor (regularInterval: int, deepInterval: int, now: nat, oversleep: nat)
      ensures Valid() && log == [] && began == now && lastRegular == 0 && lastDeep == now
      ensures this.regularInterval == regularInterval && this.deepInterval == deepInterval
      ensures clock == now + 50 + oversleep
    {
      this.regularInterval, this.deepInterval, began := regularInterval, deepInterval, now;
      lastRegular, lastDeep, clock := 0, now, now + 50 + oversleep;
      log := [];
    }

    /** A scan that is due: it starts, takes its time, and, if it ran, its end is noted. */
    method RunScan(kind: Kind, turn: Turn)
      requires Valid() && (log != [] ==> log[|log| - 1].Ended?)
      requires IsDue(kind, clock, lastRegular, lastDeep, regularInterval, deepInterval)
      modifies this
      ensures Valid()
      ensures turn.result.Stopped? ==> log == old(log) + [Started(kind, old(clock))]
      ensures !turn.result.Stopped? ==>
                var end := old(clock) + turn.length;
                log == old(log) + [Started(kind, old(clock)),
                                   Ended(kind, end, if turn.result.Ran? then end + turn.delay else end, clock, turn.result.Ran?)]
      ensures clock == old(clock) + turn.length
                       + if turn.result.Ran? then turn.delay + (if kind == Deep then turn.delay2 else 0) else 0
      ensures !turn.result.Ran? ==> lastRegular == old(lastRegular) && lastDeep == old(lastDeep)
      ensures turn.result.Ran? ==>
                lastRegular == clock && lastDeep == if kind == Deep then clock - turn.delay2 else old(lastDeep)
    {
      hide Spaced, Noted;
      StartIsInTime(log, kind, clock, lastRegular, lastDeep, regularInterval, deepInterval, began);
      log := log + [Started(kind, clock)];
      clock := clock + turn.length;
      ghost var end := clock;
      ghost var wasRegular, wasDeep := lastRegular, lastDeep;
      ghost var noted := end;
      if turn.result.Ran? {
        clock := clock + turn.delay;
        noted := clock;
        if kind == Deep {
          lastDeep := clock;
          clock := clock + turn.delay2;
        }
        lastRegular := clock;
      }
      if !turn.result.Stopped? {
        ghost var e := Ended(kind, end, noted, clock, turn.result.Ran?);
        EndIsInTime(log, e, wasRegular, wasDeep, lastRegular, lastDeep, regularInterval, deepInterval, began);
        log := log + [e];
      }
    }

    /** One turn: a deep scan exactly if the deep interval has passed since what was noted of the last deep
        success, or since the begin; or else a regular one exactly if the regular interval has passed since
        what was noted of the last success, or since the clock began; then a pause. */
    method Step(turn: Turn) returns (stopped: bool)
      requires Valid() && (log != [] ==> log[|log| - 1].Ended?)
      modifies this
      ensures Valid() && (!stopped ==> log != [] ==> log[|log| - 1].Ended?)
      ensures var now := old(clock);
              var deep := deepInterval > 0 && now - LastDeep(old(log), began) >= deepInterval;
              var regular := regularInterval > 0 && now - LastRegular(old(log)) >= regularInterval;
              && (log == old(log) <==> !deep && !regular)
              && (log != old(log) ==> old(log) + [Started(if deep then Deep else Regular, now)] <= log)
      ensures log == old(log) ==> clock == old(clock) + 30 + turn.oversleep && stopped == turn.stopped
      ensures log != old(log) && turn.result.Stopped? ==> stopped
      ensures log != old(log) && !turn.result.Stopped? ==>
                && stopped == turn.stopped && log[|log| - 1].Ended?
                && clock == log[|log| - 1].at
                            + (if turn.result.Ran? then log[|log| - 1].noted2 - log[|log| - 1].at else 0)
                            + (if turn.result.Raised? then 60 else 30) + turn.oversleep
    {
      assert lastDeep == LastDeep(log, began) && lastRegular == LastRegular(log);
      hide Spaced, Noted, LastDeep, LastRegular;
      if IsDue(Deep, clock, lastRegular, lastDeep, regularInterval, deepInterval) {
        RunScan(Deep, turn);
      } else if IsDue(Regular, clock, lastRegular, lastDeep, regularInterval, deepInterval) {
        RunScan(Regular, turn);
      } else {
        clock := clock + PAUSE + turn.oversleep;
        return turn.stopped;
      }
      if turn.result.Stopped? {
        return true;
      }
      clock := clock + (if turn.result.Raised? then PAUSE_AFTER_ERROR else PAUSE) + turn.oversleep;
      stopped := turn.stopped;
    }

    /** The loop, for as many turns as are given or until it is stopped: in every run each regular scan
        starts the regular interval after the last success of either kind and none while a deep one is
        due, and each deep scan the deep interval after the last deep success and the loop's begin. */
    method Run(turns: seq<Turn>)
      requires Valid() && log == []
      modifies this
      ensures Spaced(log, regularInterval, deepInterval, began)
    {
      hide Spaced, Noted;
      for i := 0 to |turns|
        invariant Valid() && (log != [] ==> log[|log| - 1].Ended?)
      {
        var stopped := Step(turns[i]);
        if stopped {
          return;
        }
      }
    }
  }
}
