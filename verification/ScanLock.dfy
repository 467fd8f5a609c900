/** The lock that keeps scans apart: one key with an expiry, set by whoever finds it missing, renewed
    and deleted by anyone. Models the lock functions of src/jenkins_watchdog/state.py and their use in
    src/jenkins_watchdog/api/router.py and src/jenkins_watchdog/scheduler.py. */
module ScanLock {
  import opened Sequences

  const LOCK_TTL := 300

  /** The key's expiry, if it has been set. */
  predicate Present(lock: Option<int>, now: int) {
    lock.Some? && now < lock.value
  }

  /** SET with NX and EX. */
  function SetIfMissing(lock: Option<int>, now: int): Option<int> {
    if Present(lock, now) then lock else Some(now + LOCK_TTL)
  }

  /** EXPIRE does not bring a missing key back. */
  function Renew(lock: Option<int>, now: int): Option<int> {
    if Present(lock, now) then Some(now + LOCK_TTL) else lock
  }

  /** The functions of state.py; `now` is the server's time. */
  class Valkey {
    var lock: Option<int>

    constructor ()
      ensures lock == None
    {
      lock := None;
    }

    method AcquireLock(now: int) returns (ok: bool)
      modifies this
      ensures ok <==> !Present(old(lock), now)
      ensures lock == SetIfMissing(old(lock), now) && Present(lock, now)
    {
      ok := !Present(lock, now);
      if ok {
        lock := Some(now + LOCK_TTL);
      }
    }

    method RefreshLock(now: int)
      modifies this
      ensures lock == Renew(old(lock), now) && (Present(lock, now) <==> Present(old(lock), now))
    {
      if Present(lock, now) {
        lock := Some(now + LOCK_TTL);
      }
    }

    method ReleaseLock()
      modifies this
      ensures lock == None
    {
      lock := None;
    }
  }

  // ---------------------------------------------------------------- scans over the key

  /** The time, the key, and the scans that believe to hold the lock, each with the time at which it
      last acquired or refreshed it. */
  datatype State = State(now: int, lock: Option<int>, active: map<nat, int>)

  /** A scan that crashes ends without releasing the lock: its process is killed, or a call fails before
      the try statement whose finally clause releases it. */
  datatype Step =
    | Tick(seconds: nat)
    | Acquire(scan: nat)
    | Refresh(scan: nat)
    | Release(scan: nat)
    | Crash(scan: nat)
    | StartupRelease

  predicate Enabled(s: State, step: Step) {
    match step
    case Acquire(i) => i !in s.active
    case Refresh(i) => i in s.active
    case Release(i) => i in s.active
    case _ => true
  }

  function Next(s: State, step: Step): State {
    match step
    case Tick(d) => s.(now := s.now + d)
    case Acquire(i) =>
      if Present(s.lock, s.now) then s
      else s.(lock := SetIfMissing(s.lock, s.now), active := s.active[i := s.now])
    case Refresh(i) => s.(lock := Renew(s.lock, s.now), active := s.active[i := s.now])
    case Release(i) => s.(lock := None, active := s.active - {i})
    case Crash(i) => s.(active := s.active - {i})
    case StartupRelease => s.(lock := None)
  }

  /** A step as it is taken: through the server's functions. The server's clock is that of the state. */
  method Take(server: Valkey, s: State, step: Step) returns (t: State)
    requires Enabled(s, step) && server.lock == s.lock
    modifies server
    ensures t == Next(s, step) && server.lock == t.lock
  {
    t := s;
    match step {
      case Tick(d) => t := t.(now := s.now + d);
      case Acquire(i) =>
        var ok := server.AcquireLock(s.now);
        if ok {
          t := t.(active := s.active[i := s.now]);
        }
      case Refresh(i) =>
        server.RefreshLock(s.now);
        t := t.(active := s.active[i := s.now]);
      case Release(i) =>
        server.ReleaseLock();
        t := t.(active := s.active - {i});
      case Crash(i) => t := t.(active := s.active - {i});
      case StartupRelease => server.ReleaseLock();
    }
    t := t.(lock := server.lock);
  }

  function Run(steps: seq<Step>): State {
    if steps == [] then State(0, None, map[])
    else Next(Run(steps[..|steps| - 1]), steps[|steps| - 1])
  }

  /** No scan lets more than `gap` seconds pass without touching the lock. */
  predicate Timely(s: State, gap: int) {
    forall i | i in s.active :: s.now - s.active[i] <= gap
  }

  /** A run of scans that are that timely; and, if `quiet`, the scheduler's startup releases the lock
      only while no scan is active. */
  predicate Obeys(steps: seq<Step>, gap: int, quiet: bool) {
    if steps == [] then true
    else
      var before, step := Run(steps[..|steps| - 1]), steps[|steps| - 1];
      && Obeys(steps[..|steps| - 1], gap, quiet)
      && Enabled(before, step) && Timely(Next(before, step), gap)
      && (quiet && step.StartupRelease? ==> before.active == map[])
  }

  /** At most one scan is in its critical section, and the key is there while one is. */
  predicate Safe(s: State) {
    && (forall i, j | i in s.active && j in s.active :: i == j)
    && (s.active != map[] ==> Present(s.lock, s.now))
  }

  // ---------------------------------------------------------------- the invariant

  /** The one active scan's last touch is what the key's expiry counts from. */
  predicate Held(s: State) {
    && (forall i, j | i in s.active && j in s.active :: i == j)
    && (forall i | i in s.active :: s.lock == Some(s.active[i] + LOCK_TTL))
  }

  lemma HeldIsSafe(s: State, gap: int)
    requires Held(s) && Timely(s, gap) && gap < LOCK_TTL
    ensures Safe(s)
  {
    if s.active != map[] {
      var i :| i in s.active;
    }
  }

  lemma StepHolds(s: State, step: Step, gap: int)
    requires Held(s) && Timely(s, gap) && gap < LOCK_TTL && Enabled(s, step)
    requires step.StartupRelease? ==> s.active == map[]
    ensures Held(Next(s, step))
  {
    HeldIsSafe(s, gap);
  }

  lemma {:induction false} RunHolds(steps: seq<Step>, gap: int)
    requires Obeys(steps, gap, true) && gap < LOCK_TTL
    ensures Held(Run(steps)) && Timely(Run(steps), gap)
  {
    if steps != [] {
      hide Held, Timely, Next;
      var before := steps[..|steps| - 1];
      RunHolds(before, gap);
      StepHolds(Run(before), steps[|steps| - 1], gap);
    }
  }

  lemma RunMore(steps: seq<Step>, step: Step, gap: int, quiet: bool)
    ensures Run(steps + [step]) == Next(Run(steps), step)
    ensures Obeys(steps + [step], gap, quiet) <==>
              && Obeys(steps, gap, quiet) && Enabled(Run(steps), step) && Timely(Next(Run(steps), step), gap)
              && (quiet && step.StartupRelease? ==> Run(steps).active == map[])
  {
    assert (steps + [step])[..|steps|] == steps;
  }

  /** Two scans, one after the other, with something between that makes the key go away. */
  lemma TwoScans(between: Step, gap: nat, quiet: bool)
    requires between == StartupRelease || between == Tick(LOCK_TTL)
    requires if between == StartupRelease then !quiet else gap >= LOCK_TTL
    ensures Obeys([Acquire(0), between, Acquire(1)], gap, quiet)
    ensures !Safe(Run([Acquire(0), between, Acquire(1)]))
  {
    RunMore([], Acquire(0), gap, quiet);
    RunMore([Acquire(0)], between, gap, quiet);
    RunMore([Acquire(0), between], Acquire(1), gap, quiet);
    assert [] + [Acquire(0)] == [Acquire(0)];
    assert [Acquire(0)] + [between] == [Acquire(0), between];
    assert [Acquire(0), between] + [Acquire(1)] == [Acquire(0), between, Acquire(1)];
    var s := Run([Acquire(0), between, Acquire(1)]);
    assert 0 in s.active && 1 in s.active;
  }

  /** The lock keeps scans apart in every run exactly when each scan touches it more often than it
      expires and it is never released at startup under an active scan. */
  lemma MutualExclusionExactly(gap: nat, quiet: bool)
    ensures (forall steps :: Obeys(steps, gap, quiet) ==> Safe(Run(steps))) <==> gap < LOCK_TTL && quiet
  {
    hide Safe, Obeys, Run, Held, Timely;
    if gap < LOCK_TTL && quiet {
      forall steps | Obeys(steps, gap, quiet)
        ensures Safe(Run(steps))
      {
        RunHolds(steps, gap);
        HeldIsSafe(Run(steps), gap);
      }
    } else if !quiet {
      TwoScans(StartupRelease, gap, quiet);
    } else {
      TwoScans(Tick(LOCK_TTL), gap, quiet);
    }
  }

  // ---------------------------------------------------------------- who gets the lock

  /** A scan that asks for the lock gets it exactly if the key is missing or has expired; then the key is
      there for 300 seconds. */
  lemma AcquireExactly(steps: seq<Step>, scan: nat)
    requires scan !in Run(steps).active
    ensures var s, t := Run(steps), Run(steps + [Acquire(scan)]);
            && (scan in t.active <==> s.lock == None || s.lock.value <= s.now)
            && (scan in t.active ==> t.lock == Some(s.now + 300) && t.active == s.active[scan := s.now])
            && (scan !in t.active ==> t == s)
  {
    RunMore(steps, Acquire(scan), 0, false);
  }

  /** When a scan ends and releases the lock, another one gets it at once. */
  lemma FreeAfterRelease(steps: seq<Step>, scan: nat, next: nat)
    requires scan in Run(steps).active && (next == scan || next !in Run(steps).active)
    ensures var s, t := Run(steps), Run(steps + [Release(scan)] + [Acquire(next)]);
            t == State(s.now, Some(s.now + 300), (s.active - {scan})[next := s.now])
  {
    RunMore(steps, Release(scan), 0, false);
    RunMore(steps + [Release(scan)], Acquire(next), 0, false);
  }

  // ---------------------------------------------------------------- no lock stays for ever

  lemma {:induction false} ExpiryIsNear(steps: seq<Step>)
    ensures var s := Run(steps); s.lock.Some? ==> s.lock.value <= s.now + LOCK_TTL
  {
    if steps != [] {
      ExpiryIsNear(steps[..|steps| - 1]);
    }
  }

  /** However the earlier scans have ended, and even if all have crashed: when none of them touches the
      key for its lifetime, the next one gets the lock. */
  lemma FreeWithinTtl(steps: seq<Step>, wait: nat, scan: nat)
    requires wait >= LOCK_TTL && scan !in Run(steps).active
    ensures var s := Run(steps + [Tick(wait)] + [Acquire(scan)]);
            scan in s.active && s.active[scan] == s.now && Present(s.lock, s.now)
  {
    ExpiryIsNear(steps);
    RunMore(steps, Tick(wait), 0, false);
    RunMore(steps + [Tick(wait)], Acquire(scan), 0, false);
  }
}
