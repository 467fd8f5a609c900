/** Comparing a scan with the last one, and choosing the findings to investigate: three hand-written
    plans and the one policy that they stand for. Models compute_diff and store_investigations in
    src/jenkins_watchdog/state.py, should_investigate in src/jenkins_watchdog/reasoning/gate.py, and the
    plans of src/jenkins_watchdog/api/router.py, src/jenkins_watchdog/cli.py and
    src/jenkins_watchdog/scheduler.py. */
module Planning {
  import opened Sequences
  import opened Strings
  import opened Grouping
  import opened Findings
  import opened Ordering
  import Correlation

  // ---------------------------------------------------------------- the comparison

  /** A stored finding, by its fingerprint, if it has one. */
  datatype Stored = Stored(mark: Option<string>, text: string)

  datatype Diff = Diff(new_: seq<Data>, ongoing: seq<Data>, resolved: seq<Stored>)

  function Marks(previous: seq<Stored>): set<string> {
    set s | s in previous && s.mark.Some? && s.mark.value != "" :: s.mark.value
  }

  function CurrentMarks(current: seq<Data>, id: Identity): set<string> {
    set d | d in current :: Fingerprint(d, id)
  }

  function IsNew(marks: set<string>, id: Identity): Data -> bool {
    d => Fingerprint(d, id) !in marks
  }

  function IsOngoing(marks: set<string>, id: Identity): Data -> bool {
    d => Fingerprint(d, id) in marks
  }

  function IsResolved(marks: set<string>): Stored -> bool {
    (s: Stored) => s.mark.Some? && s.mark.value in marks
  }

  function ComputeDiff(previous: seq<Stored>, current: seq<Data>, id: Identity): Diff {
    var marks := Marks(previous);
    Diff(Select(current, IsNew(marks, id)), Select(current, IsOngoing(marks, id)),
         Select(previous, IsResolved(marks - CurrentMarks(current, id))))
  }

  lemma {:induction false} SelectSplits<T>(s: seq<T>, p: T -> bool, q: T -> bool)
    requires forall x | x in s :: p(x) <==> !q(x)
    ensures multiset(s) == multiset(Select(s, p)) + multiset(Select(s, q))
  {
    if s != [] {
      assert s == [s[0]] + s[1..];
      assert s[0] in s;
      SelectSplits(s[1..], p, q);
    }
  }

  /** Each current finding is either new or ongoing; a stored one is resolved exactly if it has a
      fingerprint that no current one has. */
  lemma DiffIsComplete(previous: seq<Stored>, current: seq<Data>, id: Identity)
    ensures var diff := ComputeDiff(previous, current, id);
            && multiset(current) == multiset(diff.new_) + multiset(diff.ongoing)
            && forall s :: s in diff.resolved <==>
                 s in previous && s.mark.Some? && s.mark.value != ""
                 && forall d | d in current :: Fingerprint(d, id) != s.mark.value
  {
    hide Fingerprint;
    var marks := Marks(previous);
    SelectSplits(current, IsNew(marks, id), IsOngoing(marks, id));
    var gone := IsResolved(marks - CurrentMarks(current, id));
    forall s
      ensures s in Select(previous, gone) <==> s in previous && gone(s)
    {
      InSelect(previous, gone, s);
    }
  }

  // ---------------------------------------------------------------- the gate

  /** What a plan is made with: the findings' identity, str.lower, the last run, and the confidence of
      the stored investigations. */
  datatype Scan = Scan(id: Identity, lower: string -> string, previous: seq<Stored>, confidence: map<string, string>)

  predicate IsUrgent(d: Data) {
    d.severity == "critical" || d.severity == "warning"
  }

  /** An offline agent outside k3s is never investigated. */
  predicate IsForeignOffline(d: Data, lower: string -> string) {
    d.category == "jenkins_agent" && Contains(lower(d.symptom), "offline") && !Contains(lower(d.resource), "k3s")
  }

  predicate IsHighValue(category: string) {
    category == "jenkins_failed_build" || category == "jenkins_pipeline_pattern" || category == "jenkins_queue"
  }

  predicate HighConfidence(d: Data, scan: Scan) {
    var mark := Fingerprint(d, scan.id);
    mark in scan.confidence && scan.confidence[mark] == "high"
  }

  predicate ShouldInvestigate(d: Data, diff: Diff, scan: Scan, deep: bool) {
    if IsForeignOffline(d, scan.lower) then false
    else if !deep && HighConfidence(d, scan) && d in diff.ongoing then false
    else if deep then IsUrgent(d)
    else if IsHighValue(d.category) && d in diff.new_ then true
    else if IsHighValue(d.category) && d in diff.ongoing && d.severity == "critical" then true
    else if IsHighValue(d.category) && d.context.pattern == "shared_failure_signature" then
      d in diff.new_ || d.severity == "critical"
    else (d in diff.new_ && IsUrgent(d)) || (d in diff.ongoing && d.severity == "critical")
  }

  function Gate(diff: Diff, scan: Scan, deep: bool): Data -> bool {
    d => ShouldInvestigate(d, diff, scan, deep)
  }

  function Score(): Data -> int {
    d => PriorityScore(d)
  }

  function Urgent(): Data -> bool {
    d => IsUrgent(d)
  }

  function Critical(): Data -> bool {
    (d: Data) => d.severity == "critical"
  }

  predicate IsPatternOfNote(d: Data) {
    && d.category == "jenkins_pipeline_pattern"
    && (d.context.pattern == "consecutive_failures" || d.context.pattern == "shared_failure_signature"
        || d.context.pattern == "regression")
  }

  function PatternsNotIn(chosen: seq<Data>): Data -> bool {
    d => IsPatternOfNote(d) && d !in chosen
  }

  // ---------------------------------------------------------------- the policy

  function NewUrgent(scan: Scan): Data -> bool {
    d => Fingerprint(d, scan.id) !in Marks(scan.previous) && IsUrgent(d) && !IsForeignOffline(d, scan.lower)
  }

  function OngoingCritical(scan: Scan): Data -> bool {
    d => Fingerprint(d, scan.id) in Marks(scan.previous) && d.severity == "critical" && !HighConfidence(d, scan)
         && !IsForeignOffline(d, scan.lower)
  }

  /** New critical and warning findings, then ongoing critical ones without a confident investigation. */
  function Policy(findings: seq<Data>, scan: Scan): seq<Data> {
    Select(findings, NewUrgent(scan)) + Select(findings, OngoingCritical(scan))
  }

  /** What two of the plans add: new pipeline patterns of low severity. */
  predicate IsExtra(d: Data, scan: Scan) {
    Fingerprint(d, scan.id) !in Marks(scan.previous) && !IsUrgent(d) && IsPatternOfNote(d)
  }

  function Extra(scan: Scan): Data -> bool {
    d => IsExtra(d, scan)
  }

  function DeepPolicy(scan: Scan): Data -> bool {
    d => IsUrgent(d) && !IsForeignOffline(d, scan.lower)
  }

  function Ranked(ds: seq<Data>): seq<Data> {
    SortDown(ds, Score())
  }

  // ---------------------------------------------------------------- the gate lets the policy through

  /** In a comparison, every finding is on one of the two lists: the one for its fingerprint. */
  lemma ListedByMark(findings: seq<Data>, scan: Scan, d: Data)
    requires d in findings
    ensures var diff := ComputeDiff(scan.previous, findings, scan.id);
            && (d in diff.new_ <==> Fingerprint(d, scan.id) !in Marks(scan.previous))
            && (d in diff.ongoing <==> Fingerprint(d, scan.id) in Marks(scan.previous))
  {
    hide Fingerprint;
    InSelect(findings, IsNew(Marks(scan.previous), scan.id), d);
    InSelect(findings, IsOngoing(Marks(scan.previous), scan.id), d);
  }

  /** What the gate says of each finding that may come before it in a regular scan. */
  lemma RegularGate(findings: seq<Data>, scan: Scan, d: Data)
    requires d in findings
    ensures var diff := ComputeDiff(scan.previous, findings, scan.id);
            var isNew := Fingerprint(d, scan.id) !in Marks(scan.previous);
            var passes := ShouldInvestigate(d, diff, scan, false);
            && (isNew && IsUrgent(d) ==> (passes <==> NewUrgent(scan)(d)))
            && (!isNew && d.severity == "critical" ==> (passes <==> OngoingCritical(scan)(d)))
            && (IsPatternOfNote(d) && !(isNew && IsUrgent(d)) && !(!isNew && d.severity == "critical") ==>
                  (passes <==> IsExtra(d, scan)))
  {
    hide Fingerprint, ComputeDiff, Contains, Marks, HighConfidence;
    ListedByMark(findings, scan, d);
  }

  lemma DeepIsPolicy(findings: seq<Data>, scan: Scan)
    ensures var diff := ComputeDiff(scan.previous, findings, scan.id);
            Select(Select(findings, Urgent()), Gate(diff, scan, true)) == Select(findings, DeepPolicy(scan))
  {
    hide Fingerprint, ComputeDiff, Contains;
    SelectTwice(findings, Urgent(), Gate(ComputeDiff(scan.previous, findings, scan.id), scan, true), DeepPolicy(scan));
  }

  /** The findings that a regular plan starts with. */
  function Base(diff: Diff): seq<Data> {
    Select(diff.new_, Urgent()) + Select(diff.ongoing, Critical())
  }

  lemma NewPart(findings: seq<Data>, scan: Scan)
    ensures var diff := ComputeDiff(scan.previous, findings, scan.id);
            Select(Select(diff.new_, Urgent()), Gate(diff, scan, false)) == Select(findings, NewUrgent(scan))
  {
    hide Fingerprint, Contains, Marks, HighConfidence, ShouldInvestigate, IsForeignOffline, IsUrgent;
    var diff := ComputeDiff(scan.previous, findings, scan.id);
    var isNew := IsNew(Marks(scan.previous), scan.id);
    var both := (d: Data) => isNew(d) && IsUrgent(d);
    SelectTwice(findings, isNew, Urgent(), both);
    forall d | d in findings
      ensures NewUrgent(scan)(d) <==> both(d) && Gate(diff, scan, false)(d)
    {
      RegularGate(findings, scan, d);
    }
    SelectTwice(findings, both, Gate(diff, scan, false), NewUrgent(scan));
  }

  lemma OngoingPart(findings: seq<Data>, scan: Scan)
    ensures var diff := ComputeDiff(scan.previous, findings, scan.id);
            Select(Select(diff.ongoing, Critical()), Gate(diff, scan, false)) == Select(findings, OngoingCritical(scan))
  {
    hide Fingerprint, Contains, Marks, HighConfidence, ShouldInvestigate, IsForeignOffline;
    var diff := ComputeDiff(scan.previous, findings, scan.id);
    var ongoing := IsOngoing(Marks(scan.previous), scan.id);
    var both := (d: Data) => ongoing(d) && d.severity == "critical";
    SelectTwice(findings, ongoing, Critical(), both);
    forall d | d in findings
      ensures OngoingCritical(scan)(d) <==> both(d) && Gate(diff, scan, false)(d)
    {
      RegularGate(findings, scan, d);
    }
    SelectTwice(findings, both, Gate(diff, scan, false), OngoingCritical(scan));
  }

  lemma InBase(findings: seq<Data>, scan: Scan, d: Data)
    requires d in findings
    ensures d in Base(ComputeDiff(scan.previous, findings, scan.id)) <==>
              if Fingerprint(d, scan.id) !in Marks(scan.previous) then IsUrgent(d) else d.severity == "critical"
  {
    hide Fingerprint, ComputeDiff, Marks, IsUrgent;
    var diff := ComputeDiff(scan.previous, findings, scan.id);
    ListedByMark(findings, scan, d);
    InSelect(diff.new_, Urgent(), d);
    InSelect(diff.ongoing, Critical(), d);
  }

  lemma PatternPart(findings: seq<Data>, scan: Scan)
    ensures var diff := ComputeDiff(scan.previous, findings, scan.id);
            Select(Select(findings, PatternsNotIn(Base(diff))), Gate(diff, scan, false)) == Select(findings, Extra(scan))
  {
    hide Fingerprint, Contains, Marks, ShouldInvestigate, IsUrgent, ComputeDiff, Base, IsPatternOfNote;
    var diff := ComputeDiff(scan.previous, findings, scan.id);
    forall d | d in findings
      ensures Extra(scan)(d) <==> PatternsNotIn(Base(diff))(d) && Gate(diff, scan, false)(d)
    {
      InBase(findings, scan, d);
      RegularGate(findings, scan, d);
    }
    SelectTwice(findings, PatternsNotIn(Base(diff)), Gate(diff, scan, false), Extra(scan));
  }

  lemma RegularIsPolicy(findings: seq<Data>, scan: Scan)
    ensures var diff := ComputeDiff(scan.previous, findings, scan.id);
            var base := Select(diff.new_, Urgent()) + Select(diff.ongoing, Critical());
            && Select(base, Gate(diff, scan, false)) == Policy(findings, scan)
            && Select(base + Select(findings, PatternsNotIn(base)), Gate(diff, scan, false))
               == Policy(findings, scan) + Select(findings, Extra(scan))
  {
    hide Select, ComputeDiff, Gate, NewUrgent, OngoingCritical, Extra, PatternsNotIn, Urgent, Critical;
    var diff := ComputeDiff(scan.previous, findings, scan.id);
    var gate, base := Gate(diff, scan, false), Base(diff);
    NewPart(findings, scan);
    OngoingPart(findings, scan);
    PatternPart(findings, scan);
    SelectJoin(Select(diff.new_, Urgent()), Select(diff.ongoing, Critical()), gate);
    SelectJoin(base, Select(findings, PatternsNotIn(base)), gate);
  }

  // ---------------------------------------------------------------- the three plans

  /** What the plan of the web page is, and, unless it takes all findings, that of the command line. */
  function WebPlan(findings: seq<Data>, scan: Scan, investigateAll: bool, deep: bool, limit: int): seq<Data> {
    Take(Ranked(if investigateAll then findings
                else if deep then Select(findings, DeepPolicy(scan))
                else Policy(findings, scan) + Select(findings, Extra(scan))), limit)
  }

  const MAX_SCHEDULED_DEEP := 10

  /** What the scheduler's plan is. */
  function ScheduledPlan(findings: seq<Data>, scan: Scan, deep: bool, limit: int): seq<Data> {
    if deep then Take(Take(Ranked(Select(findings, DeepPolicy(scan))), limit), MAX_SCHEDULED_DEEP)
    else Take(Take(Ranked(Policy(findings, scan)), limit), limit)
  }

  lemma WebPlanIs(findings: seq<Data>, scan: Scan, investigateAll: bool, deep: bool, limit: int)
    ensures WebPlan(findings, scan, investigateAll, deep, limit) == Take(Ranked(
              if investigateAll then findings
              else if deep then Select(findings, DeepPolicy(scan))
              else Policy(findings, scan) + Select(findings, Extra(scan))), limit)
  {
  }

  lemma ScheduledPlanIs(findings: seq<Data>, scan: Scan, deep: bool, limit: int)
    ensures ScheduledPlan(findings, scan, deep, limit)
         == (if deep then Take(Take(Ranked(Select(findings, DeepPolicy(scan))), limit), MAX_SCHEDULED_DEEP)
             else Take(Take(Ranked(Policy(findings, scan)), limit), limit))
  {
  }

  /** The plan of a scan from the web page. */
  method RouterPlan(findings: seq<Data>, scan: Scan, investigateAll: bool, deep: bool, limit: int)
      returns (plan: seq<Data>)
    ensures plan == WebPlan(findings, scan, investigateAll, deep, limit)
  {
    hide *;
    var diff := ComputeDiff(scan.previous, findings, scan.id);
    if investigateAll {
      plan := findings;
    } else if deep {
      plan := Select(findings, Urgent());
    } else {
      plan := Select(diff.new_, Urgent());
      plan := plan + Select(diff.ongoing, Critical());
      plan := plan + Select(findings, PatternsNotIn(plan));
    }
    if !investigateAll {
      plan := Select(plan, Gate(diff, scan, deep));
    }
    plan := Ranked(plan);
    plan := Take(plan, limit);
    DeepIsPolicy(findings, scan);
    RegularIsPolicy(findings, scan);
    WebPlanIs(findings, scan, investigateAll, deep, limit);
  }

  /** The plan of the command line. */
  method BuildInvestigationPlan(findings: seq<Data>, diff: Diff, scan: Scan, deep: bool, limit: int)
      returns (plan: seq<Data>)
    requires diff == ComputeDiff(scan.previous, findings, scan.id)
    ensures plan == WebPlan(findings, scan, false, deep, limit)
  {
    hide *;
    if deep {
      plan := Select(findings, Urgent());
    } else {
      plan := Select(diff.new_, Urgent());
      plan := plan + Select(diff.ongoing, Critical());
      plan := plan + Select(findings, PatternsNotIn(plan));
    }
    plan := Select(plan, Gate(diff, scan, deep));
    plan := Ranked(plan);
    plan := Take(plan, limit);
    DeepIsPolicy(findings, scan);
    RegularIsPolicy(findings, scan);
    WebPlanIs(findings, scan, false, deep, limit);
  }

  /** The plan of the scheduler. */
  method SchedulerPlan(findings: seq<Data>, scan: Scan, deep: bool, limit: int) returns (plan: seq<Data>)
    ensures plan == ScheduledPlan(findings, scan, deep, limit)
  {
    hide *;
    var diff := ComputeDiff(scan.previous, findings, scan.id);
    if deep {
      plan := Select(findings, Urgent());
    } else {
      plan := Select(diff.new_, Urgent());
      plan := plan + Select(diff.ongoing, Critical());
    }
    plan := Select(plan, Gate(diff, scan, deep));
    plan := Ranked(plan);
    plan := Take(plan, limit);
    var maxScheduled := if deep then MAX_SCHEDULED_DEEP else limit;
    plan := Take(plan, maxScheduled);
    DeepIsPolicy(findings, scan);
    RegularIsPolicy(findings, scan);
    ScheduledPlanIs(findings, scan, deep, limit);
  }

  // ---------------------------------------------------------------- the plans in terms of the findings

  /** The last run has stored the finding's fingerprint. */
  predicate IsKnown(d: Data, scan: Scan) {
    Fingerprint(d, scan.id) != "" && exists s | s in scan.previous :: s.mark == Some(Fingerprint(d, scan.id))
  }

  ghost predicate IsOfflineElsewhere(d: Data, lower: string -> string) {
    d.category == "jenkins_agent" && IsPart("offline", lower(d.symptom)) && !IsPart("k3s", lower(d.resource))
  }

  /** What the default mode investigates. */
  ghost predicate IsWanted(d: Data, scan: Scan) {
    && !IsOfflineElsewhere(d, scan.lower)
    && if IsKnown(d, scan) then
         && d.severity == "critical"
         && !(Fingerprint(d, scan.id) in scan.confidence && scan.confidence[Fingerprint(d, scan.id)] == "high")
       else d.severity == "critical" || d.severity == "warning"
  }

  /** What the web page and the command line add to it. */
  predicate IsLowPattern(d: Data, scan: Scan) {
    && !IsKnown(d, scan) && d.severity != "critical" && d.severity != "warning"
    && d.category == "jenkins_pipeline_pattern"
    && d.context.pattern in ["consecutive_failures", "shared_failure_signature", "regression"]
  }

  lemma KnownIsMarked(d: Data, scan: Scan)
    ensures IsKnown(d, scan) <==> Fingerprint(d, scan.id) in Marks(scan.previous)
  {
    hide Fingerprint;
  }

  lemma ElsewhereIsForeign(d: Data, lower: string -> string)
    ensures IsOfflineElsewhere(d, lower) <==> IsForeignOffline(d, lower)
  {
    hide Contains, IsPart;
    PartIsContained("offline", lower(d.symptom));
    PartIsContained("k3s", lower(d.resource));
  }

  lemma PatternIsListed(d: Data, scan: Scan)
    ensures IsExtra(d, scan) <==> IsLowPattern(d, scan)
  {
    hide Fingerprint, Marks;
    KnownIsMarked(d, scan);
  }

  /** What the gate lets through: nothing that is offline outside k3s; in a deep scan critical and warning
      findings; else known ones only if they are critical and have no confident investigation, and new ones if
      they are critical or warning, or are about failed builds, pipelines or the queue. */
  lemma GateExactly(findings: seq<Data>, scan: Scan, deep: bool, d: Data)
    requires d in findings
    ensures ShouldInvestigate(d, ComputeDiff(scan.previous, findings, scan.id), scan, deep) <==>
              && !IsOfflineElsewhere(d, scan.lower)
              && (if deep then d.severity == "critical" || d.severity == "warning"
                  else if IsKnown(d, scan) then IsWanted(d, scan)
                  else || d.severity == "critical" || d.severity == "warning"
                       || d.category in ["jenkins_failed_build", "jenkins_pipeline_pattern", "jenkins_queue"])
  {
    hide Fingerprint, IsForeignOffline, IsOfflineElsewhere, IsKnown, Marks, ComputeDiff;
    KnownIsMarked(d, scan);
    ElsewhereIsForeign(d, scan.lower);
    ListedByMark(findings, scan, d);
  }

  /** The plans with room for all findings hold exactly the findings that are wanted. */
  lemma PlannedExactly(findings: seq<Data>, scan: Scan, investigateAll: bool, deep: bool, limit: nat, d: Data)
    requires limit >= |findings|
    ensures d in WebPlan(findings, scan, investigateAll, deep, limit) <==>
              && d in findings
              && (investigateAll
                  || (deep && (d.severity == "critical" || d.severity == "warning") && !IsOfflineElsewhere(d, scan.lower))
                  || (!deep && (IsWanted(d, scan) || IsLowPattern(d, scan))))
    ensures d in ScheduledPlan(findings, scan, false, limit) <==> d in findings && IsWanted(d, scan)
  {
    hide Fingerprint, Select, SortDown, IsForeignOffline, IsOfflineElsewhere, IsKnown, Marks, IsExtra, IsLowPattern;
    KnownIsMarked(d, scan);
    ElsewhereIsForeign(d, scan.lower);
    PatternIsListed(d, scan);
    InSelect(findings, NewUrgent(scan), d);
    InSelect(findings, OngoingCritical(scan), d);
    InSelect(findings, Extra(scan), d);
    InSelect(findings, DeepPolicy(scan), d);
    var chosen := if investigateAll then findings
                  else if deep then Select(findings, DeepPolicy(scan))
                  else Policy(findings, scan) + Select(findings, Extra(scan));
    ChosenFits(findings, scan);
    RankedHas(chosen, limit, d);
    RankedHas(Policy(findings, scan), limit, d);
  }

  lemma RankedHas(chosen: seq<Data>, limit: nat, d: Data)
    requires |chosen| <= limit
    ensures d in Take(Ranked(chosen), limit) <==> d in chosen
    ensures Take(Take(Ranked(chosen), limit), limit) == Take(Ranked(chosen), limit)
  {
    SortPermutes(chosen, Score());
    SameItems(Ranked(chosen), chosen);
    assert |multiset(Ranked(chosen))| == |multiset(chosen)|;
  }

  lemma ChosenFits(findings: seq<Data>, scan: Scan)
    ensures |Policy(findings, scan) + Select(findings, Extra(scan))| <= |findings|
    ensures |Select(findings, DeepPolicy(scan))| <= |findings|
  {
    hide Fingerprint, Select, Policy;
    var any := (d: Data) => true;
    ChosenCount(findings, scan, any);
    SelectAll(Policy(findings, scan) + Select(findings, Extra(scan)), any);
    SelectAll(findings, any);
    SelectShorter(findings, DeepPolicy(scan));
  }

  // ---------------------------------------------------------------- the plans compared

  function Urgency(): Data -> int {
    d => 0 - Rank(d)
  }

  lemma RankedByUrgency(ds: seq<Data>)
    ensures Ranked(ds) == SortDown(ds, Urgency())
  {
    hide Rank, PriorityScore;
    forall d, e
      ensures Score()(d) >= Score()(e) <==> Urgency()(d) >= Urgency()(e)
    {
      ScoresAreRanks(e, d);
    }
    SortAlike(ds, Score(), Urgency());
  }

  /** The order of a plan is the only one by rank that keeps findings of the same rank in their order. */
  lemma RankedIsStable(ds: seq<Data>, order: seq<Data>)
    ensures order == Ranked(ds) <==>
              && (forall i, j | 0 <= i < j < |order| :: Rank(order[i]) <= Rank(order[j]))
              && SameClasses(order, ds, Urgency())
  {
    hide Rank;
    RankedByUrgency(ds);
    SortSorts(ds, Urgency());
    forall k: int
      ensures Select(Ranked(ds), AtScore(Urgency(), k)) == Select(ds, AtScore(Urgency(), k))
    {
      SortIsStable(ds, Urgency(), k);
    }
    if SortedDown(order, Urgency()) && SameClasses(order, ds, Urgency()) {
      StableIsUnique(order, Ranked(ds), Urgency());
    }
  }

  function NotExtra(scan: Scan): Data -> bool {
    d => !IsExtra(d, scan)
  }

  /** Without the extra findings, the longer ranking is the shorter one. */
  lemma RankedWithoutExtra(findings: seq<Data>, scan: Scan)
    ensures Select(Ranked(Policy(findings, scan) + Select(findings, Extra(scan))), NotExtra(scan))
         == Ranked(Policy(findings, scan))
  {
    hide IsExtra, Policy, Select, SortDown, Score;
    var policy, extra := Policy(findings, scan), Select(findings, Extra(scan));
    SortSelect(policy + extra, Score(), NotExtra(scan));
    SelectJoin(policy, extra, NotExtra(scan));
    forall d | d in policy
      ensures !IsExtra(d, scan)
    {
      PolicyIsNotExtra(findings, scan, d);
    }
    SelectAll(policy, NotExtra(scan));
    forall d | d in extra
      ensures IsExtra(d, scan)
    {
      InSelect(findings, Extra(scan), d);
    }
    SelectNone(extra, NotExtra(scan));
    assert policy + [] == policy;
  }

  lemma PolicyIsNotExtra(findings: seq<Data>, scan: Scan, d: Data)
    requires d in Policy(findings, scan)
    ensures !IsExtra(d, scan)
  {
    hide Fingerprint, Marks, IsForeignOffline, HighConfidence;
    InSelect(findings, NewUrgent(scan), d);
    InSelect(findings, OngoingCritical(scan), d);
  }

  lemma {:induction false} SelectShorter<T>(s: seq<T>, p: T -> bool)
    ensures |Select(s, p)| <= |s|
    ensures |Select(s, p)| == |s| ==> forall x | x in s :: p(x)
  {
    if s != [] {
      SelectShorter(s[1..], p);
      assert s == [s[0]] + s[1..];
    }
  }

  /** A selection starts like the whole exactly when the start is selected. */
  lemma SameStart<T>(s: seq<T>, p: T -> bool, k: nat)
    ensures Take(s, k) == Take(Select(s, p), k) <==> forall x | x in Take(s, k) :: p(x)
  {
    var front, back := Take(s, k), s[|Take(s, k)|..];
    assert s == front + back;
    SelectJoin(front, back, p);
    if forall x | x in front :: p(x) {
      SelectAll(front, p);
      assert |front| < k ==> back == [];
      assert Take(front + Select(back, p), k) == front;
    } else {
      var x :| x in front && !p(x);
      if Take(Select(s, p), k) == front {
        assert x in Select(s, p) by {
          var i :| 0 <= i < |front| && front[i] == x;
          assert Select(s, p)[i] == x;
        }
        InSelect(s, p, x);
      }
    }
  }

  /** When the scheduler's regular plan is that of the web page and the command line: exactly when none
      of the findings planned there is a new pipeline pattern of low severity. (A negative limit drops
      from the end, and the scheduler applies it twice: then the plans agree only if nothing is left.) */
  lemma RegularPlansAgree(findings: seq<Data>, scan: Scan, limit: int)
    ensures var web := WebPlan(findings, scan, false, false, limit);
            web == ScheduledPlan(findings, scan, false, limit) <==>
              if limit >= 0 then forall d | d in web :: !IsExtra(d, scan) else web == []
  {
    hide IsExtra, Policy, Ranked;
    var longer := Ranked(Policy(findings, scan) + Select(findings, Extra(scan)));
    var shorter := Ranked(Policy(findings, scan));
    RankedWithoutExtra(findings, scan);
    if limit >= 0 {
      SameStart(longer, NotExtra(scan), limit);
      assert Take(Take(shorter, limit), limit) == Take(shorter, limit);
    } else {
      SelectShorter(longer, NotExtra(scan));
    }
  }

  /** Before they are cut, the two plans agree exactly when no finding is such a pattern. */
  lemma WholePlansAgree(findings: seq<Data>, scan: Scan)
    ensures Ranked(Policy(findings, scan) + Select(findings, Extra(scan))) == Ranked(Policy(findings, scan))
            <==> forall d | d in findings :: !IsExtra(d, scan)
  {
    hide IsExtra, Policy;
    var policy, extra := Policy(findings, scan), Select(findings, Extra(scan));
    if forall d | d in findings :: !IsExtra(d, scan) {
      SelectNone(findings, Extra(scan));
      assert policy + [] == policy;
    } else {
      var d :| d in findings && IsExtra(d, scan);
      InSelect(findings, Extra(scan), d);
      SortPermutes(policy + extra, Score());
      SortPermutes(policy, Score());
      assert |multiset(Ranked(policy + extra))| == |policy| + |extra|;
      assert |multiset(Ranked(policy))| == |policy|;
    }
  }

  /** For example: a lone new pipeline pattern of low severity is investigated from the web page, and not by
      the scheduler. */
  lemma LowPatternPlans(d: Data, scan: Scan)
    requires d.category == "jenkins_pipeline_pattern" && d.severity == "low" && d.context.pattern == "regression"
    requires scan.previous == []
    ensures WebPlan([d], scan, false, false, 12) == [d] && ScheduledPlan([d], scan, false, 12) == []
  {
    hide Fingerprint, IsForeignOffline, HighConfidence;
    var findings := [d];
    assert findings[1..] == [] && d in findings;
    SelectNone(findings, NewUrgent(scan));
    SelectNone(findings, OngoingCritical(scan));
    assert Select(findings, Extra(scan)) == [d];
    assert Policy(findings, scan) == [];
    assert [] + findings == findings;
    assert SortDown(findings, Score()) == [d];
    assert Ranked([]) == SortDown<Data>([], Score()) == [];
  }

  // ---------------------------------------------------------------- the plans and what is documented

  /** A new finding that has been investigated with high confidence before. */
  predicate IsSettled(d: Data, scan: Scan) {
    Fingerprint(d, scan.id) !in Marks(scan.previous) && HighConfidence(d, scan)
  }

  function Unsettled(scan: Scan): Data -> bool {
    d => !IsSettled(d, scan)
  }

  function NewUnsettled(scan: Scan): Data -> bool {
    d => NewUrgent(scan)(d) && !HighConfidence(d, scan)
  }

  /** What the repository's README says is investigated by default (but for the agents outside k3s, which it
      does not mention): new critical and warning findings and ongoing critical ones, and nothing that has
      been investigated with high confidence. */
  function Documented(findings: seq<Data>, scan: Scan): seq<Data> {
    Select(findings, NewUnsettled(scan)) + Select(findings, OngoingCritical(scan))
  }

  /** Without what is settled, the policy's ranking is the documented one. */
  lemma RankedUnsettled(findings: seq<Data>, scan: Scan)
    ensures Select(Ranked(Policy(findings, scan)), Unsettled(scan)) == Ranked(Documented(findings, scan))
  {
    hide Select, SortDown, Score, HighConfidence, Fingerprint, Marks, IsUrgent, IsForeignOffline;
    SortSelect(Policy(findings, scan), Score(), Unsettled(scan));
    SelectJoin(Select(findings, NewUrgent(scan)), Select(findings, OngoingCritical(scan)), Unsettled(scan));
    SelectTwice(findings, NewUrgent(scan), Unsettled(scan), NewUnsettled(scan));
    SelectTwice(findings, OngoingCritical(scan), Unsettled(scan), OngoingCritical(scan));
  }

  /** A start that counts from the end is that of the selection too only if all is selected, or if
      nothing is left. */
  lemma SameStartExactly<T>(s: seq<T>, p: T -> bool, k: int)
    ensures Take(s, k) == Take(Select(s, p), k) <==>
              if k >= 0 then forall x | x in Take(s, k) :: p(x) else Take(s, k) == [] || forall x | x in s :: p(x)
  {
    hide Select;
    if k >= 0 {
      SameStart(s, p, k);
    } else {
      SelectShorter(s, p);
      if forall x | x in s :: p(x) {
        SelectAll(s, p);
      }
    }
  }

  lemma TakeTwice<T>(s: seq<T>, k: int)
    ensures Take(Take(s, k), k) == Take(s, if k >= 0 then k else 2 * k)
  {
  }

  /** The scheduler's regular plan is the documented one exactly if no new finding that is planned has been
      investigated with high confidence before. (With a negative limit, which drops from the end: if none
      that could be planned has, or if nothing is left.) */
  lemma ScheduledAsDocumented(findings: seq<Data>, scan: Scan, limit: int)
    ensures var plan := ScheduledPlan(findings, scan, false, limit);
            plan == Take(Take(Ranked(Documented(findings, scan)), limit), limit) <==>
              if limit >= 0 then forall d | d in plan :: !IsSettled(d, scan)
              else plan == [] || forall d | d in Policy(findings, scan) :: !IsSettled(d, scan)
  {
    hide IsSettled, Policy, Documented, Select, SortDown, Take;
    var ranked := Ranked(Policy(findings, scan));
    RankedUnsettled(findings, scan);
    TakeTwice(ranked, limit);
    TakeTwice(Ranked(Documented(findings, scan)), limit);
    SameStartExactly(ranked, Unsettled(scan), if limit >= 0 then limit else 2 * limit);
    SortPermutes(Policy(findings, scan), Score());
    SameItems(ranked, Policy(findings, scan));
  }

  lemma SameItems<T>(a: seq<T>, b: seq<T>)
    requires multiset(a) == multiset(b)
    ensures forall x :: x in a <==> x in b
  {
    assert forall x :: x in a <==> x in multiset(a);
  }

  /** The regular plan of the web page and the command line is the documented one exactly if, also, no
      pipeline pattern of low severity is planned. */
  lemma WebAsDocumented(findings: seq<Data>, scan: Scan, limit: int)
    ensures var plan := WebPlan(findings, scan, false, false, limit);
            plan == Take(Ranked(Documented(findings, scan)), limit) <==>
              if limit >= 0 then forall d | d in plan :: !IsSettled(d, scan) && !IsExtra(d, scan)
              else plan == [] || forall d | d in Policy(findings, scan) + Select(findings, Extra(scan)) ::
                     !IsSettled(d, scan) && !IsExtra(d, scan)
  {
    hide IsSettled, IsExtra, Policy, Documented, Select, SortDown, Take;
    var chosen := Policy(findings, scan) + Select(findings, Extra(scan));
    var both := (d: Data) => !IsExtra(d, scan) && !IsSettled(d, scan);
    RankedWithoutExtra(findings, scan);
    RankedUnsettled(findings, scan);
    SelectTwice(Ranked(chosen), NotExtra(scan), Unsettled(scan), both);
    SameStartExactly(Ranked(chosen), both, limit);
    SortPermutes(chosen, Score());
    SameItems(Ranked(chosen), chosen);
  }

  /** For example: a critical finding that has been investigated with high confidence, gone, and come back. */
  lemma SettledIsPlanned(d: Data, scan: Scan)
    requires d.category == "jenkins_failed_build" && d.severity == "critical" && HighConfidence(d, scan)
    requires scan.previous == []
    ensures ScheduledPlan([d], scan, false, 12) == [d] && Documented([d], scan) == []
  {
    hide Fingerprint, HighConfidence;
    var findings := [d];
    assert findings[1..] == [] && d in findings;
    SelectNone(findings, OngoingCritical(scan));
    SelectNone(findings, NewUnsettled(scan));
    assert Select(findings, NewUrgent(scan)) == [d];
    assert Policy(findings, scan) == [d];
    assert SortDown(findings, Score()) == [d];
  }

  /** The scheduler's deep plan is the start of the deep plan of the other two: its first ten, or all. */
  lemma DeepPlanIsPrefix(findings: seq<Data>, scan: Scan, limit: int)
    ensures var web, scheduled := WebPlan(findings, scan, false, true, limit), ScheduledPlan(findings, scan, true, limit);
            scheduled <= web && |scheduled| == if |web| < 10 then |web| else 10
  {
  }

  // ---------------------------------------------------------------- the investigations are all kept

  function HasMark(mark: string, id: Identity): Data -> bool {
    d => Fingerprint(d, id) == mark
  }

  lemma {:induction false} MarkAtMostOnce(ds: seq<Data>, mark: string, id: Identity)
    requires Correlation.PrintsDiffer(ds, id)
    ensures |Select(ds, HasMark(mark, id))| <= 1
  {
    hide Fingerprint;
    if ds != [] {
      var rest := ds[1..];
      assert forall i | 0 <= i < |rest| :: rest[i] == ds[i + 1];
      MarkAtMostOnce(rest, mark, id);
      if HasMark(mark, id)(ds[0]) {
        SelectNone(rest, HasMark(mark, id));
      }
    }
  }

  lemma {:induction false} MarkTwice(ds: seq<Data>, i: nat, j: nat, id: Identity)
    requires i < j < |ds| && Fingerprint(ds[i], id) == Fingerprint(ds[j], id)
    ensures |Select(ds, HasMark(Fingerprint(ds[i], id), id))| >= 2
  {
    hide Fingerprint;
    var rest, has := ds[1..], HasMark(Fingerprint(ds[i], id), id);
    if i > 0 {
      MarkTwice(rest, i - 1, j - 1, id);
    } else {
      InSelect(rest, has, ds[j]);
      assert rest[j - 1] == ds[j];
    }
  }

  /** Selections that exclude each other hold no more than the whole. */
  lemma {:induction false} PartsCount<T>(s: seq<T>, p: T -> bool, q: T -> bool, r: T -> bool, has: T -> bool)
    requires forall x | x in s :: !(p(x) && q(x)) && !(p(x) && r(x)) && !(q(x) && r(x))
    ensures |Select(Select(s, p), has)| + |Select(Select(s, q), has)| + |Select(Select(s, r), has)| <= |Select(s, has)|
  {
    if s != [] {
      var x, rest := s[0], s[1..];
      assert s == [x] + rest && x in s;
      PartsCount(rest, p, q, r, has);
      SelectFirst(x, rest, p);
      SelectFirst(x, rest, q);
      SelectFirst(x, rest, r);
      SelectFirst(x, rest, has);
      SelectFirst(x, Select(rest, p), has);
      SelectFirst(x, Select(rest, q), has);
      SelectFirst(x, Select(rest, r), has);
    }
  }

  lemma RankedCount(ds: seq<Data>, has: Data -> bool)
    ensures |Select(Ranked(ds), has)| == |Select(ds, has)|
  {
    SortSelect(ds, Score(), has);
    SortPermutes(Select(ds, has), Score());
    assert |multiset(Ranked(Select(ds, has)))| == |multiset(Select(ds, has))|;
  }

  lemma StartCount(ds: seq<Data>, limit: int, has: Data -> bool)
    ensures |Select(Take(ds, limit), has)| <= |Select(ds, has)|
  {
    var front := Take(ds, limit);
    assert ds == front + ds[|front|..];
    SelectJoin(front, ds[|front|..], has);
  }

  /** A sequence in which no fingerprint occurs more often than among the findings. */
  ghost predicate NoMore(ds: seq<Data>, findings: seq<Data>, id: Identity) {
    forall mark: string :: |Select(ds, HasMark(mark, id))| <= |Select(findings, HasMark(mark, id))|
  }

  lemma NoMoreStayDifferent(ds: seq<Data>, findings: seq<Data>, id: Identity)
    requires NoMore(ds, findings, id) && Correlation.PrintsDiffer(findings, id)
    ensures Correlation.PrintsDiffer(ds, id)
  {
    hide Fingerprint, Select;
    forall i, j | 0 <= i < j < |ds|
      ensures Fingerprint(ds[i], id) != Fingerprint(ds[j], id)
    {
      var mark := Fingerprint(ds[i], id);
      MarkAtMostOnce(findings, mark, id);
      assert |Select(ds, HasMark(mark, id))| <= |Select(findings, HasMark(mark, id))|;
      if mark == Fingerprint(ds[j], id) {
        MarkTwice(ds, i, j, id);
      }
    }
  }

  /** Ranking and cutting bring no fingerprint in. */
  lemma RankedNoMore(chosen: seq<Data>, findings: seq<Data>, limit: int, id: Identity)
    requires NoMore(chosen, findings, id)
    ensures NoMore(Take(Ranked(chosen), limit), findings, id)
  {
    hide Fingerprint, Select, Ranked;
    forall mark: string
      ensures |Select(Take(Ranked(chosen), limit), HasMark(mark, id))| <= |Select(findings, HasMark(mark, id))|
    {
      StartCount(Ranked(chosen), limit, HasMark(mark, id));
      RankedCount(chosen, HasMark(mark, id));
      assert |Select(chosen, HasMark(mark, id))| <= |Select(findings, HasMark(mark, id))|;
    }
  }

  lemma TakeNoMore(plan: seq<Data>, findings: seq<Data>, limit: int, id: Identity)
    requires NoMore(plan, findings, id)
    ensures NoMore(Take(plan, limit), findings, id)
  {
    hide Fingerprint, Select;
    forall mark: string
      ensures |Select(Take(plan, limit), HasMark(mark, id))| <= |Select(findings, HasMark(mark, id))|
    {
      StartCount(plan, limit, HasMark(mark, id));
      assert |Select(plan, HasMark(mark, id))| <= |Select(findings, HasMark(mark, id))|;
    }
  }

  /** What the plans choose holds no fingerprint twice that the findings do not. */
  lemma ChosenNoMore(findings: seq<Data>, scan: Scan)
    ensures NoMore(findings, findings, scan.id) && NoMore(Select(findings, DeepPolicy(scan)), findings, scan.id)
    ensures NoMore(Policy(findings, scan), findings, scan.id)
    ensures NoMore(Policy(findings, scan) + Select(findings, Extra(scan)), findings, scan.id)
  {
    hide Fingerprint, Select, Policy;
    forall mark: string
      ensures |Select(Select(findings, DeepPolicy(scan)), HasMark(mark, scan.id))| <= |Select(findings, HasMark(mark, scan.id))|
      ensures |Select(Policy(findings, scan), HasMark(mark, scan.id))| <= |Select(findings, HasMark(mark, scan.id))|
      ensures |Select(Policy(findings, scan) + Select(findings, Extra(scan)), HasMark(mark, scan.id))|
           <= |Select(findings, HasMark(mark, scan.id))|
    {
      ChosenCount(findings, scan, HasMark(mark, scan.id));
      SelectJoin(Policy(findings, scan), Select(findings, Extra(scan)), HasMark(mark, scan.id));
      SelectedCount(findings, DeepPolicy(scan), HasMark(mark, scan.id));
    }
  }

  lemma {:induction false} SelectedCount<T>(s: seq<T>, p: T -> bool, has: T -> bool)
    ensures |Select(Select(s, p), has)| <= |Select(s, has)|
  {
    if s != [] {
      var x, rest := s[0], s[1..];
      assert s == [x] + rest;
      SelectedCount(rest, p, has);
      SelectFirst(x, rest, p);
      SelectFirst(x, rest, has);
      SelectFirst(x, Select(rest, p), has);
    }
  }

  /** Every plan of findings with different fingerprints has different fingerprints: no finding is planned
      twice. */
  lemma PlanPrintsDiffer(findings: seq<Data>, scan: Scan, investigateAll: bool, deep: bool, limit: int)
    requires Correlation.PrintsDiffer(findings, scan.id)
    ensures Correlation.PrintsDiffer(WebPlan(findings, scan, investigateAll, deep, limit), scan.id)
    ensures Correlation.PrintsDiffer(ScheduledPlan(findings, scan, deep, limit), scan.id)
  {
    hide Fingerprint, Select, Ranked, Correlation.PrintsDiffer, NoMore, Policy, Take;
    ChosenNoMore(findings, scan);
    var chosen := if investigateAll then findings
                  else if deep then Select(findings, DeepPolicy(scan))
                  else Policy(findings, scan) + Select(findings, Extra(scan));
    RankedNoMore(chosen, findings, limit, scan.id);
    NoMoreStayDifferent(WebPlan(findings, scan, investigateAll, deep, limit), findings, scan.id);
    var scheduled := if deep then Select(findings, DeepPolicy(scan)) else Policy(findings, scan);
    RankedNoMore(scheduled, findings, limit, scan.id);
    TakeNoMore(Take(Ranked(scheduled), limit), findings, if deep then MAX_SCHEDULED_DEEP else limit, scan.id);
    NoMoreStayDifferent(ScheduledPlan(findings, scan, deep, limit), findings, scan.id);
  }

  lemma ChosenCount(findings: seq<Data>, scan: Scan, has: Data -> bool)
    ensures |Select(Policy(findings, scan) + Select(findings, Extra(scan)), has)| <= |Select(findings, has)|
  {
    hide Fingerprint, Select, IsForeignOffline, HighConfidence;
    var p, q, r := NewUrgent(scan), OngoingCritical(scan), Extra(scan);
    SelectJoin(Policy(findings, scan), Select(findings, r), has);
    SelectJoin(Select(findings, p), Select(findings, q), has);
    PartsCount(findings, p, q, r, has);
  }

  /** The results of a scan, by fingerprint: a later one for the same fingerprint replaces an earlier
      one, and a failed investigation leaves none. */
  function Recorded<R>(plan: seq<Data>, results: seq<Option<R>>, n: nat, id: Identity): map<string, R>
    requires n <= |plan| == |results|
  {
    if n == 0 then map[]
    else
      var before := Recorded(plan, results, n - 1, id);
      match results[n - 1]
      case None => before
      case Some(result) => before[Fingerprint(plan[n - 1], id) := result]
  }

  function Merged<R>(existing: map<string, R>, investigations: map<string, R>): map<string, R> {
    existing + investigations
  }

  /** If the fingerprints of a plan differ, each result is stored as its finding's, and what was stored
      for other fingerprints stays. */
  lemma {:induction false} ResultsAreKept<R>(plan: seq<Data>, results: seq<Option<R>>, n: nat,
                                             existing: map<string, R>, id: Identity)
    requires n <= |plan| == |results| && Correlation.PrintsDiffer(plan, id)
    ensures var merged := Merged(existing, Recorded(plan, results, n, id));
            && (forall i | 0 <= i < n && results[i].Some? ::
                  Fingerprint(plan[i], id) in merged && merged[Fingerprint(plan[i], id)] == results[i].value)
            && (forall mark | mark in existing
                  && forall i | 0 <= i < n && results[i].Some? :: Fingerprint(plan[i], id) != mark ::
                  mark in merged && merged[mark] == existing[mark])
  {
    hide Fingerprint;
    if n > 0 {
      ResultsAreKept(plan, results, n - 1, existing, id);
    }
  }
}
