/** What a health check reports, and what identifies it from one scan to the next.
    Models src/jenkins_watchdog/checks/base.py, and the scores of src/jenkins_watchdog/api/router.py. */
module Findings {
  import opened Sequences
  import opened Strings
  import opened Grouping

  /** The entries of a finding's context dictionary that the passes read or write. An absent string or
      list is the empty one, and so is a string that is None: the passes do not tell them apart, except
      for the job's name, and for the host, where None stands for Python's None: the cluster's client
      leaves an event's host so if the event has no node. */
  datatype Context = Context(
    alsoSeen: string,
    grouped: bool,
    groupSize: nat,
    affectedAgents: seq<string>,
    sampleAgents: seq<string>,
    offlineReason: string,
    errorSignature: string,
    jobName: Option<string>,
    pattern: string,
    builtOn: string,
    node: string,
    host: Option<string>,
    objectName: string,
    correlatedFindings: seq<string>,
    correlatedJobs: seq<string>,
    correlationGroupSize: nat,
    nodeCorrelation: string)

  /** The value of a finding at one moment. */
  datatype Data = Data(severity: string, category: string, resource: string, symptom: string, context: Context)

  class Finding {
    var severity: string
    var category: string
    var resource: string
    var symptom: string
    var context: Context

    constructor (data: Data)
      ensures View() == data
    {
      severity, category, resource, symptom, context :=
        data.severity, data.category, data.resource, data.symptom, data.context;
    }

    function View(): Data
      reads this
    {
      Data(severity, category, resource, symptom, context)
    }
  }

  function Views(fs: seq<Finding>): (ds: seq<Data>)
    reads fs
    ensures |ds| == |fs| && forall i | 0 <= i < |fs| :: ds[i] == fs[i].View()
  {
    seq(|fs|, i requires 0 <= i < |fs| reads fs => fs[i].View())
  }

  /** The passes keep lists in which no object occurs twice. */
  predicate Distinct(fs: seq<Finding>) {
    forall i, j | 0 <= i < j < |fs| :: fs[i] != fs[j]
  }

  /** Positions below n, in every list of the dictionary. */
  predicate PositionsBelow<K>(d: seq<(K, seq<nat>)>, n: nat) {
    forall e | 0 <= e < |d| :: forall i | 0 <= i < |d[e].1| :: d[e].1[i] < n
  }

  /** A dictionary of positions, with the findings at these positions. */
  function Named<K>(d: seq<(K, seq<nat>)>, fs: seq<Finding>): (r: seq<(K, seq<Finding>)>)
    requires PositionsBelow(d, |fs|)
    ensures |r| == |d| && forall e | 0 <= e < |d| :: r[e] == (d[e].0, Pick(fs, d[e].1))
  {
    seq(|d|, e requires 0 <= e < |d| => (d[e].0, Pick(fs, d[e].1)))
  }

  lemma {:induction false} NamedAppend<K>(d: seq<(K, seq<nat>)>, k: K, i: nat, fs: seq<Finding>)
    requires PositionsBelow(d, |fs|) && i < |fs|
    ensures PositionsBelow(Append(d, k, i), |fs|)
    ensures Named(Append(d, k, i), fs) == Append(Named(d, fs), k, fs[i])
  {
    if d == [] {
      assert Pick(fs, [i]) == [fs[i]];
      assert Named([(k, [i])], fs) == [(k, [fs[i]])];
    } else if d[0].0 == k {
      assert Pick(fs, d[0].1 + [i]) == Pick(fs, d[0].1) + [fs[i]];
      assert Named(Append(d, k, i), fs) == [(k, Pick(fs, d[0].1 + [i]))] + Named(d, fs)[1..];
    } else {
      assert PositionsBelow(d[1..], |fs|) by {
        assert forall e | 0 <= e < |d[1..]| :: d[1..][e] == d[e + 1];
      }
      NamedAppend(d[1..], k, i, fs);
      var rest := Append(d[1..], k, i);
      assert Append(d, k, i) == [d[0]] + rest;
      assert forall e | 0 < e < |Append(d, k, i)| :: Append(d, k, i)[e] == rest[e - 1];
      assert Named(Append(d, k, i), fs) == [Named(d, fs)[0]] + Named(rest, fs);
      assert Named(d, fs)[1..] == Named(d[1..], fs);
    }
  }

  lemma {:induction false} EntriesBelow<K>(keys: seq<Option<K>>, n: nat)
    requires n <= |keys|
    ensures PositionsBelow(Entries(keys, n), |keys|)
  {
    EntriesHaveKeys(keys, n);
  }

  // ---------------------------------------------------------------- scores

  function SeverityWeight(severity: string): int {
    if severity == "critical" then 50 else if severity == "warning" then 20 else if severity == "low" then 5 else 0
  }

  /** The first severity is the graver one; a severity that is none of the three is the least. */
  predicate Graver(a: string, b: string) {
    || (a == "critical" && b != "critical")
    || (a == "warning" && b != "critical" && b != "warning")
    || (a == "low" && b != "critical" && b != "warning" && b != "low")
  }

  lemma GraverIsHeavier(a: string, b: string)
    ensures Graver(a, b) <==> SeverityWeight(a) > SeverityWeight(b)
  {
  }

  function CategoryWeight(category: string): int {
    if category == "jenkins_controller" then 100
    else if category == "jenkins_agent" then 80
    else if category == "jenkins_queue" then 70
    else if category == "jenkins_pipeline_pattern" then 65
    else if category == "jenkins_failed_build" then 60
    else if category == "jenkins_build" then 55
    else if category == "k8s_workload" then 50
    else if category == "k8s_event" then 45
    else if category == "k8s_node" then 40
    else 30
  }

  function PriorityScore(d: Data): int {
    CategoryWeight(d.category) + SeverityWeight(d.severity)
  }

  // ---------------------------------------------------------------- the order that the scores give

  /** The place of a category; what is not listed comes last. */
  function Place(category: string): (place: nat)
    ensures place < 10
  {
    if category == "jenkins_controller" then 0
    else if category == "jenkins_agent" then 1
    else if category == "jenkins_queue" then 2
    else if category == "jenkins_pipeline_pattern" then 3
    else if category == "jenkins_failed_build" then 4
    else if category == "jenkins_build" then 5
    else if category == "k8s_workload" then 6
    else if category == "k8s_event" then 7
    else if category == "k8s_node" then 8
    else 9
  }

  /** The rank of a finding among all that there can be, the most urgent ones being 0: by place, for each
      severity. A critical agent, for instance, comes before a warning about the controller, and a warning
      about the queue is level with a critical node. */
  function Rank(d: Data): nat {
    var ranks :=
      if d.severity == "critical" then [0, 1, 2, 3, 4, 5, 6, 7, 8, 10]
      else if d.severity == "warning" then [2, 6, 8, 9, 10, 11, 12, 13, 14, 16]
      else if d.severity == "low" then [5, 9, 11, 12, 13, 14, 15, 16, 17, 19]
      else [6, 10, 12, 13, 14, 15, 16, 17, 18, 20];
    ranks[Place(d.category)]
  }

  /** The scores order findings as the ranks do. */
  lemma ScoresAreRanks(d: Data, e: Data)
    ensures PriorityScore(d) > PriorityScore(e) <==> Rank(d) < Rank(e)
  {
    hide PriorityScore, Rank;
    ScoreOfRank(d);
    ScoreOfRank(e);
  }

  const SCORES: seq<int> := [150, 130, 120, 115, 110, 105, 100, 95, 90, 85, 80, 75, 70, 65, 60, 55, 50, 45, 40, 35, 30]

  lemma ScoreOfRank(d: Data)
    ensures Rank(d) < |SCORES| && PriorityScore(d) == SCORES[Rank(d)]
  {
    hide CategoryWeight, Place;
    WeightOfPlace(d.category);
  }

  lemma WeightOfPlace(category: string)
    ensures Place(category) < 10 && CategoryWeight(category) == [100, 80, 70, 65, 60, 55, 50, 45, 40, 30][Place(category)]
  {
  }

  /** In one category the graver finding is the more urgent one, and with one severity the one whose category
      comes first. */
  lemma RankIsMonotone(d: Data, e: Data)
    ensures d.category == e.category && Graver(d.severity, e.severity) ==> Rank(d) < Rank(e)
    ensures d.severity == e.severity && Place(d.category) < Place(e.category) ==> Rank(d) < Rank(e)
  {
    hide Place;
    WeightOfPlace(d.category);
    WeightOfPlace(e.category);
  }

  /** Where Python's `max(group, key=score)` finds its result: the first greatest score. */
  function FirstMax(group: seq<nat>, score: nat -> int): (k: nat)
    requires group != []
    ensures k < |group|
    ensures forall i | 0 <= i < |group| :: score(group[i]) <= score(group[k])
    ensures forall i | 0 <= i < k :: score(group[i]) < score(group[k])
  {
    if |group| == 1 then 0
    else
      var front := group[..|group| - 1];
      var k := FirstMax(front, score);
      assert forall i | 0 <= i < |front| :: group[i] == front[i];
      if score(group[|group| - 1]) > score(group[k]) then |group| - 1 else k
  }

  /** Python's `str(n)` for a count. */
  function Decimal(n: nat): string {
    if n < 10 then ["0123456789"[n]] else Decimal(n / 10) + ["0123456789"[n % 10]]
  }

  /** The number that decimal digits stand for. */
  function ValueOf(digits: string): int {
    if digits == "" then 0 else 10 * ValueOf(digits[..|digits| - 1]) + (digits[|digits| - 1] as int - '0' as int)
  }

  lemma {:induction false} DecimalIsNumber(n: nat)
    ensures ValueOf(Decimal(n)) == n && Decimal(n) != ""
    ensures forall i | 0 <= i < |Decimal(n)| :: '0' <= Decimal(n)[i] <= '9'
    ensures n > 0 ==> Decimal(n)[0] != '0'
  {
    if n >= 10 {
      DecimalIsNumber(n / 10);
      assert Decimal(n)[..|Decimal(n)| - 1] == Decimal(n / 10);
    } else {
      assert Decimal(n)[..0] == "";
    }
  }

  /** How a finding is told of among those correlated with another one. */
  function Line(d: Data): string {
    d.resource + ": " + d.symptom
  }

  // ---------------------------------------------------------------- identity

  /** What the fingerprint is made with: blanks, the regular expression that replaces numbers, and
      the first 16 hexadecimal digits of SHA-256. */
  datatype Identity = Identity(isSpace: char -> bool, normalise: string -> string, digest: string -> string)

  function SymptomBase(symptom: string, id: Identity): string {
    Strip(Before(Before(symptom, '('), ','), id.isSpace)
  }

  function Fingerprint(d: Data, id: Identity): string {
    id.digest(d.category + ":" + d.resource + ":" + id.normalise(SymptomBase(d.symptom, id)))
  }

  /** What the correlation passes append to a symptom never changes what identifies the finding. */
  lemma SuffixKeepsFingerprint(d: Data, suffix: string, id: Identity)
    requires id.isSpace(' ')
    ensures Fingerprint(d.(symptom := d.symptom + " (" + suffix), id) == Fingerprint(d, id)
  {
    var s := d.symptom;
    assert s + " (" + suffix == s + (" (" + suffix);
    BeforeJoin(s, " (" + suffix, '(');
    BlankThenParen(suffix);
    if '(' !in s {
      NoCut(s, '(');
      BeforeJoin(s, " ", ',');
      NoCut(" ", ',');
      if ',' !in s {
        NoCut(s, ',');
        assert (s + " ")[..|s|] == s;
      }
    }
  }

  lemma BlankThenParen(suffix: string)
    ensures Before(" (" + suffix, '(') == " "
  {
    var t := " (" + suffix;
    assert t[0] == ' ' && t[1..][0] == '(';
  }

  lemma {:induction false} NoCut(text: string, c: char)
    requires c !in text
    ensures Before(text, c) == text
  {
    if text != "" {
      NoCut(text[1..], c);
      assert [text[0]] + text[1..] == text;
    }
  }
}
