/** Gathering related findings: failures with the same error signature, cluster events of a build's
    node, and trouble on one node. Models correlate_findings in src/jenkins_watchdog/api/router.py. */
module Correlation {
  import opened Sequences
  import opened Strings
  import opened Grouping
  import opened Findings
  import AgentGroups
  import Dedup

  // ---------------------------------------------------------------- the two merging phases

  datatype Kind = BySignature | ByNode

  predicate IsJenkins(d: Data) {
    "jenkins_" <= d.category
  }

  predicate IsK8s(d: Data) {
    "k8s_" <= d.category
  }

  function Lines(members: seq<Data>): (lines: seq<string>)
    ensures |lines| == |members| && forall i | 0 <= i < |members| :: lines[i] == Line(members[i])
  {
    seq(|members|, i requires 0 <= i < |members| => Line(members[i]))
  }

  /** The job of a finding: one without a job stands for its resource. */
  function JobOf(d: Data): string {
    match d.context.jobName case Some(name) => name case None => d.resource
  }

  function Jobs(members: seq<Data>): (jobs: seq<string>)
    ensures |jobs| == |members| && forall i | 0 <= i < |members| :: jobs[i] == JobOf(members[i])
  {
    seq(|members|, i requires 0 <= i < |members| => JobOf(members[i]))
  }

  function NodeOf(d: Data): string {
    var host := d.context.host.GetOr("");
    if host != "" then host
    else if d.category == "k8s_node" then AfterLast(d.resource, '/')
    else ""
  }

  function KeyOf(kind: Kind, d: Data): Option<string> {
    match kind
    case BySignature =>
      var sig := d.context.errorSignature;
      if sig != "" && (d.category == "jenkins_failed_build" || d.category == "jenkins_pipeline_pattern")
      then Some(sig) else None
    case ByNode =>
      var node := NodeOf(d);
      if node == "" then None else Some(node)
  }

  function KeysOf(kind: Kind, ds: seq<Data>): (keys: seq<Option<string>>)
    ensures |keys| == |ds| && forall i | 0 <= i < |ds| :: keys[i] == KeyOf(kind, ds[i])
  {
    seq(|ds|, i requires 0 <= i < |ds| => KeyOf(kind, ds[i]))
  }

  /** What is on one node is merged only if Jenkins has to do with it. */
  predicate Merges(kind: Kind, members: seq<Data>) {
    |members| >= 2 && (kind.ByNode? ==> exists i | 0 <= i < |members| :: IsJenkins(members[i]))
  }

  function MergesAt(kind: Kind, ds: seq<Data>): seq<nat> -> bool {
    g => (forall i | 0 <= i < |g| :: g[i] < |ds|) && Merges(kind, Pick(ds, g))
  }

  /** The groups, in the order in which a phase puts them out. */
  function Groups(kind: Kind, ds: seq<Data>): seq<seq<nat>> {
    Partition(KeysOf(kind, ds), MergesAt(kind, ds))
  }

  /** The member that stands for its group: the first with the greatest priority. */
  function Best(members: seq<Data>): nat
    requires members != []
    ensures Best(members) < |members|
  {
    FirstMax(Upto(|members|), (i: nat) => if i < |members| then PriorityScore(members[i]) else 0)
  }

  function Others<T>(members: seq<T>, p: nat): seq<T>
    requires p < |members|
  {
    members[..p] + members[p + 1..]
  }

  function SuffixFor(kind: Kind, key: string, size: nat): string
    requires size > 0
  {
    match kind
    case BySignature => "+" + Decimal(size - 1) + " jobs with same error signature)"
    case ByNode => "node " + key + ": " + Decimal(size) + " related issues)"
  }

  /** The finding that stands for a group, with what it takes over from the others. */
  function Absorb(kind: Kind, key: string, members: seq<Data>): Data
    requires members != []
  {
    var p := Best(members);
    var primary, related := members[p], Others(members, p);
    var context := primary.context.(
      correlatedFindings := primary.context.correlatedFindings + Lines(related),
      correlationGroupSize := 1 + |related|);
    primary.(
      symptom := primary.symptom + " (" + SuffixFor(kind, key, |members|),
      context := match kind
        case BySignature => context.(correlatedJobs := Jobs(related))
        case ByNode => context.(nodeCorrelation := key))
  }

  function PrimaryAt(ds: seq<Data>, g: seq<nat>): nat
    requires g != [] && forall i | 0 <= i < |g| :: g[i] < |ds|
    ensures PrimaryAt(ds, g) < |ds| && PrimaryAt(ds, g) in g
  {
    g[Best(Pick(ds, g))]
  }

  /** What a group becomes: a single finding stays what it is. */
  function Output(kind: Kind, ds: seq<Data>, g: seq<nat>): Data
    requires g != [] && forall i | 0 <= i < |g| :: g[i] < |ds|
  {
    if |g| < 2 then ds[g[0]]
    else Absorb(kind, KeyOf(kind, ds[g[0]]).GetOr(""), Pick(ds, g))
  }

  function Outputs(kind: Kind, ds: seq<Data>, groups: seq<seq<nat>>): (out: seq<Data>)
    requires Within(groups, |ds|)
    ensures |out| == |groups| && forall a | 0 <= a < |groups| :: out[a] == Output(kind, ds, groups[a])
  {
    seq(|groups|, a requires 0 <= a < |groups| => Output(kind, ds, groups[a]))
  }

  function Primaries(ds: seq<Data>, groups: seq<seq<nat>>): (ps: seq<nat>)
    requires Within(groups, |ds|)
    ensures |ps| == |groups| && forall a | 0 <= a < |groups| :: ps[a] == PrimaryAt(ds, groups[a]) < |ds|
  {
    seq(|groups|, a requires 0 <= a < |groups| => PrimaryAt(ds, groups[a]))
  }

  lemma GroupsWithin(kind: Kind, ds: seq<Data>)
    ensures Within(Groups(kind, ds), |ds|)
  {
    forall a | 0 <= a < |Groups(kind, ds)|
      ensures var g := Groups(kind, ds)[a]; g != [] && forall i | 0 <= i < |g| :: g[i] < |ds|
    {
      PartitionMember(KeysOf(kind, ds), MergesAt(kind, ds), a);
    }
  }

  function Phase(kind: Kind, ds: seq<Data>): (out: seq<Data>) {
    GroupsWithin(kind, ds);
    Outputs(kind, ds, Groups(kind, ds))
  }

  // ---------------------------------------------------------------- a merging phase loses nothing

  lemma GroupsPartition(kind: Kind, ds: seq<Data>)
    ensures IsPartition(Groups(kind, ds), |ds|)
  {
    PartitionIsComplete(KeysOf(kind, ds), MergesAt(kind, ds));
  }

  /** The finding is still there, at most with more to its symptom and its correlated findings. */
  predicate Carries(out: Data, d: Data) {
    && out.severity == d.severity && out.category == d.category && out.resource == d.resource
    && d.symptom <= out.symptom
    && d.context.correlatedFindings <= out.context.correlatedFindings
  }

  predicate Names(out: Data, d: Data) {
    Line(d) in out.context.correlatedFindings
  }

  /** The primary of a group is carried on, and every other member is named by it. */
  lemma AbsorbKeeps(kind: Kind, key: string, members: seq<Data>, i: nat)
    requires i < |members|
    ensures var out := Absorb(kind, key, members);
            if i == Best(members) then Carries(out, members[i]) else Names(out, members[i])
  {
    hide Best, Line, SuffixFor, Jobs;
    var p := Best(members);
    var related := Others(members, p);
    var lines := Lines(related);
    if i != p {
      var k := if i < p then i else i - 1;
      assert related[k] == members[i];
      assert lines[k] == Line(members[i]);
      var had := members[p].context.correlatedFindings;
      assert (had + lines)[|had| + k] == Line(members[i]);
    }
  }

  /** Every finding that enters a phase is in exactly one group; if it is the group's primary it comes
      out, and otherwise the group's output names it. */
  lemma PhaseConserves(kind: Kind, ds: seq<Data>, i: nat) returns (a: nat)
    requires i < |ds|
    ensures Within(Groups(kind, ds), |ds|) && a < |Phase(kind, ds)| == |Groups(kind, ds)|
    ensures forall b | 0 <= b < |Groups(kind, ds)| :: i in Groups(kind, ds)[b] <==> b == a
    ensures if PrimaryAt(ds, Groups(kind, ds)[a]) == i
            then Carries(Phase(kind, ds)[a], ds[i])
            else Names(Phase(kind, ds)[a], ds[i])
  {
    hide Absorb, Carries, Names;
    var groups := Groups(kind, ds);
    GroupsWithin(kind, ds);
    GroupsPartition(kind, ds);
    PartitionCovers(groups, |ds|, i);
    a :| 0 <= a < |groups| && i in groups[a];
    forall b | 0 <= b < |groups| && i in groups[b]
      ensures b == a
    {
      PartitionDisjoint(groups, |ds|, a, b, i);
    }
    MemberKept(kind, ds, a, i);
  }

  lemma MemberKept(kind: Kind, ds: seq<Data>, a: nat, i: nat)
    requires Within(Groups(kind, ds), |ds|) && a < |Groups(kind, ds)| && i in Groups(kind, ds)[a]
    ensures if PrimaryAt(ds, Groups(kind, ds)[a]) == i
            then Carries(Phase(kind, ds)[a], ds[i])
            else Names(Phase(kind, ds)[a], ds[i])
  {
    hide Absorb, Names, Best, Groups, MergesAt, KeyOf;
    GroupsIs(kind, ds);
    var g := Groups(kind, ds)[a];
    PartitionMember(KeysOf(kind, ds), MergesAt(kind, ds), a);
    var k :| 0 <= k < |g| && g[k] == i;
    if |g| >= 2 {
      AbsorbKeeps(kind, KeyOf(kind, ds[g[0]]).GetOr(""), Pick(ds, g), k);
    }
  }

  /** The node that a finding is on: its host, or, without one, what the resource of a node ends in. */
  predicate IsOn(d: Data, node: string) {
    && node != ""
    && if d.context.host == None || d.context.host == Some("")
       then d.category == "k8s_node" && IsLastPart(node, d.resource, '/')
       else d.context.host == Some(node)
  }

  lemma KeyIsNode(d: Data, node: string)
    ensures IsOn(d, node) <==> KeyOf(ByNode, d) == Some(node)
  {
    LastPart(d.resource, '/', node);
  }

  /** Two findings are merged exactly if they are failed builds or pipelines with the same signature, or are
      on the same node and Jenkins has to do with it. */
  lemma MergedExactly(kind: Kind, ds: seq<Data>, i: nat, j: nat)
    requires i < |ds| && j < |ds| && i != j
    ensures (exists a | 0 <= a < |Groups(kind, ds)| :: i in Groups(kind, ds)[a] && j in Groups(kind, ds)[a])
            <==> match kind
                 case BySignature =>
                   && ds[i].category in ["jenkins_failed_build", "jenkins_pipeline_pattern"]
                   && ds[j].category in ["jenkins_failed_build", "jenkins_pipeline_pattern"]
                   && ds[i].context.errorSignature == ds[j].context.errorSignature != ""
                 case ByNode =>
                   exists node :: IsOn(ds[i], node) && IsOn(ds[j], node)
                                  && exists k | 0 <= k < |ds| :: IsOn(ds[k], node) && "jenkins_" <= ds[k].category
  {
    hide Groups, KeyOf, IsOn, IsJenkins;
    MergedByKey(kind, ds, i, j);
    match kind {
      case BySignature =>
        SameSignature(ds[i], ds[j]);
      case ByNode =>
        SameNode(ds, i, j);
    }
  }

  lemma SameSignature(d: Data, e: Data)
    ensures KeyOf(BySignature, d).Some? && KeyOf(BySignature, d) == KeyOf(BySignature, e) <==>
              && d.category in ["jenkins_failed_build", "jenkins_pipeline_pattern"]
              && e.category in ["jenkins_failed_build", "jenkins_pipeline_pattern"]
              && d.context.errorSignature == e.context.errorSignature != ""
  {
  }

  lemma SameNode(ds: seq<Data>, i: nat, j: nat)
    requires i < |ds| && j < |ds|
    ensures && KeyOf(ByNode, ds[i]).Some? && KeyOf(ByNode, ds[i]) == KeyOf(ByNode, ds[j])
            && (exists k | 0 <= k < |ds| :: KeyOf(ByNode, ds[k]) == KeyOf(ByNode, ds[i]) && IsJenkins(ds[k]))
            <==> exists node :: IsOn(ds[i], node) && IsOn(ds[j], node)
                                && exists k | 0 <= k < |ds| :: IsOn(ds[k], node) && "jenkins_" <= ds[k].category
  {
    hide KeyOf, IsOn, IsJenkins;
    var at := KeyOf(ByNode, ds[i]);
    if k :| 0 <= k < |ds| && KeyOf(ByNode, ds[k]) == at && IsJenkins(ds[k]) && at.Some? && at == KeyOf(ByNode, ds[j]) {
      var node := at.value;
      KeyIsNode(ds[i], node);
      KeyIsNode(ds[j], node);
      KeyIsNode(ds[k], node);
      JenkinsCategory(ds[k]);
      assert IsOn(ds[k], node) && "jenkins_" <= ds[k].category;
    }
    if node, k :| IsOn(ds[i], node) && IsOn(ds[j], node) && 0 <= k < |ds| && IsOn(ds[k], node)
                  && "jenkins_" <= ds[k].category {
      KeyIsNode(ds[i], node);
      KeyIsNode(ds[j], node);
      KeyIsNode(ds[k], node);
      JenkinsCategory(ds[k]);
    }
  }

  lemma JenkinsCategory(d: Data)
    ensures IsJenkins(d) <==> "jenkins_" <= d.category
  {
  }

  lemma MergedByKey(kind: Kind, ds: seq<Data>, i: nat, j: nat)
    requires i < |ds| && j < |ds| && i != j
    ensures (exists a | 0 <= a < |Groups(kind, ds)| :: i in Groups(kind, ds)[a] && j in Groups(kind, ds)[a])
            <==> && KeyOf(kind, ds[i]).Some? && KeyOf(kind, ds[i]) == KeyOf(kind, ds[j])
                 && (kind.ByNode? ==>
                      exists k | 0 <= k < |ds| :: KeyOf(kind, ds[k]) == KeyOf(kind, ds[i]) && IsJenkins(ds[k]))
  {
    hide KeyOf, Partition, Entries, MergesAt, IsJenkins;
    var keys := KeysOf(kind, ds);
    SameGroupExactly(keys, MergesAt(kind, ds), i, j);
    if keys[i].Some? && keys[i] == keys[j] {
      var e := EntryOf(keys, |keys|, i);
      EntriesHaveKeys(keys, |keys|);
      EntryIsClass(keys, e, j);
      EntryMerges(kind, ds, e, i, j);
      KeyIsEntry(kind, ds, e, keys[i].value);
      assert Groups(kind, ds) == Partition(keys, MergesAt(kind, ds));
    }
  }

  lemma KeyIsEntry(kind: Kind, ds: seq<Data>, e: nat, key: string)
    requires var d := Entries(KeysOf(kind, ds), |ds|); e < |d| && d[e].0 == key
    ensures var d, merges := Entries(KeysOf(kind, ds), |ds|), MergesAt(kind, ds);
            merges(d[e].1) <==> exists f | 0 <= f < |d| :: d[f].0 == key && merges(d[f].1)
  {
    hide KeysOf, MergesAt;
    EntriesHaveKeys(KeysOf(kind, ds), |ds|);
  }

  lemma EntryMerges(kind: Kind, ds: seq<Data>, e: nat, i: nat, j: nat)
    requires e < |Entries(KeysOf(kind, ds), |ds|)| && i != j
    requires i in Entries(KeysOf(kind, ds), |ds|)[e].1 && j in Entries(KeysOf(kind, ds), |ds|)[e].1
    ensures var entry := Entries(KeysOf(kind, ds), |ds|)[e];
            MergesAt(kind, ds)(entry.1) <==>
              (kind.ByNode? ==> exists k | 0 <= k < |ds| :: KeyOf(kind, ds[k]) == Some(entry.0) && IsJenkins(ds[k]))
  {
    hide KeyOf, Entries, IsJenkins;
    var keys := KeysOf(kind, ds);
    var entry := Entries(keys, |ds|)[e];
    EntriesHaveKeys(keys, |ds|);
    AgentGroups.TwoMembers(entry.1, i, j);
    forall m | 0 <= m < |entry.1|
      ensures entry.1[m] < |ds| && KeyOf(kind, ds[entry.1[m]]) == Some(entry.0)
    {
      assert keys[entry.1[m]] == Some(entry.0);
    }
    var members := Pick(ds, entry.1);
    if kind.ByNode? {
      if m :| 0 <= m < |members| && IsJenkins(members[m]) {
        assert KeyOf(kind, ds[entry.1[m]]) == Some(entry.0) && IsJenkins(ds[entry.1[m]]);
      }
      if k :| 0 <= k < |ds| && KeyOf(kind, ds[k]) == Some(entry.0) && IsJenkins(ds[k]) {
        EntryIsClass(keys, e, k);
        var m :| 0 <= m < |entry.1| && entry.1[m] == k;
        assert IsJenkins(members[m]);
      }
    }
  }

  /** Of the members, b is more urgent than all earlier ones, and none is more urgent than b. */
  predicate IsMostUrgent(ds: seq<Data>, g: seq<nat>, b: nat)
    requires b < |g| && forall k | 0 <= k < |g| :: g[k] < |ds|
  {
    forall k | 0 <= k < |g| :: if k < b then Rank(ds[g[b]]) < Rank(ds[g[k]]) else Rank(ds[g[b]]) <= Rank(ds[g[k]])
  }

  /** What a merged finding says of the members of its group but the b-th one: a line each, and each one's job
      if they share a signature. */
  predicate TellsOfOthers(kind: Kind, out: Data, ds: seq<Data>, g: seq<nat>, b: nat)
    requires b < |g| && forall k | 0 <= k < |g| :: g[k] < |ds|
  {
    var had, lines, jobs := |ds[g[b]].context.correlatedFindings|, out.context.correlatedFindings, out.context.correlatedJobs;
    && |lines| == had + |g| - 1 && lines[..had] == ds[g[b]].context.correlatedFindings
    && (kind.BySignature? ==> |jobs| == |g| - 1)
    && forall k | 0 <= k < |g| - 1 ::
         var d := ds[g[if k < b then k else k + 1]];
         && lines[had + k] == d.resource + ": " + d.symptom
         && (kind.BySignature? ==>
               jobs[k] == if d.context.jobName == None then d.resource else d.context.jobName.value)
  }

  /** A symptom with its mark: how many other jobs share the signature, or how many findings share the node. */
  function MarkedSymptom(kind: Kind, symptom: string, node: string, size: nat): string
    requires size > 0
  {
    match kind
    case BySignature => symptom + " (+" + Decimal(size - 1) + " jobs with same error signature)"
    case ByNode => symptom + " (node " + node + ": " + Decimal(size) + " related issues)"
  }

  lemma MarkWithoutNode(symptom: string, node: string, other: string, size: nat)
    requires size > 0
    ensures MarkedSymptom(BySignature, symptom, node, size) == MarkedSymptom(BySignature, symptom, other, size)
  {
  }

  /** What stands for a merged group: the first of its most urgent members, with a note in its symptom; it tells
      of the others, and of the group's size, and of the node if they share one. Nothing else of it changes. */
  lemma PrimaryIsBest(kind: Kind, ds: seq<Data>, a: nat)
    ensures Within(Groups(kind, ds), |ds|)
    ensures a < |Groups(kind, ds)| && |Groups(kind, ds)[a]| >= 2 ==>
              var g, out := Groups(kind, ds)[a], Phase(kind, ds)[a];
              exists b: nat | b < |g| ::
                && PrimaryAt(ds, g) == g[b] && IsMostUrgent(ds, g, b) && TellsOfOthers(kind, out, ds, g, b)
                && var d := ds[g[b]];
                   && out.severity == d.severity && out.category == d.category && out.resource == d.resource
                   && out.context.correlationGroupSize == |g|
                   && out.symptom == MarkedSymptom(kind, d.symptom, out.context.nodeCorrelation, |g|)
                   && (kind.BySignature? ==>
                        out.context == d.context.(correlatedFindings := out.context.correlatedFindings,
                             correlatedJobs := out.context.correlatedJobs, correlationGroupSize := |g|))
                   && (kind.ByNode? ==>
                        var node := out.context.nodeCorrelation;
                        && IsOn(d, node)
                        && out.context == d.context.(correlatedFindings := out.context.correlatedFindings,
                             nodeCorrelation := node, correlationGroupSize := |g|))
  {
    hide Rank, KeyOf, SuffixFor, IsMostUrgent, TellsOfOthers, MergesAt, Best, Lines, Jobs, IsOn, Groups, Absorb, MarkedSymptom;
    GroupsWithin(kind, ds);
    if a < |Groups(kind, ds)| && |Groups(kind, ds)[a]| >= 2 {
      GroupsIs(kind, ds);
      PartitionMember(KeysOf(kind, ds), MergesAt(kind, ds), a);
      var g := Groups(kind, ds)[a];
      var members := Pick(ds, g);
      var b := Best(members);
      var key, out := KeyOf(kind, ds[g[0]]).GetOr(""), Phase(kind, ds)[a];
      forall k | 0 <= k < |g|
        ensures if k < b then Rank(ds[g[b]]) < Rank(ds[g[k]]) else Rank(ds[g[b]]) <= Rank(ds[g[k]])
      {
        BestIsMostUrgent(members, k);
      }
      MostUrgentIs(ds, g, b);
      AbsorbSays(kind, key, ds, g, b);
      AbsorbTells(kind, key, ds, g, b);
      MarkWithoutNode(ds[g[b]].symptom, key, out.context.nodeCorrelation, |g|);
      assert KeysOf(kind, ds)[g[b]] == KeyOf(kind, ds[g[b]]);
      if kind.ByNode? {
        KeyIsNode(ds[g[b]], key);
      }
    }
  }

  lemma MostUrgentIs(ds: seq<Data>, g: seq<nat>, b: nat)
    requires b < |g| && forall k | 0 <= k < |g| :: g[k] < |ds|
    requires forall k | 0 <= k < |g| ::
               if k < b then Rank(ds[g[b]]) < Rank(ds[g[k]]) else Rank(ds[g[b]]) <= Rank(ds[g[k]])
    ensures IsMostUrgent(ds, g, b)
  {
  }

  lemma AbsorbSays(kind: Kind, key: string, ds: seq<Data>, g: seq<nat>, b: nat)
    requires |g| >= 2 && (forall k | 0 <= k < |g| :: g[k] < |ds|) && b == Best(Pick(ds, g))
    ensures var out, d := Absorb(kind, key, Pick(ds, g)), ds[g[b]];
            && out.severity == d.severity && out.category == d.category && out.resource == d.resource
            && out.symptom == MarkedSymptom(kind, d.symptom, key, |g|)
            && (kind.BySignature? ==>
                 out.context == d.context.(correlatedFindings := out.context.correlatedFindings,
                   correlatedJobs := out.context.correlatedJobs, correlationGroupSize := |g|))
            && (kind.ByNode? ==>
                 out.context == d.context.(correlatedFindings := out.context.correlatedFindings,
                   nodeCorrelation := key, correlationGroupSize := |g|))
  {
    hide Best, Decimal, SuffixFor, MarkedSymptom, Lines, Jobs;
    SuffixReads(kind, key, |g|, Pick(ds, g)[b].symptom);
  }

  lemma AbsorbTells(kind: Kind, key: string, ds: seq<Data>, g: seq<nat>, b: nat)
    requires |g| >= 2 && (forall k | 0 <= k < |g| :: g[k] < |ds|) && b == Best(Pick(ds, g))
    ensures TellsOfOthers(kind, Absorb(kind, key, Pick(ds, g)), ds, g, b)
  {
    hide Best, SuffixFor;
    var members := Pick(ds, g);
    var others := Others(members, b);
    assert |others| == |g| - 1 && forall k | 0 <= k < |others| :: others[k] == ds[g[if k < b then k else k + 1]];
  }

  lemma SuffixReads(kind: Kind, key: string, size: nat, symptom: string)
    requires size > 0
    ensures symptom + " (" + SuffixFor(kind, key, size) == MarkedSymptom(kind, symptom, key, size)
  {
    hide Decimal;
    match kind {
      case BySignature =>
        assert " (" + "+" == " (+";
        var count, text := Decimal(size - 1), " jobs with same error signature)";
        Regroup(symptom, " (", "+", " (+", count, text);
      case ByNode =>
        assert " (" + "node " == " (node ";
        var count, text := Decimal(size), " related issues)";
        Regroup(symptom, " (", "node ", " (node ", key, ": " + count + text);
        Regroup3("node ", key, ": ", count, text);
        Regroup3(symptom + " (node ", key, ": ", count, text);
    }
  }

  lemma Regroup(a: string, open: string, first: string, both: string, c: string, d: string)
    requires open + first == both
    ensures a + open + (first + c + d) == a + both + c + d
  {
  }

  lemma Regroup3(a: string, b: string, c: string, d: string, e: string)
    ensures a + b + c + d + e == a + b + (c + d + e)
  {
  }

  lemma BestIsMostUrgent(members: seq<Data>, k: nat)
    requires k < |members|
    ensures var b := Best(members);
            if k < b then Rank(members[b]) < Rank(members[k]) else Rank(members[b]) <= Rank(members[k])
  {
    hide PriorityScore, Rank;
    assert Upto(|members|)[k] == k;
    ScoresAreRanks(members[Best(members)], members[k]);
    ScoresAreRanks(members[k], members[Best(members)]);
  }

  /** A phase puts out one finding for each group. */
  lemma PhaseSize(kind: Kind, ds: seq<Data>)
    ensures |Phase(kind, ds)| == |ds| - Absorbed(Groups(kind, ds))
  {
    GroupsPartition(kind, ds);
    PartitionSize(Groups(kind, ds), |ds|);
  }

  lemma AbsorbKeepsFingerprint(kind: Kind, key: string, members: seq<Data>, id: Identity)
    requires members != [] && id.isSpace(' ')
    ensures Fingerprint(Absorb(kind, key, members), id) == Fingerprint(members[Best(members)], id)
  {
    hide Best, SuffixFor, SymptomBase;
    var d := members[Best(members)];
    SuffixKeepsFingerprint(d, SuffixFor(kind, key, |members|), id);
  }

  lemma PrimariesDiffer(kind: Kind, ds: seq<Data>, a: nat, b: nat)
    requires Within(Groups(kind, ds), |ds|) && a < |Groups(kind, ds)| && b < |Groups(kind, ds)| && a != b
    ensures PrimaryAt(ds, Groups(kind, ds)[a]) != PrimaryAt(ds, Groups(kind, ds)[b])
  {
    hide Groups;
    var groups := Groups(kind, ds);
    GroupsPartition(kind, ds);
    if PrimaryAt(ds, groups[a]) == PrimaryAt(ds, groups[b]) {
      PartitionDisjoint(groups, |ds|, a, b, PrimaryAt(ds, groups[a]));
    }
  }

  /** What comes out of a phase is identified as the finding it was: different outputs are different
      findings of the input. */
  lemma PhaseKeepsFingerprints(kind: Kind, ds: seq<Data>, a: nat, id: Identity)
    ensures Within(Groups(kind, ds), |ds|) && |Phase(kind, ds)| == |Groups(kind, ds)|
    ensures a < |Groups(kind, ds)| && id.isSpace(' ') ==>
              && Fingerprint(Phase(kind, ds)[a], id) == Fingerprint(ds[Primaries(ds, Groups(kind, ds))[a]], id)
              && forall b | 0 <= b < |Groups(kind, ds)| && b != a ::
                   Primaries(ds, Groups(kind, ds))[b] != Primaries(ds, Groups(kind, ds))[a]
  {
    hide Absorb, Fingerprint, Best, Groups, MergesAt, KeyOf, PrimaryAt;
    var groups := Groups(kind, ds);
    GroupsWithin(kind, ds);
    if a < |groups| && id.isSpace(' ') {
      OutputKeepsFingerprint(kind, ds, groups[a], id);
      forall b | 0 <= b < |groups| && b != a
        ensures PrimaryAt(ds, groups[b]) != PrimaryAt(ds, groups[a])
      {
        PrimariesDiffer(kind, ds, a, b);
      }
    }
  }

  lemma OutputKeepsFingerprint(kind: Kind, ds: seq<Data>, g: seq<nat>, id: Identity)
    requires g != [] && (forall i | 0 <= i < |g| :: g[i] < |ds|) && id.isSpace(' ')
    ensures Fingerprint(Output(kind, ds, g), id) == Fingerprint(ds[PrimaryAt(ds, g)], id)
  {
    hide Absorb, Fingerprint, KeyOf;
    if |g| >= 2 {
      AbsorbKeepsFingerprint(kind, KeyOf(kind, ds[g[0]]).GetOr(""), Pick(ds, g), id);
    }
  }

  // ---------------------------------------------------------------- builds and the events of their nodes

  predicate PrintsDiffer(ds: seq<Data>, id: Identity) {
    forall i, j | 0 <= i < j < |ds| :: Fingerprint(ds[i], id) != Fingerprint(ds[j], id)
  }

  function BuildNode(d: Data): string {
    if d.context.builtOn != "" then d.context.builtOn else d.context.node
  }

  /** Whether the finding is on the node. Python raises an exception when it looks for a node in a host
      that is None. */
  predicate OnNode(d: Data, node: string) {
    && node != "" && d.context.host.Some?
    && (Contains(d.context.host.value, node) || Contains(d.context.objectName, node) || Contains(d.resource, node))
  }

  predicate NodeRaises(d: Data, node: string) {
    node != "" && d.context.host.None?
  }

  /** Finding k is a cluster finding on the node of the Jenkins finding j. */
  predicate Match(ds: seq<Data>, j: nat, k: nat)
    requires j < |ds| && k < |ds|
  {
    IsJenkins(ds[j]) && IsK8s(ds[k]) && OnNode(ds[k], BuildNode(ds[j]))
  }

  /** What a match is: the Jenkins finding has a node (where it was built, or else the one it names), and
      the cluster finding has a host; the node's name is part of the host's, the object's or the resource's. */
  lemma MatchExactly(ds: seq<Data>, j: nat, k: nat)
    requires j < |ds| && k < |ds|
    ensures Match(ds, j, k) <==>
              && "jenkins_" <= ds[j].category && "k8s_" <= ds[k].category && ds[k].context.host != None
              && exists node: string | node != "" ::
                   && (node == ds[j].context.builtOn || (ds[j].context.builtOn == "" && node == ds[j].context.node))
                   && (IsPart(node, ds[k].context.host.value) || IsPart(node, ds[k].context.objectName)
                       || IsPart(node, ds[k].resource))
  {
    hide Contains, IsPart;
    var node := BuildNode(ds[j]);
    forall text
      ensures IsPart(node, text) <==> Contains(text, node)
    {
      PartIsContained(node, text);
    }
  }

  predicate Earlier(j': nat, k': nat, j: nat, k: nat) {
    j' < j || (j' == j && k' < k)
  }

  /** Some pair before (j, k) matches, and its cluster finding has the fingerprint. */
  predicate Seen(ds: seq<Data>, mark: string, j: nat, k: nat, id: Identity)
    requires j <= |ds| && k <= |ds|
  {
    exists j': nat, k': nat | j' < |ds| && k' < |ds| ::
      Match(ds, j', k') && Earlier(j', k', j, k) && Fingerprint(ds[k'], id) == mark
  }

  /** The pair (j, k) is linked: it is the first match for the fingerprint of k. */
  predicate LinkedTo(ds: seq<Data>, j: nat, k: nat, id: Identity)
    requires j < |ds| && k < |ds|
  {
    Match(ds, j, k) && !Seen(ds, Fingerprint(ds[k], id), j, k, id)
  }

  /** Coming to the pair (j, k), the loops raise an exception: they look for a node in no host, since the
      fingerprint of k has not been linked before. */
  predicate RaisesAt(ds: seq<Data>, j: nat, k: nat, id: Identity)
    requires j < |ds| && k < |ds|
  {
    && IsJenkins(ds[j]) && IsK8s(ds[k]) && NodeRaises(ds[k], BuildNode(ds[j]))
    && !Seen(ds, Fingerprint(ds[k], id), j, k, id)
  }

  predicate Raises(ds: seq<Data>, id: Identity) {
    exists j: nat, k: nat | j < |ds| && k < |ds| :: RaisesAt(ds, j, k, id)
  }

  /** The loops come to (j, k). */
  predicate Reaches(ds: seq<Data>, j: nat, k: nat, id: Identity)
    requires j <= |ds| && k <= |ds|
  {
    forall j': nat, k': nat | j' < |ds| && k' < |ds| && Earlier(j', k', j, k) :: !RaisesAt(ds, j', k', id)
  }

  /** The cluster findings before n that are linked to finding j. */
  function Linked(ds: seq<Data>, j: nat, n: nat, id: Identity): (ks: seq<nat>)
    requires j < |ds| && n <= |ds|
    ensures forall i | 0 <= i < |ks| :: ks[i] < n
  {
    if n == 0 then []
    else if LinkedTo(ds, j, n - 1, id) then Linked(ds, j, n - 1, id) + [n - 1]
    else Linked(ds, j, n - 1, id)
  }

  function WithLinks(ds: seq<Data>, j: nat, n: nat, id: Identity): Data
    requires j < |ds| && n <= |ds|
  {
    ds[j].(context := ds[j].context.(
      correlatedFindings := ds[j].context.correlatedFindings + Lines(Pick(ds, Linked(ds, j, n, id)))))
  }

  function Link(ds: seq<Data>, id: Identity): (out: seq<Data>)
    ensures |out| == |ds| && forall j | 0 <= j < |ds| :: out[j] == WithLinks(ds, j, |ds|, id)
  {
    seq(|ds|, j requires 0 <= j < |ds| => WithLinks(ds, j, |ds|, id))
  }

  lemma {:induction false} LinkedAreLinked(ds: seq<Data>, j: nat, n: nat, k: nat, id: Identity)
    requires j < |ds| && n <= |ds|
    ensures k in Linked(ds, j, n, id) <==> k < n && LinkedTo(ds, j, k, id)
  {
    hide LinkedTo;
    if n > 0 {
      LinkedAreLinked(ds, j, n - 1, k, id);
    }
  }

  lemma EarlierMatchUnlinks(ds: seq<Data>, j: nat, k: nat, j': nat, k': nat, id: Identity)
    requires j < |ds| && k < |ds| && j' < |ds| && k' < |ds| && Match(ds, j, k) && Earlier(j, k, j', k')
    requires Fingerprint(ds[k], id) == Fingerprint(ds[k'], id)
    ensures !LinkedTo(ds, j', k', id)
  {
  }

  /** No fingerprint is linked twice. */
  lemma LinkedOnce(ds: seq<Data>, j: nat, k: nat, j': nat, k': nat, id: Identity)
    requires j < |ds| && k < |ds| && j' < |ds| && k' < |ds|
    requires LinkedTo(ds, j, k, id) && LinkedTo(ds, j', k', id)
    requires Fingerprint(ds[k], id) == Fingerprint(ds[k'], id)
    ensures j == j' && k == k'
  {
    hide Match, Fingerprint, Seen;
    if Earlier(j, k, j', k') {
      EarlierMatchUnlinks(ds, j, k, j', k', id);
    } else if Earlier(j', k', j, k) {
      EarlierMatchUnlinks(ds, j', k', j, k, id);
    }
  }

  /** Whatever matches is linked, at the latest here. */
  lemma {:induction false} MatchIsLinked(ds: seq<Data>, j: nat, k: nat, id: Identity) returns (j': nat, k': nat)
    requires j < |ds| && k < |ds| && Match(ds, j, k)
    ensures j' < |ds| && k' < |ds| && LinkedTo(ds, j', k', id) && Fingerprint(ds[k'], id) == Fingerprint(ds[k], id)
    ensures (j', k') == (j, k) || Earlier(j', k', j, k)
    decreases j, k
  {
    hide Match, Fingerprint;
    if LinkedTo(ds, j, k, id) {
      j', k' := j, k;
    } else {
      var p: nat, q: nat :| p < |ds| && q < |ds| && Match(ds, p, q) && Earlier(p, q, j, k)
                            && Fingerprint(ds[q], id) == Fingerprint(ds[k], id);
      j', k' := MatchIsLinked(ds, p, q, id);
    }
  }

  /** A cluster finding whose fingerprint no other one has is linked to the first Jenkins finding on
      its node, and to no other. */
  lemma LinkIsFirstMatch(ds: seq<Data>, j: nat, k: nat, id: Identity)
    requires j < |ds| && k < |ds|
    requires forall q | 0 <= q < |ds| && IsK8s(ds[q]) && Fingerprint(ds[q], id) == Fingerprint(ds[k], id) :: q == k
    ensures LinkedTo(ds, j, k, id) <==> Match(ds, j, k) && forall p | 0 <= p < j :: !Match(ds, p, k)
  {
    hide Fingerprint, OnNode;
    if Match(ds, j, k) {
      if p :| 0 <= p < j && Match(ds, p, k) {
        assert Earlier(p, k, j, k);
      }
    }
  }

  /** Linking changes nothing but the correlated findings, and those only grow. */
  lemma LinkKeeps(ds: seq<Data>, j: nat, id: Identity)
    requires j < |ds|
    ensures Carries(Link(ds, id)[j], ds[j]) && Link(ds, id)[j].symptom == ds[j].symptom
    ensures Fingerprint(Link(ds, id)[j], id) == Fingerprint(ds[j], id)
  {
    hide Linked;
  }

  lemma SeenNext(ds: seq<Data>, mark: string, j: nat, k: nat, id: Identity)
    requires j < |ds| && k < |ds|
    ensures Seen(ds, mark, j, k + 1, id) <==>
              Seen(ds, mark, j, k, id) || (Match(ds, j, k) && Fingerprint(ds[k], id) == mark)
  {
    hide Match, Fingerprint;
    if j': nat, k': nat :| j' < |ds| && k' < |ds| && Match(ds, j', k') && Earlier(j', k', j, k)
                           && Fingerprint(ds[k'], id) == mark {
      assert Earlier(j', k', j, k + 1);
    }
    assert Earlier(j, k, j, k + 1);
  }

  lemma SeenNextRow(ds: seq<Data>, mark: string, j: nat, id: Identity)
    requires j < |ds|
    ensures Seen(ds, mark, j + 1, 0, id) <==> Seen(ds, mark, j, |ds|, id)
  {
    hide Match, Fingerprint;
    if j': nat, k': nat :| j' < |ds| && k' < |ds| && Match(ds, j', k') && Earlier(j', k', j, |ds|)
                           && Fingerprint(ds[k'], id) == mark {
      assert Earlier(j', k', j + 1, 0);
    }
    if j': nat, k': nat :| j' < |ds| && k' < |ds| && Match(ds, j', k') && Earlier(j', k', j + 1, 0)
                           && Fingerprint(ds[k'], id) == mark {
      assert Earlier(j', k', j, |ds|);
    }
  }

  /** The set of linked fingerprints when the loops have come to (j, k). */
  ghost predicate LinkedPrints(linked: set<string>, ds: seq<Data>, j: nat, k: nat, id: Identity)
    requires j <= |ds| && k <= |ds|
  {
    forall mark :: mark in linked <==> Seen(ds, mark, j, k, id)
  }

  /** The findings when the loops have come to (j, k). */
  ghost predicate LinkedUpTo(fs: seq<Finding>, ds: seq<Data>, j: nat, k: nat, id: Identity)
    reads fs
    requires j <= |ds| && k <= |ds|
  {
    && |fs| == |ds|
    && forall i | 0 <= i < |fs| :: fs[i].View() == WithLinks(ds, i, if i < j then |ds| else if i == j then k else 0, id)
  }

  lemma NothingLinked(fs: seq<Finding>, ds: seq<Data>, id: Identity)
    requires ds == Views(fs)
    ensures LinkedUpTo(fs, ds, 0, 0, id) && LinkedPrints({}, ds, 0, 0, id) && Reaches(ds, 0, 0, id)
  {
    forall i | 0 <= i < |ds|
      ensures WithLinks(ds, i, 0, id) == ds[i]
    {
      assert ds[i].context.correlatedFindings + [] == ds[i].context.correlatedFindings;
    }
  }

  lemma RowDone(fs: seq<Finding>, linked: set<string>, ds: seq<Data>, j: nat, id: Identity)
    requires j < |ds| && LinkedUpTo(fs, ds, j, |ds|, id) && LinkedPrints(linked, ds, j, |ds|, id)
    requires Reaches(ds, j, |ds|, id)
    ensures LinkedUpTo(fs, ds, j + 1, 0, id) && LinkedPrints(linked, ds, j + 1, 0, id) && Reaches(ds, j + 1, 0, id)
  {
    hide WithLinks, Seen, RaisesAt;
    forall mark
      ensures mark in linked <==> Seen(ds, mark, j + 1, 0, id)
    {
      SeenNextRow(ds, mark, j, id);
    }
  }

  lemma AllLinked(fs: seq<Finding>, ds: seq<Data>, id: Identity)
    requires |fs| == |ds| && LinkedUpTo(fs, ds, |ds|, 0, id)
    ensures Views(fs) == Link(ds, id)
  {
    hide WithLinks;
  }

  /** What the pair (j, k) adds to finding j. */
  lemma LinkStep(ds: seq<Data>, j: nat, k: nat, id: Identity)
    requires j < |ds| && k < |ds|
    ensures var d := WithLinks(ds, j, k, id);
            WithLinks(ds, j, k + 1, id) ==
            if LinkedTo(ds, j, k, id)
            then d.(context := d.context.(correlatedFindings := d.context.correlatedFindings + [Line(ds[k])]))
            else d
  {
    hide LinkedTo, Line;
    var ks := Linked(ds, j, k, id);
    assert Pick(ds, ks + [k]) == Pick(ds, ks) + [ds[k]];
    assert Lines(Pick(ds, ks) + [ds[k]]) == Lines(Pick(ds, ks)) + [Line(ds[k])];
    Associative(ds[j].context.correlatedFindings, Lines(Pick(ds, ks)), [Line(ds[k])]);
  }

  /** Two findings that differ at most in what is correlated with them. */
  predicate SameButLinks(a: Data, b: Data) {
    a == b.(context := b.context.(correlatedFindings := a.context.correlatedFindings))
  }

  lemma SameButLinksMatters(a: Data, b: Data, node: string, id: Identity)
    requires SameButLinks(a, b)
    ensures IsJenkins(a) == IsJenkins(b) && IsK8s(a) == IsK8s(b) && BuildNode(a) == BuildNode(b)
    ensures NodeRaises(a, node) == NodeRaises(b, node)
    ensures OnNode(a, node) == OnNode(b, node) && Line(a) == Line(b) && Fingerprint(a, id) == Fingerprint(b, id)
  {
  }

  /** The result of something that may raise an exception. */
  datatype Attempt<+T> = Raised | Value(value: T)

  function TryLink(ds: seq<Data>, id: Identity): Attempt<seq<Data>> {
    if Raises(ds, id) then Raised else Value(Link(ds, id))
  }

  /** If no two findings have the same fingerprint, linking raises an exception exactly if some Jenkins
      finding has a node and some cluster finding has None for its host. */
  lemma RaisesExactly(ds: seq<Data>, id: Identity)
    requires PrintsDiffer(ds, id)
    ensures Raises(ds, id) <==>
              && (exists j | 0 <= j < |ds| :: IsJenkins(ds[j]) && BuildNode(ds[j]) != "")
              && (exists k | 0 <= k < |ds| :: IsK8s(ds[k]) && ds[k].context.host.None?)
  {
    hide Fingerprint, IsJenkins, IsK8s, BuildNode;
    if j: nat, k: nat :| j < |ds| && k < |ds| && IsJenkins(ds[j]) && BuildNode(ds[j]) != ""
                         && IsK8s(ds[k]) && ds[k].context.host.None? {
      assert RaisesAt(ds, j, k, id) by {
        if j': nat, k': nat :| j' < |ds| && k' < |ds| && Match(ds, j', k') && Earlier(j', k', j, k)
                               && Fingerprint(ds[k'], id) == Fingerprint(ds[k], id) {
          SamePrintSamePlace(ds, k', k, id);
        }
      }
    }
  }

  lemma SamePrintSamePlace(ds: seq<Data>, i: nat, j: nat, id: Identity)
    requires PrintsDiffer(ds, id) && i < |ds| && j < |ds| && Fingerprint(ds[i], id) == Fingerprint(ds[j], id)
    ensures i == j
  {
  }

  /** The two nested loops over the Jenkins findings and the cluster findings. If they raise an exception,
      it is at the first pair that raises one, and what has been linked before stays linked. */
  method LinkFindings(fs: seq<Finding>, id: Identity) returns (raised: bool, ghost atJ: nat, ghost atK: nat)
    requires Distinct(fs)
    modifies fs
    ensures raised <==> TryLink(old(Views(fs)), id).Raised?
    ensures !raised ==> Views(fs) == Link(old(Views(fs)), id)
    ensures raised ==>
              var ds := old(Views(fs));
              && atJ < |ds| && atK < |ds| && RaisesAt(ds, atJ, atK, id) && Reaches(ds, atJ, atK, id)
              && LinkedUpTo(fs, ds, atJ, atK, id)
  {
    hide LinkedUpTo, WithLinks, Fingerprint, LinkedPrints, RaisesAt, Reaches;
    ghost var ds := Views(fs);
    var linked: set<string> := {};
    atJ, atK := 0, 0;
    NothingLinked(fs, ds, id);
    for j := 0 to |fs|
      invariant LinkedUpTo(fs, ds, j, 0, id) && LinkedPrints(linked, ds, j, 0, id) && Reaches(ds, j, 0, id)
    {
      for k := 0 to |fs|
        invariant LinkedUpTo(fs, ds, j, k, id) && LinkedPrints(linked, ds, j, k, id) && Reaches(ds, j, k, id)
      {
        raised, linked := LinkPair(fs, ds, j, k, linked, id);
        if raised {
          atJ, atK := j, k;
          return;
        }
      }
      RowDone(fs, linked, ds, j, id);
    }
    raised := false;
    NoneRaised(ds, id);
    AllLinked(fs, ds, id);
  }

  lemma NoneRaised(ds: seq<Data>, id: Identity)
    requires Reaches(ds, |ds|, 0, id)
    ensures !Raises(ds, id)
  {
    hide RaisesAt;
    forall j: nat, k: nat | j < |ds| && k < |ds|
      ensures !RaisesAt(ds, j, k, id)
    {
      assert Earlier(j, k, |ds|, 0);
    }
  }

  lemma LinkedPrintsNext(linked: set<string>, ds: seq<Data>, j: nat, k: nat, id: Identity)
    requires j < |ds| && k < |ds| && LinkedPrints(linked, ds, j, k, id)
    ensures Fingerprint(ds[k], id) in linked <==> Seen(ds, Fingerprint(ds[k], id), j, k, id)
    ensures LinkedPrints(if Match(ds, j, k) then linked + {Fingerprint(ds[k], id)} else linked, ds, j, k + 1, id)
  {
    hide Match, Fingerprint, Seen;
    forall mark
      ensures Seen(ds, mark, j, k + 1, id) <==>
                Seen(ds, mark, j, k, id) || (Match(ds, j, k) && Fingerprint(ds[k], id) == mark)
    {
      SeenNext(ds, mark, j, k, id);
    }
  }

  /** The body of the inner loop. */
  method LinkPair(fs: seq<Finding>, ghost ds: seq<Data>, j: nat, k: nat, linked: set<string>, id: Identity)
      returns (raised: bool, linked': set<string>)
    requires Distinct(fs) && j < |fs| && k < |fs| && |fs| == |ds|
    requires LinkedUpTo(fs, ds, j, k, id) && LinkedPrints(linked, ds, j, k, id) && Reaches(ds, j, k, id)
    modifies fs
    ensures raised <==> RaisesAt(ds, j, k, id)
    ensures raised ==> LinkedUpTo(fs, ds, j, k, id)
    ensures !raised ==>
              LinkedUpTo(fs, ds, j, k + 1, id) && LinkedPrints(linked', ds, j, k + 1, id) && Reaches(ds, j, k + 1, id)
  {
    hide Fingerprint, OnNode, NodeRaises, Seen, LinkedPrints, WithLinks, IsJenkins, IsK8s, BuildNode, Line, Reaches;
    var build, event := fs[j].View(), fs[k].View();
    CurrentView(fs, ds, j, k, j, id);
    CurrentView(fs, ds, j, k, k, id);
    SameButLinksMatters(build, ds[j], "", id);
    SameButLinksMatters(event, ds[k], BuildNode(build), id);
    LinkedPrintsNext(linked, ds, j, k, id);
    LinkStep(ds, j, k, id);
    linked' := linked;
    raised := false;
    var mark := Fingerprint(event, id);
    if IsJenkins(build) && IsK8s(event) && mark !in linked {
      if NodeRaises(event, BuildNode(build)) {
        return true, linked;
      }
      if OnNode(event, BuildNode(build)) {
        fs[j].context := fs[j].context.(correlatedFindings := fs[j].context.correlatedFindings + [Line(event)]);
        linked' := linked + {mark};
      }
    }
    assert Match(ds, j, k) && mark in linked ==> linked + {mark} == linked;
    ReachesNext(ds, j, k, id);
  }

  lemma ReachesNext(ds: seq<Data>, j: nat, k: nat, id: Identity)
    requires j < |ds| && k < |ds| && Reaches(ds, j, k, id) && !RaisesAt(ds, j, k, id)
    ensures Reaches(ds, j, k + 1, id)
  {
    hide RaisesAt;
  }

  lemma CurrentView(fs: seq<Finding>, ds: seq<Data>, j: nat, k: nat, i: nat, id: Identity)
    requires i < |ds| && j < |ds| && k <= |ds| && LinkedUpTo(fs, ds, j, k, id)
    ensures SameButLinks(fs[i].View(), ds[i])
  {
  }

  // ---------------------------------------------------------------- the merging phases over objects

  /** The findings after the first n groups: each group's primary has been rewritten. */
  function After(kind: Kind, ds: seq<Data>, groups: seq<seq<nat>>, n: nat): (r: seq<Data>)
    requires Within(groups, |ds|) && n <= |groups|
    ensures |r| == |ds|
  {
    if n == 0 then ds
    else
      var before, g := After(kind, ds, groups, n - 1), groups[n - 1];
      if |g| < 2 then before else before[PrimaryAt(ds, g) := Output(kind, ds, g)]
  }

  lemma {:induction false} AfterElsewhere(kind: Kind, ds: seq<Data>, groups: seq<seq<nat>>, n: nat, x: nat)
    requires Within(groups, |ds|) && n <= |groups| && x < |ds|
    requires forall a | 0 <= a < n && |groups[a]| >= 2 :: PrimaryAt(ds, groups[a]) != x
    ensures After(kind, ds, groups, n)[x] == ds[x]
  {
    hide PrimaryAt, Output;
    if n > 0 {
      AfterElsewhere(kind, ds, groups, n - 1, x);
    }
  }

  /** Every group's output is what has become of its primary. */
  lemma {:induction false} AfterAt(kind: Kind, ds: seq<Data>, groups: seq<seq<nat>>, n: nat, a: nat)
    requires Within(groups, |ds|) && IsPartition(groups, |ds|) && n <= |groups| && a < |groups|
    ensures After(kind, ds, groups, n)[PrimaryAt(ds, groups[a])]
         == if a < n then Output(kind, ds, groups[a]) else ds[PrimaryAt(ds, groups[a])]
  {
    hide Absorb, IsPartition;
    if n > 0 {
      AfterAt(kind, ds, groups, n - 1, a);
      var x := PrimaryAt(ds, groups[a]);
      if a != n - 1 && PrimaryAt(ds, groups[n - 1]) == x {
        PartitionDisjoint(groups, |ds|, a, n - 1, x);
      }
    }
  }

  function Dictionary(kind: Kind, ds: seq<Data>): (d: seq<(string, seq<nat>)>)
    ensures PositionsBelow(d, |ds|)
  {
    EntriesBelow(KeysOf(kind, ds), |ds|);
    Entries(KeysOf(kind, ds), |ds|)
  }

  /** The first loop of a phase: the findings by key, the others aside. */
  method CollectByKey(kind: Kind, fs: seq<Finding>) returns (others: seq<Finding>, groups: seq<(string, seq<Finding>)>)
    ensures var loose := Loose(KeysOf(kind, Views(fs)), |fs|);
            (forall k | 0 <= k < |loose| :: loose[k] < |fs|) && others == Pick(fs, loose)
    ensures groups == Named(Dictionary(kind, Views(fs)), fs)
  {
    hide KeyOf;
    ghost var keys := KeysOf(kind, Views(fs));
    others, groups := [], [];
    for i := 0 to |fs|
      invariant forall k | 0 <= k < |Loose(keys, i)| :: Loose(keys, i)[k] < |fs|
      invariant others == Pick(fs, Loose(keys, i))
      invariant PositionsBelow(Entries(keys, i), |fs|)
      invariant groups == Named(Entries(keys, i), fs)
    {
      var f := fs[i];
      var key := KeyOf(kind, f.View());
      assert keys[i] == key;
      if key.None? {
        others := others + [f];
      } else {
        NamedAppend(Entries(keys, i), key.value, i, fs);
        groups := Append(groups, key.value, f);
      }
    }
  }

  /** The group's primary takes over the others; nothing else changes. */
  method AbsorbGroup(kind: Kind, key: string, group: seq<Finding>) returns (primary: Finding)
    requires group != []
    modifies group
    ensures primary == group[Best(old(Views(group)))]
    ensures primary.View() == Absorb(kind, key, old(Views(group)))
    ensures forall f | f in group && f != primary :: f.View() == old(f.View())
  {
    hide Best, SuffixFor;
    var p := Best(Views(group));
    primary := group[p];
    var related := Others(group, p);
    assert Views(related) == Others(Views(group), p);
    var context := primary.context;
    context := context.(
      correlatedFindings := context.correlatedFindings + Lines(Views(related)),
      correlationGroupSize := 1 + |related|);
    match kind {
      case BySignature => context := context.(correlatedJobs := Jobs(Views(related)));
      case ByNode => context := context.(nodeCorrelation := key);
    }
    primary.context := context;
    primary.symptom := primary.symptom + " (" + SuffixFor(kind, key, |group|);
  }

  /** The first e entries of the dictionary, and what came before them, are the first m groups. */
  predicate Reached(kind: Kind, ds: seq<Data>, e: nat, m: nat)
    requires e <= |Dictionary(kind, ds)|
  {
    && m <= |Groups(kind, ds)|
    && Groups(kind, ds)[..m]
       == Singles(Loose(KeysOf(kind, ds), |ds|)) + Expand(Dictionary(kind, ds)[..e], MergesAt(kind, ds))
  }

  /** The next groups after the first m are these. */
  predicate Comes(groups: seq<seq<nat>>, m: nat, parts: seq<seq<nat>>) {
    m + |parts| <= |groups| && forall a | 0 <= a < |parts| :: groups[m + a] == parts[a]
  }

  lemma ReachedNext(kind: Kind, ds: seq<Data>, e: nat, m: nat)
    requires e < |Dictionary(kind, ds)| && Reached(kind, ds, e, m)
    ensures var parts := Parts(Dictionary(kind, ds)[e].1, MergesAt(kind, ds));
            Reached(kind, ds, e + 1, m + |parts|) && Comes(Groups(kind, ds), m, parts)
  {
    hide Parts, KeysOf, MergesAt, Loose, Entries;
    var d, merges := Dictionary(kind, ds), MergesAt(kind, ds);
    var front := Singles(Loose(KeysOf(kind, ds), |ds|)) + Expand(d[..e], merges);
    var parts, back := Parts(d[e].1, merges), Expand(d[e + 1..], merges);
    assert d == d[..e] + ([d[e]] + d[e + 1..]) && d[..e + 1] == d[..e] + [d[e]];
    ExpandJoin(d[..e], [d[e]] + d[e + 1..], merges);
    ExpandFirst(d[e], d[e + 1..], merges);
    ExpandJoin(d[..e], [d[e]], merges);
    ExpandFirst(d[e], [], merges);
    assert [d[e]] + [] == [d[e]];
    assert Groups(kind, ds) == front + (parts + back);
    Associative(front, parts, back);
  }

  /** What is in an entry that is yet to come has not changed. */
  lemma EntryUntouched(kind: Kind, ds: seq<Data>, e: nat, m: nat, x: nat)
    requires Within(Groups(kind, ds), |ds|)
    requires e < |Dictionary(kind, ds)| && Reached(kind, ds, e, m) && x in Dictionary(kind, ds)[e].1
    ensures x < |ds| && After(kind, ds, Groups(kind, ds), m)[x] == ds[x]
  {
    hide PrimaryAt, KeysOf, MergesAt, Loose, Entries, Expand;
    var keys, d, groups := KeysOf(kind, ds), Dictionary(kind, ds), Groups(kind, ds);
    var loose := Singles(Loose(keys, |ds|));
    EntriesHaveKeys(keys, |ds|);
    assert keys[x] == Some(d[e].0);
    forall a | 0 <= a < m && |groups[a]| >= 2
      ensures PrimaryAt(ds, groups[a]) != x
    {
      assert groups[..m][a] == groups[a];
      var f := ExpandMember(d[..e], MergesAt(kind, ds), a - |loose|);
      assert groups[a] == d[f].1;
      var y := PrimaryAt(ds, groups[a]);
      assert keys[y] == Some(d[f].0);
    }
    AfterElsewhere(kind, ds, groups, m, x);
  }

  lemma {:induction false} AfterSingles(kind: Kind, ds: seq<Data>, groups: seq<seq<nat>>, m: nat, n: nat)
    requires Within(groups, |ds|) && m <= n <= |groups| && forall a | m <= a < n :: |groups[a]| == 1
    ensures After(kind, ds, groups, n) == After(kind, ds, groups, m)
  {
    hide Output, PrimaryAt;
    if m < n {
      AfterSingles(kind, ds, groups, m, n - 1);
    }
  }

  /** The first m groups' primaries have been put out. */
  predicate PutOut(fs: seq<Finding>, out: seq<Finding>, ds: seq<Data>, groups: seq<seq<nat>>, m: nat)
    requires Within(groups, |ds|)
  {
    && m <= |groups| && |fs| == |ds| && |out| == m
    && forall a | 0 <= a < m :: out[a] == fs[PrimaryAt(ds, groups[a])]
  }

  lemma PutOutSingles(fs: seq<Finding>, out: seq<Finding>, ds: seq<Data>, groups: seq<seq<nat>>, m: nat, g: seq<nat>)
    requires Within(groups, |ds|) && PutOut(fs, out, ds, groups, m) && Comes(groups, m, Singles(g))
    ensures forall i | 0 <= i < |g| :: g[i] < |fs|
    ensures PutOut(fs, out + Pick(fs, g), ds, groups, m + |g|)
    ensures forall a | m <= a < m + |g| :: |groups[a]| == 1
  {
    hide PrimaryAt;
    forall a | 0 <= a < |g|
      ensures groups[m + a] == [g[a]] && g[a] < |ds| && PrimaryAt(ds, groups[m + a]) == g[a]
    {
      assert PrimaryAt(ds, groups[m + a]) in groups[m + a];
    }
    var more := out + Pick(fs, g);
    forall a | m <= a < m + |g|
      ensures |groups[a]| == 1 && more[a] == fs[PrimaryAt(ds, groups[a])]
    {
      var b: nat := a - m;
      assert groups[m + b] == [g[b]];
    }
  }

  lemma PutOutMerged(fs: seq<Finding>, out: seq<Finding>, ds: seq<Data>, groups: seq<seq<nat>>, m: nat)
    requires Within(groups, |ds|) && m < |groups| && PutOut(fs, out, ds, groups, m)
    ensures PutOut(fs, out + [fs[PrimaryAt(ds, groups[m])]], ds, groups, m + 1)
  {
    hide PrimaryAt;
  }

  lemma AfterMerged(kind: Kind, ds: seq<Data>, groups: seq<seq<nat>>, m: nat, key: string)
    requires Within(groups, |ds|) && m < |groups| && |groups[m]| >= 2 && KeyOf(kind, ds[groups[m][0]]) == Some(key)
    ensures After(kind, ds, groups, m + 1)
         == After(kind, ds, groups, m)[PrimaryAt(ds, groups[m]) := Absorb(kind, key, Pick(ds, groups[m]))]
  {
    hide Absorb, PrimaryAt, KeyOf;
  }

  /** Merging a group rewrites its primary among all the findings. */
  method AbsorbAt(kind: Kind, key: string, fs: seq<Finding>, group: seq<Finding>, ghost g: seq<nat>, ghost ds: seq<Data>)
      returns (primary: Finding)
    requires Distinct(fs) && g != [] && |ds| == |fs| && forall i | 0 <= i < |g| :: g[i] < |fs|
    requires group == Pick(fs, g) && Views(group) == Pick(ds, g)
    modifies fs
    ensures primary == fs[PrimaryAt(ds, g)]
    ensures Views(fs) == old(Views(fs))[PrimaryAt(ds, g) := Absorb(kind, key, Pick(ds, g))]
  {
    hide Absorb, Best;
    primary := AbsorbGroup(kind, key, group);
    ghost var p := PrimaryAt(ds, g);
    forall x | 0 <= x < |fs|
      ensures fs[x].View() == if x == p then Absorb(kind, key, Pick(ds, g)) else old(fs[x].View())
    {
      assert fs[x] == primary <==> x == p;
    }
  }

  lemma EntryKey(kind: Kind, ds: seq<Data>, e: nat)
    requires e < |Dictionary(kind, ds)|
    ensures var entry := Dictionary(kind, ds)[e];
            && entry.1 != [] && (forall i | 0 <= i < |entry.1| :: entry.1[i] < |ds|)
            && KeyOf(kind, ds[entry.1[0]]) == Some(entry.0)
  {
    EntriesHaveKeys(KeysOf(kind, ds), |ds|);
    var entry := Dictionary(kind, ds)[e];
    assert KeysOf(kind, ds)[entry.1[0]] == Some(entry.0);
  }

  lemma EntryViews(kind: Kind, fs: seq<Finding>, ds: seq<Data>, e: nat, m: nat)
    requires |fs| == |ds| && Within(Groups(kind, ds), |ds|)
    requires e < |Dictionary(kind, ds)| && Reached(kind, ds, e, m) && Views(fs) == After(kind, ds, Groups(kind, ds), m)
    ensures Views(Pick(fs, Dictionary(kind, ds)[e].1)) == Pick(ds, Dictionary(kind, ds)[e].1)
  {
    hide Reached, After, Groups;
    var g := Dictionary(kind, ds)[e].1;
    forall i | 0 <= i < |g|
      ensures fs[g[i]].View() == ds[g[i]]
    {
      EntryUntouched(kind, ds, e, m, g[i]);
      assert Views(fs)[g[i]] == fs[g[i]].View();
    }
  }

  /** The body of the second loop. */
  method MergeEntry(kind: Kind, fs: seq<Finding>, key: string, group: seq<Finding>, out: seq<Finding>,
                    ghost ds: seq<Data>, ghost e: nat, ghost m: nat)
      returns (out': seq<Finding>, ghost m': nat)
    requires Distinct(fs) && |fs| == |ds| && Within(Groups(kind, ds), |ds|)
    requires e < |Dictionary(kind, ds)| && Reached(kind, ds, e, m)
    requires key == Dictionary(kind, ds)[e].0 && group == Pick(fs, Dictionary(kind, ds)[e].1)
    requires PutOut(fs, out, ds, Groups(kind, ds), m) && Views(fs) == After(kind, ds, Groups(kind, ds), m)
    modifies fs
    ensures m' <= |Groups(kind, ds)| && Reached(kind, ds, e + 1, m')
    ensures PutOut(fs, out', ds, Groups(kind, ds), m') && Views(fs) == After(kind, ds, Groups(kind, ds), m')
  {
    hide *;
    ghost var g, groups := Dictionary(kind, ds)[e].1, Groups(kind, ds);
    EntryViews(kind, fs, ds, e, m);
    EntryKey(kind, ds, e);
    ReachedNext(kind, ds, e, m);
    if Merges(kind, Views(group)) {
      m' := m + 1;
      MergedIsNext(kind, ds, g, m);
      AfterMerged(kind, ds, groups, m, key);
      PutOutMerged(fs, out, ds, groups, m);
      var primary := AbsorbAt(kind, key, fs, group, g, ds);
      out' := out + [primary];
    } else {
      m' := m + |g|;
      SinglesAreNext(kind, ds, g, m);
      PutOutSingles(fs, out, ds, groups, m, g);
      AfterSingles(kind, ds, groups, m, m');
      out' := out + group;
    }
  }

  lemma MergedIsNext(kind: Kind, ds: seq<Data>, g: seq<nat>, m: nat)
    requires (forall i | 0 <= i < |g| :: g[i] < |ds|) && Merges(kind, Pick(ds, g))
    requires Comes(Groups(kind, ds), m, Parts(g, MergesAt(kind, ds)))
    ensures |g| >= 2 && |Parts(g, MergesAt(kind, ds))| == 1
    ensures m < |Groups(kind, ds)| && Groups(kind, ds)[m] == g
  {
    hide Groups, Singles, Pick;
    var parts := Parts(g, MergesAt(kind, ds));
    assert parts == [g];
    assert Groups(kind, ds)[m + 0] == parts[0];
  }

  lemma SinglesAreNext(kind: Kind, ds: seq<Data>, g: seq<nat>, m: nat)
    requires (forall i | 0 <= i < |g| :: g[i] < |ds|) && !Merges(kind, Pick(ds, g))
    requires Comes(Groups(kind, ds), m, Parts(g, MergesAt(kind, ds)))
    ensures Parts(g, MergesAt(kind, ds)) == Singles(g) && m + |g| <= |Groups(kind, ds)|
    ensures Comes(Groups(kind, ds), m, Singles(g))
  {
    hide Groups;
  }

  lemma ReachedFirst(kind: Kind, fs: seq<Finding>, ds: seq<Data>)
    requires ds == Views(fs)
    ensures Within(Groups(kind, ds), |ds|)
    ensures var loose := Loose(KeysOf(kind, ds), |ds|);
            && (forall k | 0 <= k < |loose| :: loose[k] < |fs|)
            && |loose| <= |Groups(kind, ds)| && Reached(kind, ds, 0, |loose|)
            && PutOut(fs, Pick(fs, loose), ds, Groups(kind, ds), |loose|)
            && Views(fs) == After(kind, ds, Groups(kind, ds), |loose|)
  {
    hide After, KeysOf, MergesAt;
    var loose, d, groups := Loose(KeysOf(kind, ds), |ds|), Dictionary(kind, ds), Groups(kind, ds);
    GroupsWithin(kind, ds);
    LooseHaveNone(KeysOf(kind, ds), |ds|);
    assert d[..0] == [];
    assert groups[..|loose|] == Singles(loose);
    forall a | 0 <= a < |loose|
      ensures groups[a] == [loose[a]]
    {
      assert groups[..|loose|][a] == groups[a];
    }
    AfterSingles(kind, ds, groups, 0, |loose|);
    NothingAfter(kind, ds, groups);
  }

  lemma NothingAfter(kind: Kind, ds: seq<Data>, groups: seq<seq<nat>>)
    requires Within(groups, |ds|)
    ensures After(kind, ds, groups, 0) == ds
  {
  }

  lemma ReachedLast(kind: Kind, fs: seq<Finding>, out: seq<Finding>, ds: seq<Data>, m: nat)
    requires Within(Groups(kind, ds), |ds|) && |fs| == |ds|
    requires Reached(kind, ds, |Dictionary(kind, ds)|, m) && PutOut(fs, out, ds, Groups(kind, ds), m)
    ensures m == |Groups(kind, ds)| && out == Pick(fs, Primaries(ds, Groups(kind, ds)))
  {
    hide KeysOf, MergesAt, PrimaryAt, Entries, Loose;
    var d, groups := Dictionary(kind, ds), Groups(kind, ds);
    assert d[..|d|] == d;
    assert |groups[..m]| == |groups|;
  }

  /** One merging phase: what comes out are the groups' primaries, the same objects as before; they
      are rewritten, and nothing else is. */
  method MergeRelated(kind: Kind, fs: seq<Finding>) returns (out: seq<Finding>)
    requires Distinct(fs)
    modifies fs
    ensures Within(Groups(kind, old(Views(fs))), |fs|)
    ensures out == Pick(fs, Primaries(old(Views(fs)), Groups(kind, old(Views(fs)))))
    ensures Views(fs) == After(kind, old(Views(fs)), Groups(kind, old(Views(fs))), |Groups(kind, old(Views(fs)))|)
  {
    hide *;
    ghost var ds := Views(fs);
    ghost var d, groups := Dictionary(kind, ds), Groups(kind, ds);
    var others, dictionary := CollectByKey(kind, fs);
    out := others;
    ReachedFirst(kind, fs, ds);
    ghost var m: nat := |Loose(KeysOf(kind, ds), |ds|)|;
    for e := 0 to |dictionary|
      invariant m <= |groups| && Reached(kind, ds, e, m)
      invariant PutOut(fs, out, ds, groups, m) && Views(fs) == After(kind, ds, groups, m)
    {
      out, m := MergeEntry(kind, fs, dictionary[e].0, dictionary[e].1, out, ds, e, m);
    }
    ReachedLast(kind, fs, out, ds, m);
  }

  /** Seen from outside: a phase over objects is the phase over values, and its objects differ. */
  lemma PhaseOfObjects(kind: Kind, fs: seq<Finding>, out: seq<Finding>, ds: seq<Data>)
    requires Distinct(fs) && |fs| == |ds| && Within(Groups(kind, ds), |ds|)
    requires out == Pick(fs, Primaries(ds, Groups(kind, ds)))
    requires Views(fs) == After(kind, ds, Groups(kind, ds), |Groups(kind, ds)|)
    ensures Views(out) == Phase(kind, ds) && Distinct(out) && forall a | 0 <= a < |out| :: out[a] in fs
  {
    hide After, Groups, PrimaryAt, Output;
    var groups := Groups(kind, ds);
    GroupsPartition(kind, ds);
    forall a | 0 <= a < |out|
      ensures out[a].View() == Output(kind, ds, groups[a]) && out[a] in fs
    {
      AfterAt(kind, ds, groups, |groups|, a);
      assert Views(fs)[PrimaryAt(ds, groups[a])] == out[a].View();
    }
    forall a, b | 0 <= a < b < |out|
      ensures out[a] != out[b]
    {
      PrimariesDiffer(kind, ds, a, b);
    }
  }

  // ---------------------------------------------------------------- the whole pass

  /** The signature phase of the findings, whose agents are grouped. */
  function MergedBySignature(ds: seq<Data>, rules: AgentGroups.Rules): seq<Data> {
    Phase(BySignature, AgentGroups.GroupAgents(ds, rules))
  }

  function Correlate(ds: seq<Data>, rules: AgentGroups.Rules, id: Identity): Attempt<seq<Data>> {
    match TryLink(MergedBySignature(ds, rules), id)
    case Raised => Raised
    case Value(linked) => Value(Phase(ByNode, linked))
  }

  method CorrelateFindings(fs: seq<Finding>, rules: AgentGroups.Rules, id: Identity)
      returns (r: Attempt<seq<Finding>>)
    requires Distinct(fs)
    modifies fs
    ensures r.Raised? <==> Correlate(old(Views(fs)), rules, id).Raised?
    ensures r.Value? ==> Value(Views(r.value)) == Correlate(old(Views(fs)), rules, id) && Distinct(r.value)
    ensures r.Value? ==> forall a | 0 <= a < |r.value| :: r.value[a] in fs || fresh(r.value[a])
  {
    hide *;
    var grouped := AgentGroups.GroupAgentFindings(fs, rules);
    ghost var ds := Views(grouped);
    var merged := MergeRelated(BySignature, grouped);
    PhaseOfObjects(BySignature, grouped, merged, ds);
    CorrelateIs(old(Views(fs)), rules, id);
    ds := Views(merged);
    var raised, _, _ := LinkFindings(merged, id);
    if raised {
      return Raised;
    }
    ds := Views(merged);
    var out := MergeRelated(ByNode, merged);
    PhaseOfObjects(ByNode, merged, out, ds);
    r := Value(out);
  }

  lemma CorrelateIs(ds: seq<Data>, rules: AgentGroups.Rules, id: Identity)
    ensures var merged := Phase(BySignature, AgentGroups.GroupAgents(ds, rules));
            && (TryLink(merged, id).Raised? <==> Correlate(ds, rules, id).Raised?)
            && (!TryLink(merged, id).Raised? ==> Correlate(ds, rules, id) == Value(Phase(ByNode, Link(merged, id))))
  {
    hide Raises;
  }

  /** A finding that is no build or pipeline failure comes out of the signature phase as it is, and comes
      from nothing else. */
  lemma UnsignedPass(ds: seq<Data>, d: Data)
    requires d.category != "jenkins_failed_build" && d.category != "jenkins_pipeline_pattern"
    ensures d in Phase(BySignature, ds) <==> d in ds
  {
    hide Absorb, MergesAt, Partition, Groups;
    var groups, out, keys := Groups(BySignature, ds), Phase(BySignature, ds), KeysOf(BySignature, ds);
    GroupsWithin(BySignature, ds);
    GroupsIs(BySignature, ds);
    if i: nat :| i < |ds| && ds[i] == d {
      var a := LooseIsGroup(keys, MergesAt(BySignature, ds), i);
      assert out[a] == ds[i];
    }
    if a: nat :| a < |out| && out[a] == d {
      PartitionMember(keys, MergesAt(BySignature, ds), a);
      OutputCategory(BySignature, ds, groups[a]);
      assert keys[groups[a][0]] == KeyOf(BySignature, ds[groups[a][0]]);
      var p := PrimaryAt(ds, groups[a]);
      assert keys[p] == keys[groups[a][0]];
    }
  }

  lemma GroupsIs(kind: Kind, ds: seq<Data>)
    ensures Groups(kind, ds) == Partition(KeysOf(kind, ds), MergesAt(kind, ds))
  {
  }

  /** As long as no Jenkins finding has a host, and none that a check makes has one, the node phase merges
      nothing: it only moves what has a node behind the rest. */
  lemma NodePhaseMovesOnly(ds: seq<Data>)
    requires forall d | d in ds && IsJenkins(d) :: d.context.host.GetOr("") == ""
    ensures multiset(Phase(ByNode, ds)) == multiset(ds)
  {
    hide KeyOf, Absorb, Groups, IsJenkins;
    var groups, out := Groups(ByNode, ds), Phase(ByNode, ds);
    GroupsWithin(ByNode, ds);
    forall a | 0 <= a < |groups|
      ensures |groups[a]| == 1
    {
      NodeGroupIsSingle(ds, a);
    }
    AgentGroups.PositionsOfOnes(groups);
    assert out == Pick(ds, Positions(groups));
    GroupsPartition(ByNode, ds);
    PickPermuted(ds, Positions(groups), Upto(|ds|));
    assert Pick(ds, Upto(|ds|)) == ds;
  }

  lemma NodeGroupIsSingle(ds: seq<Data>, a: nat)
    requires forall d | d in ds && IsJenkins(d) :: d.context.host.GetOr("") == ""
    requires a < |Groups(ByNode, ds)|
    ensures |Groups(ByNode, ds)[a]| == 1
  {
    hide Partition, KeyOf, IsJenkins;
    var g, keys := Groups(ByNode, ds)[a], KeysOf(ByNode, ds);
    PartitionMember(keys, MergesAt(ByNode, ds), a);
    if |g| > 1 {
      var i :| 0 <= i < |g| && IsJenkins(Pick(ds, g)[i]);
      assert keys[g[i]] == KeyOf(ByNode, ds[g[i]]) && ds[g[i]] in ds;
      JenkinsHasNoNode(ds[g[i]]);
    }
  }

  lemma JenkinsHasNoNode(d: Data)
    requires IsJenkins(d) && d.context.host.GetOr("") == ""
    ensures KeyOf(ByNode, d).None?
  {
    assert d.category[0] == 'j';
  }

  /** Without any key, the findings come out as they are. */
  lemma NoGroups(kind: Kind, ds: seq<Data>)
    requires forall i | 0 <= i < |ds| :: KeyOf(kind, ds[i]).None?
    ensures Phase(kind, ds) == ds
  {
    hide KeyOf;
    AllLoose(KeysOf(kind, ds), |ds|);
    GroupsWithin(kind, ds);
    var groups := Groups(kind, ds);
    assert groups == Singles(Upto(|ds|));
    forall a | 0 <= a < |ds|
      ensures groups[a] == [a]
    {
      assert Upto(|ds|)[a] == a;
    }
  }

  lemma OutputCategory(kind: Kind, ds: seq<Data>, g: seq<nat>)
    requires g != [] && forall i | 0 <= i < |g| :: g[i] < |ds|
    ensures Output(kind, ds, g).category == ds[PrimaryAt(ds, g)].category
    ensures |g| == 1 ==> Output(kind, ds, g) == ds[g[0]] && PrimaryAt(ds, g) == g[0]
  {
    hide SuffixFor, KeyOf;
  }

  /** A cluster finding reaches the linking as it came in. */
  lemma ClusterFindingsPass(ds: seq<Data>, rules: AgentGroups.Rules, d: Data)
    requires IsK8s(d)
    ensures d in MergedBySignature(ds, rules) <==> d in ds
  {
    hide Phase, AgentGroups.GroupAgents;
    assert d.category[0] == 'k';
    AgentGroups.OthersPass(ds, rules, d);
    UnsignedPass(AgentGroups.GroupAgents(ds, rules), d);
  }

  /** If the fingerprints of what comes to the linking differ, the pass raises an exception, and nothing
      comes out of it, exactly if a Jenkins finding with a node comes to the linking, and a cluster finding
      with None for its host goes into the pass. */
  lemma PassRaisesExactly(ds: seq<Data>, rules: AgentGroups.Rules, id: Identity)
    requires PrintsDiffer(MergedBySignature(ds, rules), id)
    ensures Correlate(ds, rules, id).Raised? <==>
              && (exists d | d in MergedBySignature(ds, rules) :: IsJenkins(d) && BuildNode(d) != "")
              && (exists d | d in ds :: IsK8s(d) && d.context.host.None?)
  {
    hide MergedBySignature, IsJenkins, IsK8s, BuildNode, Raises, PrintsDiffer;
    var merged := MergedBySignature(ds, rules);
    RaisesExactly(merged, id);
    if d :| d in ds && IsK8s(d) && d.context.host.None? {
      ClusterFindingsPass(ds, rules, d);
      assert exists k | 0 <= k < |merged| :: merged[k] == d;
    }
    if k :| 0 <= k < |merged| && IsK8s(merged[k]) && merged[k].context.host.None? {
      assert merged[k] in merged;
      ClusterFindingsPass(ds, rules, merged[k]);
    }
    if d :| d in merged && IsJenkins(d) && BuildNode(d) != "" {
      assert exists j | 0 <= j < |merged| :: merged[j] == d;
    }
    if j :| 0 <= j < |merged| && IsJenkins(merged[j]) && BuildNode(merged[j]) != "" {
      assert merged[j] in merged;
    }
  }

  lemma PairRaises(ds: seq<Data>, id: Identity)
    requires |ds| == 2 && IsJenkins(ds[0]) && !IsK8s(ds[0]) && BuildNode(ds[0]) != ""
    requires IsK8s(ds[1]) && ds[1].context.host.None?
    ensures Raises(ds, id)
  {
    hide Fingerprint, IsJenkins, IsK8s, BuildNode, Contains;
    assert RaisesAt(ds, 0, 1, id);
  }

  /** Findings that are not related to each other come out as they are. */
  lemma UnrelatedPass(ds: seq<Data>, rules: AgentGroups.Rules, id: Identity)
    requires forall d | d in ds :: d.category == "jenkins_credential" && d.context.host == None
    ensures Correlate(ds, rules, id) == Value(ds)
  {
    hide Phase, AgentGroups.GroupAgents, Fingerprint, RaisesAt, IsK8s;
    NoKeys(ds, rules);
    forall i | 0 <= i < |ds|
      ensures !IsK8s(ds[i]) && KeyOf(ByNode, ds[i]).None?
    {
      assert ds[i] in ds && ds[i].category[0] == 'j';
      NoClusterFinding(ds[i]);
    }
    forall i | 0 <= i < |ds|
      ensures WithLinks(ds, i, |ds|, id) == ds[i]
    {
      NothingToLink(ds, i, |ds|, id);
      assert ds[i].context.correlatedFindings + [] == ds[i].context.correlatedFindings;
    }
    NoneRaisesWithoutCluster(ds, id);
    assert Link(ds, id) == ds;
    NoGroups(ByNode, ds);
  }

  lemma NoClusterFinding(d: Data)
    ensures d.category != "" && d.category[0] != 'k' ==> !IsK8s(d)
  {
  }

  lemma NoneRaisesWithoutCluster(ds: seq<Data>, id: Identity)
    requires forall i | 0 <= i < |ds| :: !IsK8s(ds[i])
    ensures !Raises(ds, id)
  {
    hide IsK8s, Fingerprint;
  }

  lemma {:induction false} NothingToLink(ds: seq<Data>, j: nat, n: nat, id: Identity)
    requires j < |ds| && n <= |ds| && forall i | 0 <= i < |ds| :: !IsK8s(ds[i])
    ensures Linked(ds, j, n, id) == []
  {
    hide IsK8s, Fingerprint;
    if n > 0 {
      NothingToLink(ds, j, n - 1, id);
    }
  }

  /** For example: the controller's finding, which always has a node, and an event that has none. */
  lemma ControllerAndUnscheduledPod(controller: Data, event: Data, rules: AgentGroups.Rules, id: Identity)
    requires controller.category == "jenkins_controller" && controller.context.node == "Built-In Node"
    requires event.category == "k8s_event" && event.context.host == None
    ensures Correlate([controller, event], rules, id) == Raised
  {
    hide Raises, Phase, AgentGroups.GroupAgents;
    var ds := [controller, event];
    NoKeys(ds, rules);
    assert controller.category[0] == 'j';
    PairRaises(ds, id);
  }

  lemma NoKeys(ds: seq<Data>, rules: AgentGroups.Rules)
    requires forall d | d in ds ::
               && d.category != "jenkins_agent"
               && d.category != "jenkins_failed_build" && d.category != "jenkins_pipeline_pattern"
    ensures MergedBySignature(ds, rules) == ds
  {
    hide AgentGroups.PrefixOf, Phase, AgentGroups.GroupAgents;
    assert forall i | 0 <= i < |ds| :: ds[i] in ds;
    AgentGroups.NoGroups(ds, rules);
    NoGroups(BySignature, ds);
  }

  /** A finding is still to be seen in another one: it is that one, or is named by it. */
  predicate SeenIn(out: Data, d: Data) {
    Carries(out, d) || Names(out, d)
  }

  lemma CarriedOn(a: Data, b: Data, c: Data)
    requires Carries(b, a) && Carries(c, b)
    ensures Carries(c, a)
  {
  }

  lemma StillNamed(a: Data, b: Data, c: Data)
    requires Names(b, a) && Carries(c, b)
    ensures Names(c, a)
  {
    var k :| 0 <= k < |b.context.correlatedFindings| && b.context.correlatedFindings[k] == Line(a);
    assert c.context.correlatedFindings[k] == Line(a);
  }

  /** Correlation conserves findings: unless it raises an exception, each finding is to be seen in one of
      the phase between, which is to be seen in one that comes out; what that one carries on is to be seen
      in it directly. */
  lemma CorrelationConserves(ds: seq<Data>, id: Identity, i: nat) returns (b: nat, a: nat)
    requires i < |ds|
    ensures match TryLink(Phase(BySignature, ds), id)
            case Raised => true
            case Value(linked) =>
              var out := Phase(ByNode, linked);
              && b < |linked| && a < |out|
              && SeenIn(linked[b], ds[i]) && SeenIn(out[a], linked[b])
              && (Carries(out[a], linked[b]) ==> SeenIn(out[a], ds[i]))
  {
    hide Phase, Link, Carries, Names, Raises, SeenIn;
    var merged := Phase(BySignature, ds);
    var linked := Link(merged, id);
    b := PhaseShows(BySignature, ds, i);
    LinkKeeps(merged, b, id);
    SeenOn(ds[i], merged[b], linked[b]);
    a := PhaseShows(ByNode, linked, b);
    SeenOn(ds[i], linked[b], Phase(ByNode, linked)[a]);
  }

  lemma PhaseShows(kind: Kind, ds: seq<Data>, i: nat) returns (a: nat)
    requires i < |ds|
    ensures a < |Phase(kind, ds)| && SeenIn(Phase(kind, ds)[a], ds[i])
  {
    hide Phase, Carries, Names;
    a := PhaseConserves(kind, ds, i);
  }

  lemma SeenOn(a: Data, b: Data, c: Data)
    requires SeenIn(b, a)
    ensures Carries(c, b) ==> SeenIn(c, a)
  {
    hide Carries, Names;
    if Carries(c, b) {
      if Carries(b, a) {
        CarriedOn(a, b, c);
      } else {
        StillNamed(a, b, c);
      }
    }
  }

  /** There come out as many findings as go in, less those that are absorbed; or none, with an exception. */
  lemma CorrelationSize(ds: seq<Data>, rules: AgentGroups.Rules, id: Identity)
    ensures var grouped := AgentGroups.GroupAgents(ds, rules);
            match Correlate(ds, rules, id)
            case Raised => Raises(MergedBySignature(ds, rules), id)
            case Value(out) =>
              |out| == |ds| - Absorbed(AgentGroups.Groups(ds, rules)) - Absorbed(Groups(BySignature, grouped))
                            - Absorbed(Groups(ByNode, Link(MergedBySignature(ds, rules), id)))
  {
    hide Raises, Groups, AgentGroups.Groups, Absorbed, Link, AgentGroups.KeysOf, Fingerprint, Absorb;
    var grouped := AgentGroups.GroupAgents(ds, rules);
    AgentGroups.GroupsPartition(ds, rules);
    PartitionSize(AgentGroups.Groups(ds, rules), |ds|);
    PhaseSize(BySignature, grouped);
    PhaseSize(ByNode, Link(MergedBySignature(ds, rules), id));
  }

  lemma PhaseKeepsPrintsDifferent(kind: Kind, ds: seq<Data>, id: Identity)
    requires PrintsDiffer(ds, id) && id.isSpace(' ')
    ensures PrintsDiffer(Phase(kind, ds), id)
  {
    hide Groups, Fingerprint, Output, PrimaryAt;
    var out := Phase(kind, ds);
    forall i, j | 0 <= i < j < |out|
      ensures Fingerprint(out[i], id) != Fingerprint(out[j], id)
    {
      PhaseKeepsFingerprints(kind, ds, i, id);
      PhaseKeepsFingerprints(kind, ds, j, id);
    }
  }

  lemma LinkKeepsPrintsDifferent(ds: seq<Data>, id: Identity)
    requires PrintsDiffer(ds, id)
    ensures PrintsDiffer(Link(ds, id), id)
  {
    hide Fingerprint, WithLinks;
    var out := Link(ds, id);
    forall i, j | 0 <= i < j < |out|
      ensures Fingerprint(out[i], id) != Fingerprint(out[j], id)
    {
      LinkKeeps(ds, i, id);
      LinkKeeps(ds, j, id);
    }
  }
}
